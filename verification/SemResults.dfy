/** What the semaphore program promises over whole runs: the counting invariant, which
    item each read returns, when the sum is right, and when the program can finish. */
module SemResults {
  import opened Sums
  import opened SemBuffer
  import Runs

  lemma ReachableInv(s0: State, M: nat, N: nat, s: State)
    requires Initial(s0, M, N) && Runs.Reaches(Step, s0, s)
    ensures Inv(s)
  {
    InitialInv(s0, M, N);
    forall s, s' | Inv(s) && Step(s, s') ensures Inv(s') {
      var a :| Enabled(s, a) && s' == Next(s, a);
      StepKeepsInv(s, a);
    }
    Runs.InvariantOfReach(Step, Inv, s0, s);
  }

  ghost predicate SizeIs(M: nat, s: State) {
    |s.producers| == M
  }

  lemma {:induction false} SameSize(s: State, a: Action)
    requires Enabled(s, a)
    ensures |Next(s, a).producers| == |s.producers|
  {
  }

  lemma ReachableSize(s0: State, M: nat, N: nat, s: State)
    requires Initial(s0, M, N) && Runs.Reaches(Step, s0, s)
    ensures |s.producers| == M
  {
    var inv := x => SizeIs(M, x);
    forall x, y | inv(x) && Step(x, y) ensures inv(y) {
      var a :| Enabled(x, a) && y == Next(x, a);
      SameSize(x, a);
    }
    Runs.InvariantOfReach(Step, inv, s0, s);
  }

  /** The index is what the semaphore counts, plus the producers that have raised the
      index and not posted, plus one while the consumer has waited and not lowered it.  So
      the consumer, once past the semaphore, finds the stack non-empty. */
  lemma SemaphoreCountsStack(s0: State, M: nat, N: nat, s: State)
    requires Initial(s0, M, N) && Runs.Reaches(Step, s0, s)
    ensures s.index == s.full + Count(s.producers, Owes) + (if Claims(s.consumer) then 1 else 0)
    ensures 0 <= s.index <= (if M == 0 then 0 else M - 1)
    ensures Exclusive(s)
    ensures s.consumer.pc == Checking ==> s.index > 0
    ensures s.consumer.pc != BackingOff && s.consumer.pc != GivingUp
  {
    ReachableInv(s0, M, N, s);
    ReachableSize(s0, M, N, s);
  }

  /** The read after the release returns the popped item exactly when no producer has
      stored in between. */
  lemma ReadIsPoppedIff(s0: State, M: nat, N: nat, s: State)
    requires Initial(s0, M, N) && Runs.Reaches(Step, s0, s) && s.consumer.pc.Copying?
    ensures 0 <= s.consumer.pc.at < |s.data|
    ensures s.data[s.consumer.pc.at] == s.consumer.popped <==> !s.consumer.raced
  {
    ReachableInv(s0, M, N, s);
  }

  /** At the end the stack and the semaphore are empty, and the sum falls short of the
      numbers pushed by exactly what the reads missed; they miss nothing when none of them
      came after a store into its window. */
  lemma FinalSum(s0: State, M: nat, N: nat, s: State)
    requires Initial(s0, M, N) && Runs.Reaches(Step, s0, s) && AllDone(s)
    ensures s.index == 0 && s.full == 0
    ensures s.pushed - s.consumer.sum == s.consumer.missed
    ensures !s.consumer.stale ==> s.consumer.missed == 0
  {
    ReachableInv(s0, M, N, s);
    DoneIsEmpty(s);
  }

  lemma DoneIsEmpty(s: State)
    requires Inv(s) && AllDone(s)
    ensures s.index == 0 && s.full == 0 && s.pushed - s.consumer.sum == s.consumer.missed
    ensures !s.consumer.stale ==> s.consumer.missed == 0
  {
    forall t | 0 <= t < |s.producers| ensures Left(s.producers[t]) == 0 {
      assert s.producers[t].pc == Exited;
    }
    SumAllZero(s.producers, Left);
    CountNone(s.producers, Owes);
    assert s.data[..0] == [];
  }

  // How much is pushed.

  function MadeBy(p: Producer): int { p.made }

  /** A producer has stored what it no longer has to announce, and what it is about to. */
  predicate HasMade(N: nat, p: Producer) {
    p.made + p.left == N + (if p.pc == Advancing || p.pc == Leaving || p.pc == Posting then 1 else 0)
  }

  /** Every number stored is a digit. */
  predicate Digits(N: nat, s: State) {
    && (forall t :: 0 <= t < |s.producers| ==> HasMade(N, s.producers[t]))
    && 0 <= s.pushed <= 9 * Sum(s.producers, MadeBy)
  }

  lemma {:induction false} StepOfProducer(N: nat, s: State, a: Action)
    requires Budgeted(s) && InRange(s) && Enabled(s, a) && (a.Lock? || a.Test? || a.Advance? || a.Unlock? || a.Post?)
    requires HasMade(N, s.producers[a.t])
    ensures var p, q := s.producers[a.t], Next(s, a).producers[a.t];
            && HasMade(N, q) && Next(s, a).producers == s.producers[a.t := q]
            && s.pushed <= Next(s, a).pushed <= s.pushed + 9 * (q.made - p.made)
  {
    assert s.producers[a.t].left > 0 <==> s.producers[a.t].pc != Exited;
  }

  lemma {:induction false} StepKeepsDigits(N: nat, s: State, a: Action)
    requires Inv(s) && Digits(N, s) && Enabled(s, a)
    ensures Digits(N, Next(s, a))
  {
    if a.Lock? || a.Test? || a.Advance? || a.Unlock? || a.Post? {
      StepOfProducer(N, s, a);
      SumUpdate(s.producers, a.t, Next(s, a).producers[a.t], MadeBy);
    }
  }

  /** At the end every producer has stored exactly N numbers, each from 0 to 9. */
  lemma {:induction false} AllIsPushed(s0: State, M: nat, N: nat, s: State)
    requires Initial(s0, M, N) && Runs.Reaches(Step, s0, s) && AllDone(s)
    ensures forall t :: 0 <= t < |s.producers| ==> s.producers[t].made == N
    ensures |s.producers| == M && 0 <= s.pushed <= 9 * (M * N)
  {
    InitialInv(s0, M, N);
    SumOfSame(s0.producers, MadeBy, 0);
    var keeps := x => Inv(x) && Digits(N, x);
    forall x, y | keeps(x) && Step(x, y) ensures keeps(y) {
      var a :| Enabled(x, a) && y == Next(x, a);
      StepKeepsInv(x, a);
      StepKeepsDigits(N, x, a);
    }
    Runs.InvariantOfReach(Step, keeps, s0, s);
    ReachableSize(s0, M, N, s);
    forall t | 0 <= t < |s.producers| ensures s.producers[t].made == N {
      assert s.producers[t].left > 0 <==> s.producers[t].pc != Exited;
    }
    SumOfSame(s.producers, MadeBy, N);
  }

  // Completion.

  function ProducerWork(p: Producer): int {
    4 * p.left - (match p.pc case Advancing => 1 case Leaving => 2 case Posting => 3 case _ => 0)
  }

  function ConsumerWork(c: Consumer): int {
    6 * c.todo - (match c.pc
                  case WantMutex => 1 case Checking => 2 case BackingOff => 2
                  case GivingUp => 3 case Unlocking => 3 case Fetching => 4 case Copying(_) => 5
                  case WaitFull => 0 case Done => 0)
  }

  function Work(s: State): int { Sum(s.producers, ProducerWork) + ConsumerWork(s.consumer) }

  function Measure(s: State): nat { if Work(s) >= 0 then Work(s) else 0 }

  lemma {:induction false} WorkIsNat(s: State)
    requires Budgeted(s)
    ensures Work(s) >= 0
  {
    forall t | 0 <= t < |s.producers| ensures ProducerWork(s.producers[t]) >= 0 {
      assert s.producers[t].left > 0 <==> s.producers[t].pc != Exited;
    }
    SumNonNegative(s.producers, ProducerWork);
  }

  /** A read of this run came after a store into its window, or is bound to. */
  predicate Tainted(s: State) {
    s.consumer.stale || (s.consumer.raced && InWindow(s.consumer.pc))
  }

  /** A step that is not part of taking the mutex or of a retry. */
  predicate Counts(s: State, a: Action)
    requires Enabled(s, a)
  {
    match a
    case Lock(_) => false
    case Test(_, _) => s.index < |s.data| - 1
    case Unlock(t) => s.producers[t].pc == Leaving
    case _ => true
  }

  lemma {:induction false} ProducerStepWork(s: State, a: Action)
    requires Inv(s) && Enabled(s, a) && (a.Lock? || a.Test? || a.Advance? || a.Unlock? || a.Post?)
    ensures Work(Next(s, a)) <= Work(s) && (Counts(s, a) ==> Work(Next(s, a)) < Work(s))
  {
    var s' := Next(s, a);
    SumUpdate(s.producers, a.t, s'.producers[a.t], ProducerWork);
    assert s.producers[a.t].left > 0 <==> s.producers[a.t].pc != Exited;
    assert s'.consumer == s.consumer.(raced := s'.consumer.raced);
  }

  /** Every step leaves less work, except taking the mutex and retrying; and only a
      store into the consumer's window taints the sum. */
  lemma {:induction false} StepWork(s: State, a: Action)
    requires Inv(s) && Enabled(s, a)
    ensures Inv(Next(s, a)) && Measure(Next(s, a)) <= Measure(s)
    ensures Counts(s, a) ==> Measure(Next(s, a)) < Measure(s)
    ensures Tainted(Next(s, a)) && !Tainted(s) ==> a.Test? && InWindow(s.consumer.pc)
  {
    StepKeepsInv(s, a);
    WorkIsNat(s);
    WorkIsNat(Next(s, a));
    if a.Lock? || a.Test? || a.Advance? || a.Unlock? || a.Post? {
      ProducerStepWork(s, a);
    }
  }

  /** What the sum is to be in the end. */
  datatype Aim = AnySum | RightSum | WrongSum

  /** A number has been lost: 5 was pushed, nothing was summed, and only zeros are left. */
  predicate LostFive(s: State) {
    s.pushed == 5 && s.consumer.sum == 0 && forall i :: 0 <= i < |s.data| ==> s.data[i].num == 0
  }

  predicate Meets(aim: Aim, s: State) {
    match aim
    case AnySum => true
    case RightSum => !Tainted(s)
    case WrongSum => LostFive(s)
  }

  lemma {:induction false} StepKeepsLost(s: State, a: Action)
    requires Enabled(s, a) && LostFive(s) && (a.Test? ==> a.num == 0)
    ensures LostFive(Next(s, a))
  {
  }

  /** What a schedule towards completion keeps. */
  ghost predicate Alive(M: nat, aim: Aim, s: State) {
    Inv(s) && |s.producers| == M && Meets(aim, s)
  }

  lemma Advances(M: nat, aim: Aim, s: State, a: Action) returns (s': State)
    requires Alive(M, aim, s) && Enabled(s, a)
    requires a.Test? ==> a.num == 0 && !InWindow(s.consumer.pc)
    ensures s' == Next(s, a) && Alive(M, aim, s') && Runs.Reaches(Step, s, s') && Measure(s') <= Measure(s)
    ensures Counts(s, a) ==> Measure(s') < Measure(s)
  {
    StepWork(s, a);
    SameSize(s, a);
    if aim == WrongSum {
      StepKeepsLost(s, a);
    }
    s' := Next(s, a);
    assert Step(s, s');
    Runs.ReachesOne(Step, s, s');
  }

  /** With nothing announced and the consumer waiting, some producer still has an item. */
  lemma ProducerWaits(s: State) returns (t: nat)
    requires Inv(s) && s.owner == Nobody && s.full == 0 && !AllDone(s)
    requires s.consumer.pc == WaitFull || s.consumer.pc == Done
    requires forall u :: 0 <= u < |s.producers| ==> s.producers[u].pc != Posting
    ensures t < |s.producers| && s.producers[t].pc == Start && s.index == 0 && s.consumer.pc == WaitFull
  {
    if s.consumer.pc == Done {
      var u :| 0 <= u < |s.producers| && s.producers[u].pc != Exited;
      SumBounds(s.producers, Left, u);
    }
    t := SumPositive(s.producers, Left);
    forall u | 0 <= u < |s.producers| ensures !Owes(s.producers[u]) {
      assert Holds(s.producers[u].pc) <==> s.owner == ProducerOwns(u);
    }
    CountNone(s.producers, Owes);
    assert Holds(s.producers[t].pc) <==> s.owner == ProducerOwns(t);
  }

  lemma FreeProgress(M: nat, aim: Aim, s: State) returns (s': State)
    requires Alive(M, aim, s) && M >= 2 && s.owner == Nobody && !InWindow(s.consumer.pc) && !AllDone(s)
    ensures Alive(M, aim, s') && Runs.Reaches(Step, s, s') && Measure(s') < Measure(s)
  {
    if s.consumer.pc == WantMutex {
      s' := Advances(M, aim, s, Take);
    } else if u :| 0 <= u < |s.producers| && s.producers[u].pc == Posting {
      s' := Advances(M, aim, s, Post(u));
    } else if s.consumer.pc == WaitFull && s.full > 0 {
      s' := Advances(M, aim, s, Wait);
    } else {
      assert s.consumer.pc == Done ==> s.full == 0 by {
        forall t | 0 <= t < |s.producers| ensures Left(s.producers[t]) >= 0 {
        }
        SumNonNegative(s.producers, Left);
      }
      var t := ProducerWaits(s);
      var s1 := Advances(M, aim, s, Lock(t));
      s' := Advances(M, aim, s1, Test(t, 0));
      Runs.ReachesJoin(Step, s, s1, s');
    }
  }

  lemma OwnedProgress(M: nat, aim: Aim, s: State, t: nat) returns (s': State)
    requires Alive(M, aim, s) && M >= 2 && s.owner == ProducerOwns(t) && !InWindow(s.consumer.pc)
    ensures Alive(M, aim, s') && Runs.Reaches(Step, s, s') && Measure(s') < Measure(s)
  {
    assert Holds(s.producers[t].pc);
    if s.producers[t].pc == Advancing {
      s' := Advances(M, aim, s, Advance(t));
    } else if s.producers[t].pc == Leaving {
      s' := Advances(M, aim, s, Unlock(t));
    } else if s.producers[t].pc == Testing && s.index < |s.data| - 1 {
      s' := Advances(M, aim, s, Test(t, 0));
    } else {
      s' := RetryThenProgress(M, aim, s, t);
    }
  }

  /** The producer found no room: it releases the mutex and another process proceeds. */
  lemma RetryThenProgress(M: nat, aim: Aim, s: State, t: nat) returns (s': State)
    requires Alive(M, aim, s) && M >= 2 && s.owner == ProducerOwns(t) && !InWindow(s.consumer.pc)
    requires s.producers[t].pc == Retrying || (s.producers[t].pc == Testing && s.index >= |s.data| - 1)
    ensures Alive(M, aim, s') && Runs.Reaches(Step, s, s') && Measure(s') < Measure(s)
  {
    var u := s;
    Runs.ReachesSelf(Step, s);
    if s.producers[t].pc == Testing {
      u := Advances(M, aim, s, Test(t, 0));
    }
    var v := Advances(M, aim, u, Unlock(t));
    Runs.ReachesJoin(Step, s, u, v);
    assert v.producers[t].pc == Start;
    s' := FreeProgress(M, aim, v);
    Runs.ReachesJoin(Step, s, v, s');
  }

  /** The consumer finishes its read first, so that no store falls into its window. */
  lemma Progress(M: nat, aim: Aim, s: State) returns (s': State)
    requires Alive(M, aim, s) && M >= 2 && !AllDone(s)
    ensures Alive(M, aim, s') && Runs.Reaches(Step, s, s') && Measure(s') < Measure(s)
  {
    if s.consumer.pc == Fetching {
      s' := Advances(M, aim, s, Fetch);
    } else if s.consumer.pc.Copying? {
      s' := Advances(M, aim, s, Copy);
    } else if s.owner == ConsumerOwns {
      assert ConsumerHolds(s.consumer.pc);
      if s.consumer.pc == Checking {
        s' := Advances(M, aim, s, Check);
      } else {
        s' := Advances(M, aim, s, Release);
      }
    } else if s.owner.ProducerOwns? {
      s' := OwnedProgress(M, aim, s, s.owner.t);
    } else {
      s' := FreeProgress(M, aim, s);
    }
  }

  lemma Completes(M: nat, aim: Aim, s: State)
    requires Alive(M, aim, s) && M >= 2
    ensures exists z :: Runs.Reaches(Step, s, z) && AllDone(z) && Alive(M, aim, z)
  {
    var alive := x => Alive(M, aim, x);
    forall x | alive(x) && !AllDone(x)
      ensures exists y :: Runs.Reaches(Step, x, y) && alive(y) && Measure(y) < Measure(x)
    {
      var y := Progress(M, aim, x);
    }
    Runs.GoalIsReachable(Step, alive, AllDone, Measure, s);
  }

  /** A single producer finds the stack of size zero full for ever. */
  ghost predicate Barren(s: State) {
    Inv(s) && |s.producers| == 1 && s.producers[0].pc in {Start, Testing, Retrying}
  }

  lemma BarrenStays(s: State, a: Action)
    requires Barren(s) && Enabled(s, a)
    ensures Barren(Next(s, a))
  {
    StepKeepsInv(s, a);
    SameSize(s, a);
  }

  lemma Idle(s: State, a: Action)
    requires Inv(s) && AllDone(s)
    ensures !Enabled(s, a)
  {
  }

  ghost predicate CanFinish(s: State) {
    exists z :: Runs.Reaches(Step, s, z) && AllDone(z)
  }

  lemma OneProducerNeverFinishes(s0: State, N: nat, s: State)
    requires Initial(s0, 1, N) && N > 0 && Runs.Reaches(Step, s0, s)
    ensures !AllDone(s)
  {
    InitialInv(s0, 1, N);
    forall x, y | Barren(x) && Step(x, y) ensures Barren(y) {
      var a :| Enabled(x, a) && y == Next(x, a);
      BarrenStays(x, a);
    }
    Runs.InvariantOfReach(Step, Barren, s0, s);
  }

  lemma {:induction false} InitiallyDone(s0: State, M: nat, N: nat)
    requires Initial(s0, M, N) && (M == 0 || N == 0)
    ensures AllDone(s0)
  {
  }

  lemma {:induction false} DoneStays(s0: State, s: State)
    requires Inv(s0) && AllDone(s0) && Runs.Reaches(Step, s0, s)
    ensures s == s0
  {
    var run :| Runs.IsRun(Step, run) && run[0] == s0 && run[|run| - 1] == s;
    if |run| > 1 {
      assert Step(run[0], run[0 + 1]);
      var a :| Enabled(s0, a) && run[0 + 1] == Next(s0, a);
      Idle(s0, a);
    }
  }

  lemma NothingToDo(s0: State, M: nat, N: nat, s: State)
    requires Initial(s0, M, N) && (M == 0 || N == 0) && Runs.Reaches(Step, s0, s)
    ensures AllDone(s) && s == s0
  {
    InitialInv(s0, M, N);
    InitiallyDone(s0, M, N);
    DoneStays(s0, s);
  }

  /** Every reachable state can still be completed, unless there is one producer with
      something to produce, and then none can. */
  lemma CanFinishIff(s0: State, M: nat, N: nat, s: State)
    requires Initial(s0, M, N) && Runs.Reaches(Step, s0, s)
    ensures CanFinish(s) <==> M != 1 || N == 0
  {
    ReachableInv(s0, M, N, s);
    ReachableSize(s0, M, N, s);
    if M == 0 || N == 0 {
      NothingToDo(s0, M, N, s);
      Runs.ReachesSelf(Step, s);
    } else if M == 1 {
      forall z | Runs.Reaches(Step, s, z) ensures !AllDone(z) {
        Runs.ReachesJoin(Step, s0, s, z);
        OneProducerNeverFinishes(s0, N, z);
      }
    } else {
      Completes(M, AnySum, s);
    }
  }

  /** And it can be completed with the right sum unless a read has already gone wrong. */
  lemma CanFinishRight(s0: State, M: nat, N: nat, s: State)
    requires Initial(s0, M, N) && Runs.Reaches(Step, s0, s) && M >= 2 && !Tainted(s)
    ensures exists z :: Runs.Reaches(Step, s, z) && AllDone(z) && z.index == 0 && z.full == 0
                        && z.consumer.sum == z.pushed
  {
    ReachableInv(s0, M, N, s);
    ReachableSize(s0, M, N, s);
    Completes(M, RightSum, s);
    var z :| Runs.Reaches(Step, s, z) && AllDone(z) && Alive(M, RightSum, z);
    DoneIsEmpty(z);
  }
}
