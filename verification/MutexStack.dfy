/** The busy-waiting stack, which uses only the mutex: a thread that finds the stack
    full or empty releases the mutex and tries again. */
module MutexStack {
  import opened Options
  import opened LifoStack
  import opened Roles
  import opened StackMemory
  import opened Sums
  import Runs

  datatype Pc = Outside | Testing | Leaving | Retrying | Finished

  datatype Thread = Thread(role: Role, pc: Pc, left: nat)

  datatype State = State(mem: Memory, owner: Option<nat>, threads: seq<Thread>, log: seq<Op>)

  datatype Action = Lock(t: nat) | Attempt(t: nat, c: char) | Unlock(t: nat)

  predicate Holds(pc: Pc) { pc == Testing || pc == Leaving || pc == Retrying }

  predicate Room(s: State, t: nat)
    requires t < |s.threads|
  {
    match s.threads[t].role
    case Producer => s.mem.index < |s.mem.buffer|
    case Consumer => s.mem.index > 0
  }

  predicate Enabled(s: State, a: Action) {
    && a.t < |s.threads|
    && var th := s.threads[a.t];
       match a
       case Lock(t) => s.owner == None && th.pc == Outside
       case Attempt(t, c) => th.pc == Testing
       case Unlock(t) => th.pc == Leaving || th.pc == Retrying
  }

  function AttemptNext(s: State, t: nat, c: char): State
    requires t < |s.threads| && s.mem.Valid()
  {
    var th := s.threads[t];
    if !Room(s, t) then
      s.(threads := s.threads[t := th.(pc := Retrying)])
    else
      var after := s.threads[t := Thread(th.role, Leaving, if th.left > 0 then th.left - 1 else 0)];
      match th.role
      case Producer => s.(mem := s.mem.Store(c), threads := after, log := s.log + [Push(c)])
      case Consumer => s.(mem := s.mem.Take(), threads := after, log := s.log + [Pop(s.mem.Top())])
  }

  function Next(s: State, a: Action): State
    requires s.mem.Valid() && Enabled(s, a)
  {
    var th := s.threads[a.t];
    match a
    case Lock(t) => s.(owner := Some(t), threads := s.threads[t := th.(pc := Testing)])
    case Attempt(t, c) => AttemptNext(s, t, c)
    case Unlock(t) =>
      s.(owner := None, threads := s.threads[t := th.(pc := if th.left == 0 then Finished else Outside)])
  }

  ghost predicate Step(s: State, s': State) {
    s.mem.Valid() && exists a :: Enabled(s, a) && s' == Next(s, a)
  }

  predicate Initial(s: State) {
    && s.mem.index == 0 && s.owner == None && s.log == []
    && forall t :: 0 <= t < |s.threads| ==>
         s.threads[t].pc == if s.threads[t].left == 0 then Finished else Outside
  }

  predicate MutualExclusion(s: State) {
    && (s.owner.Some? ==> s.owner.value < |s.threads|)
    && forall t :: 0 <= t < |s.threads| ==> (Holds(s.threads[t].pc) <==> s.owner == Some(t))
  }

  predicate Budgeted(th: Thread) {
    && (th.pc in {Outside, Testing, Retrying} ==> th.left > 0)
    && (th.pc == Finished ==> th.left == 0)
  }

  function PushesLeft(th: Thread): int { Pushes(th.role, th.left) }
  function PopsLeft(th: Thread): int { Pops(th.role, th.left) }

  ghost predicate Inv(s: State) {
    && s.mem.Valid()
    && Replay(|s.mem.buffer|, s.log) == Some(s.mem.Contents())
    && MutualExclusion(s)
    && forall t :: 0 <= t < |s.threads| ==> Budgeted(s.threads[t])
  }

  lemma StepKeepsInv(s: State, a: Action)
    requires Inv(s) && Enabled(s, a)
    ensures Inv(Next(s, a)) && |Next(s, a).mem.buffer| == |s.mem.buffer|
  {
    if a.Attempt? && Room(s, a.t) {
      match s.threads[a.t].role
      case Producer =>
        StoreIsPush(s.mem, a.c);
        ReplaySnoc(|s.mem.buffer|, s.log, Push(a.c));
      case Consumer =>
        TakeIsPop(s.mem);
        ReplaySnoc(|s.mem.buffer|, s.log, Pop(s.mem.Top()));
    }
  }

  /** Refinement: a step of the threads is one operation of the abstract stack, made
      while its thread holds the mutex, or leaves the abstract stack unchanged.  A push is
      of the character the caller gave, a pop returns what lies on top. */
  lemma StepRefines(s: State, a: Action)
    requires Inv(s) && Enabled(s, a)
    ensures Next(s, a).mem.Valid()
    ensures var xs, ys, K := s.mem.Contents(), Next(s, a).mem.Contents(), |s.mem.buffer|;
            if a.Attempt? && Room(s, a.t) then
              && s.owner == Some(a.t)
              && match s.threads[a.t].role
                 case Producer =>
                   && Next(s, a).log == s.log + [Push(a.c)]
                   && Apply(K, xs, Push(a.c)) == Some(ys)
                 case Consumer =>
                   && xs != [] && Next(s, a).log == s.log + [Pop(xs[|xs| - 1])]
                   && Apply(K, xs, Pop(xs[|xs| - 1])) == Some(ys)
            else Next(s, a).log == s.log && ys == xs
  {
    StepKeepsInv(s, a);
    if a.Attempt? && Room(s, a.t) {
      match s.threads[a.t].role
      case Producer => StoreIsPush(s.mem, a.c);
      case Consumer => TakeIsPop(s.mem);
    }
  }

  /** The busy-waiting stack refines the same abstract stack as the other one. */
  lemma RefinesLifoStack(s0: State, s: State)
    requires Initial(s0) && Runs.Reaches(Step, s0, s)
    ensures MutualExclusion(s) && s.mem.Valid()
    ensures Pushed(s.log) == Popped(s.log) + multiset(s.mem.Contents())
    ensures forall j :: 0 <= j < |s.log| && s.log[j].Pop? ==>
              exists i: nat :: LatestUnmatched(s.log, i, j) && s.log[i].item == s.log[j].item
  {
    forall s, s' | Inv(s) && Step(s, s') ensures Inv(s') {
      var a :| Enabled(s, a) && s' == Next(s, a);
      StepKeepsInv(s, a);
    }
    Runs.InvariantOfReach(Step, Inv, s0, s);
    Conservation(|s.mem.buffer|, s.log);
    forall j | 0 <= j < |s.log| && s.log[j].Pop?
      ensures exists i: nat :: LatestUnmatched(s.log, i, j) && s.log[i].item == s.log[j].item
    {
      PopReturnsLatestPush(|s.mem.buffer|, s.log, j);
    }
  }

  /** A thread is held up by nothing but the mutex. */
  lemma {:induction false} ThreadMovesIff(s: State, t: nat)
    requires t < |s.threads|
    ensures (exists a: Action :: a.t == t && Enabled(s, a)) <==>
              s.threads[t].pc != Finished && (s.threads[t].pc == Outside ==> s.owner == None)
  {
    assert s.threads[t].pc == Outside && s.owner == None ==> Enabled(s, Lock(t));
    assert s.threads[t].pc == Testing ==> Enabled(s, Attempt(t, 'x'));
    assert s.threads[t].pc == Leaving || s.threads[t].pc == Retrying ==> Enabled(s, Unlock(t));
  }

  // Completion: retries may go on for ever, but some schedule always finishes.

  function Work(th: Thread): int { 2 * th.left + (if th.pc == Leaving then 1 else 0) }

  function Measure(s: State): nat {
    if Sum(s.threads, Work) >= 0 then Sum(s.threads, Work) else 0
  }

  /** What the stack will hold when all threads have finished. */
  function Leftover(s: State): int {
    s.mem.index + Sum(s.threads, PushesLeft) - Sum(s.threads, PopsLeft)
  }

  /** The budgets can be spent: no pop is one too many, and what is left over fits. */
  ghost predicate Feasible(s: State) {
    Inv(s) && |s.mem.buffer| >= 1 && 0 <= Leftover(s) <= |s.mem.buffer|
  }

  predicate AllFinished(s: State) {
    forall t :: 0 <= t < |s.threads| ==> s.threads[t].pc == Finished
  }

  lemma UpdateSums(ts: seq<Thread>, t: nat, th: Thread)
    requires t < |ts|
    ensures var us := ts[t := th];
            && Sum(us, PushesLeft) == Sum(ts, PushesLeft) - PushesLeft(ts[t]) + PushesLeft(th)
            && Sum(us, PopsLeft) == Sum(ts, PopsLeft) - PopsLeft(ts[t]) + PopsLeft(th)
            && Sum(us, Work) == Sum(ts, Work) - Work(ts[t]) + Work(th)
    ensures Sum(ts, Work) >= 0 && Sum(ts[t := th], Work) >= 0
  {
    SumUpdate(ts, t, th, PushesLeft);
    SumUpdate(ts, t, th, PopsLeft);
    SumUpdate(ts, t, th, Work);
    SumNonNegative(ts, Work);
    SumNonNegative(ts[t := th], Work);
  }

  lemma AttemptWork(s: State, t: nat, c: char)
    requires Inv(s) && Enabled(s, Attempt(t, c))
    ensures var s' := Next(s, Attempt(t, c));
            && Inv(s') && Leftover(s') == Leftover(s)
            && if Room(s, t) then Measure(s') < Measure(s)
               else Measure(s') == Measure(s) && s'.mem == s.mem && s'.log == s.log
  {
    StepKeepsInv(s, Attempt(t, c));
    var th := s.threads[t];
    if Room(s, t) {
      UpdateSums(s.threads, t, Thread(th.role, Leaving, if th.left > 0 then th.left - 1 else 0));
    } else {
      UpdateSums(s.threads, t, th.(pc := Retrying));
    }
  }

  /** A step never raises the work left; it lowers it unless it takes the mutex or is
      part of a retry, and those leave the stack untouched. */
  lemma StepWork(s: State, a: Action)
    requires Inv(s) && Enabled(s, a)
    ensures Leftover(Next(s, a)) == Leftover(s) && Measure(Next(s, a)) <= Measure(s)
    ensures Measure(Next(s, a)) == Measure(s) ==> Next(s, a).mem == s.mem && Next(s, a).log == s.log
    ensures a.Attempt? && Room(s, a.t) ==> Measure(Next(s, a)) < Measure(s)
    ensures a.Unlock? && s.threads[a.t].pc == Leaving ==> Measure(Next(s, a)) < Measure(s)
  {
    StepKeepsInv(s, a);
    var ts := s.threads;
    var th := ts[a.t];
    match a
    case Lock(t) => UpdateSums(ts, t, th.(pc := Testing));
    case Attempt(t, c) => AttemptWork(s, t, c);
    case Unlock(t) => UpdateSums(ts, t, th.(pc := if th.left == 0 then Finished else Outside));
  }

  /** With the mutex free and operations left, some thread has room to proceed. */
  lemma SomeoneHasRoom(s: State) returns (t: nat)
    requires Feasible(s) && s.owner == None && !AllFinished(s)
    ensures t < |s.threads| && s.threads[t].pc == Outside && Room(s, t)
  {
    var ts := s.threads;
    SumNonNegative(ts, PushesLeft);
    SumNonNegative(ts, PopsLeft);
    var k :| 0 <= k < |ts| && ts[k].pc != Finished;
    if ts[k].role == Producer {
      SumBounds(ts, PushesLeft, k);
    } else {
      SumBounds(ts, PopsLeft, k);
    }
    if s.mem.index > 0 && Sum(ts, PopsLeft) > 0 {
      t := SumPositive(ts, PopsLeft);
    } else {
      t := SumPositive(ts, PushesLeft);
    }
  }

  lemma FreeMutexProgress(s: State) returns (s': State)
    requires Feasible(s) && s.owner == None && !AllFinished(s)
    ensures Runs.Reaches(Step, s, s') && Feasible(s') && Measure(s') < Measure(s)
  {
    var t := SomeoneHasRoom(s);
    var s1 := Next(s, Lock(t));
    StepKeepsInv(s, Lock(t));
    StepWork(s, Lock(t));
    s' := Next(s1, Attempt(t, 'x'));
    StepKeepsInv(s1, Attempt(t, 'x'));
    StepWork(s1, Attempt(t, 'x'));
    assert Step(s, s1) && Step(s1, s');
    Runs.ReachesOne(Step, s, s1);
    Runs.ReachesThen(Step, s, s1, s');
  }

  lemma OneStep(s: State, a: Action) returns (s': State)
    requires Feasible(s) && Enabled(s, a)
    ensures s' == Next(s, a) && Runs.Reaches(Step, s, s') && Feasible(s') && Measure(s') <= Measure(s)
  {
    s' := Next(s, a);
    StepKeepsInv(s, a);
    StepWork(s, a);
    assert Step(s, s');
    Runs.ReachesOne(Step, s, s');
  }

  lemma Progress(s: State) returns (s': State)
    requires Feasible(s) && !AllFinished(s)
    ensures Runs.Reaches(Step, s, s') && Feasible(s') && Measure(s') < Measure(s)
  {
    if s.owner == None {
      s' := FreeMutexProgress(s);
    } else {
      var t := s.owner.value;
      if s.threads[t].pc == Testing && Room(s, t) {
        s' := OneStep(s, Attempt(t, 'x'));
        StepWork(s, Attempt(t, 'x'));
      } else if s.threads[t].pc == Leaving {
        s' := OneStep(s, Unlock(t));
        StepWork(s, Unlock(t));
      } else {
        s' := RetryThenProgress(s, t);
      }
    }
  }

  /** The owner found no room: it releases the mutex and another thread proceeds. */
  lemma RetryThenProgress(s: State, t: nat) returns (s': State)
    requires Feasible(s) && s.owner == Some(t) && !AllFinished(s)
    requires s.threads[t].pc == Retrying || (s.threads[t].pc == Testing && !Room(s, t))
    ensures Runs.Reaches(Step, s, s') && Feasible(s') && Measure(s') < Measure(s)
  {
    var u := s;
    Runs.ReachesSelf(Step, s);
    if s.threads[t].pc == Testing {
      u := OneStep(s, Attempt(t, 'x'));
    }
    var v := OneStep(u, Unlock(t));
    Runs.ReachesJoin(Step, s, u, v);
    assert v.threads[t].pc == Outside;
    s' := FreeMutexProgress(v);
    Runs.ReachesJoin(Step, s, v, s');
  }

  lemma {:induction false} ReachableLeftover(s0: State, s: State)
    requires Inv(s0) && Runs.Reaches(Step, s0, s)
    ensures Inv(s) && Leftover(s) == Leftover(s0) && |s.mem.buffer| == |s0.mem.buffer|
  {
    var keeps := x => Inv(x) && Leftover(x) == Leftover(s0) && |x.mem.buffer| == |s0.mem.buffer|;
    forall x, y | keeps(x) && Step(x, y) ensures keeps(y) {
      var a :| Enabled(x, a) && y == Next(x, a);
      StepWork(x, a);
      StepKeepsInv(x, a);
    }
    Runs.InvariantOfReach(Step, keeps, s0, s);
  }

  /** A state whose budgets can be spent can be completed. */
  lemma Completable(s: State)
    requires Feasible(s)
    ensures exists z :: Runs.Reaches(Step, s, z) && AllFinished(z)
  {
    forall x | Feasible(x) && !AllFinished(x)
      ensures exists y :: Runs.Reaches(Step, x, y) && Feasible(y) && Measure(y) < Measure(x)
    {
      var y := Progress(x);
    }
    Runs.GoalIsReachable(Step, Feasible, AllFinished, Measure, s);
  }

  /** A finished run leaves what the budgets push more than they pop. */
  lemma {:induction false} FinishedLeftover(s: State)
    requires Inv(s) && AllFinished(s)
    ensures s.mem.index == Leftover(s)
  {
    SumAllZero(s.threads, PushesLeft);
    SumAllZero(s.threads, PopsLeft);
  }

  /** For any number of threads: every reachable state can still be completed, if and only
      if there are pushes for all pops and the capacity holds what they leave; that is
      then what the stack holds at the end. */
  lemma AlwaysCompletableIff(s0: State)
    requires Initial(s0) && |s0.mem.buffer| >= 1
    ensures var pushes, pops := Sum(s0.threads, PushesLeft), Sum(s0.threads, PopsLeft);
            && ((forall s :: Runs.Reaches(Step, s0, s) ==> exists z :: Runs.Reaches(Step, s, z) && AllFinished(z))
                <==> pops <= pushes <= pops + |s0.mem.buffer|)
            && forall s :: Runs.Reaches(Step, s0, s) && AllFinished(s) ==> s.mem.index == pushes - pops
  {
    forall s | Runs.Reaches(Step, s0, s)
      ensures Inv(s) && Leftover(s) == Leftover(s0) && |s.mem.buffer| == |s0.mem.buffer|
      ensures AllFinished(s) ==> s.mem.index == Leftover(s0)
      ensures Feasible(s0) ==> exists z :: Runs.Reaches(Step, s, z) && AllFinished(z)
    {
      ReachableLeftover(s0, s);
      if AllFinished(s) {
        FinishedLeftover(s);
      }
      if Feasible(s0) {
        Completable(s);
      }
    }
    Runs.ReachesSelf(Step, s0);
  }
}
