/** Completion of the condition-variable stack when every thread has a budget of
    operations. */
module CondCompletion {
  import opened Options
  import opened LifoStack
  import opened Roles
  import opened StackMemory
  import opened Sums
  import opened CondStack
  import C = SleeperCounts
  import D = CondDeadlock
  import Runs

  function LeftOf(th: Thread): int {
    match th.left
    case Forever => 0
    case Items(n) => n
  }

  function PushesLeft(th: Thread): int { Pushes(th.role, LeftOf(th)) }
  function PopsLeft(th: Thread): int { Pops(th.role, LeftOf(th)) }

  /** A thread is live until the signal of its last operation. */
  predicate Live(th: Thread) { th.left != Items(0) || th.pc == Signalling }
  predicate LiveProducer(th: Thread) { th.role == Producer && Live(th) }
  predicate LiveConsumer(th: Thread) { th.role == Consumer && Live(th) }

  datatype Fleet = Fleet(n: int, wp: int, wc: int, lp: int, lc: int)

  function FleetOf(s: State): Fleet {
    var v := D.Counted(s);
    Fleet(v.n, v.wp, v.wc, Count(s.threads, LiveProducer), Count(s.threads, LiveConsumer))
  }

  predicate WakesAny(v: Fleet, w: Fleet) {
    || (v.wp > 0 && w.wp == v.wp - 1 && w.wc == v.wc)
    || (v.wc > 0 && w.wc == v.wc - 1 && w.wp == v.wp)
    || (v.wp == 0 && v.wc == 0 && w.wp == 0 && w.wc == 0)
  }

  predicate FleetStep(K: int, v: Fleet, w: Fleet) {
    || (v.n < K && v.wp < v.lp && w.n == v.n + 1 && WakesAny(v, w) && v.lp - 1 <= w.lp <= v.lp && w.lc == v.lc)
    || (v.n > 0 && v.wc < v.lc && w.n == v.n - 1 && WakesAny(v, w) && v.lc - 1 <= w.lc <= v.lc && w.lp == v.lp)
    || (v.n == K && v.wp < v.lp && v.lc > 0 && w == v.(wp := v.wp + 1))
    || (v.n == 0 && v.wc < v.lc && v.lp > 0 && w == v.(wc := v.wc + 1))
    || (v.wp > 0 && w == v.(wp := v.wp - 1))
    || (v.wc > 0 && w == v.(wc := v.wc - 1))
  }

  predicate InBounds(K: int, v: Fleet) {
    0 <= v.n <= K && 0 <= v.wp <= v.lp && 0 <= v.wc <= v.lc
  }

  /** With at most K threads on each side: at most one side sleeps, its wakeups are still to
      come, and a whole side asleep means the stack is empty (consumers) or full
      (producers). */
  predicate Even(K: int, v: Fleet) {
    && v.lp <= K && v.lc <= K
    && (v.wc > 0 ==> v.wc + v.wp + v.n <= K)
    && (v.wp > 0 ==> v.wc + v.wp <= v.n)
    && (v.wp == 0 || v.wc == 0)
    && (v.lc > 0 && v.wc == v.lc ==> v.n == 0)
    && (v.lp > 0 && v.wp == v.lp ==> v.n == K)
  }

  /** With one thread on this side and fewer than 2K on the other: the other side is never
      all asleep when this one sleeps or is done, or when the stack is at the end where
      this one sleeps.  n counts towards that end. */
  predicate Alone(K: int, n: int, w1: int, l1: int, w2: int, l2: int) {
    && l1 <= 1 && l2 < 2 * K
    && (w2 > 0 ==> w2 + n < 2 * K)
    && (w1 == 1 ==> w2 < n && w2 < l2)
    && (n == K && l2 > 0 ==> w2 < l2)
    && (l1 == 0 && l2 > 0 ==> w2 < l2)
  }

  predicate Served(K: int, v: Fleet) {
    && InBounds(K, v)
    && (|| Even(K, v)
        || Alone(K, v.n, v.wp, v.lp, v.wc, v.lc)
        || Alone(K, K - v.n, v.wc, v.lc, v.wp, v.lp))
  }

  lemma FleetStepKeepsServed(K: int, v: Fleet, w: Fleet)
    requires K >= 1 && Served(K, v) && FleetStep(K, v, w)
    ensures Served(K, w)
  {
  }

  lemma FleetCountsAfterUpdate(ts: seq<Thread>, t: nat, th: Thread)
    requires t < |ts| && th.role == ts[t].role
    ensures var us := ts[t := th];
            && Count(us, D.ProducerAsleep) == Count(ts, D.ProducerAsleep)
                 - (if D.ProducerAsleep(ts[t]) then 1 else 0) + (if D.ProducerAsleep(th) then 1 else 0)
            && Count(us, D.ConsumerAsleep) == Count(ts, D.ConsumerAsleep)
                 - (if D.ConsumerAsleep(ts[t]) then 1 else 0) + (if D.ConsumerAsleep(th) then 1 else 0)
            && Count(us, LiveProducer) == Count(ts, LiveProducer)
                 - (if LiveProducer(ts[t]) then 1 else 0) + (if LiveProducer(th) then 1 else 0)
            && Count(us, LiveConsumer) == Count(ts, LiveConsumer)
                 - (if LiveConsumer(ts[t]) then 1 else 0) + (if LiveConsumer(th) then 1 else 0)
  {
    CountUpdate(ts, t, th, LiveProducer);
    CountUpdate(ts, t, th, LiveConsumer);
    D.CountsAfterUpdate(ts, t, th);
  }

  /** An awake live thread leaves fewer sleepers than live threads of its role. */
  lemma AwakeLive(ts: seq<Thread>, t: nat)
    requires t < |ts| && Live(ts[t]) && !IsAsleep(ts[t])
    requires forall i :: 0 <= i < |ts| ==> Budgeted(ts[i])
    ensures ts[t].role == Producer ==> Count(ts, D.ProducerAsleep) < Count(ts, LiveProducer)
    ensures ts[t].role == Consumer ==> Count(ts, D.ConsumerAsleep) < Count(ts, LiveConsumer)
  {
    if ts[t].role == Producer {
      CountStrict(ts, D.ProducerAsleep, LiveProducer, t);
    } else {
      CountStrict(ts, D.ConsumerAsleep, LiveConsumer, t);
    }
  }

  /** What the stack will hold when all threads have finished. */
  function Leftover(s: State): int {
    s.mem.index + Sum(s.threads, PushesLeft) - Sum(s.threads, PopsLeft)
  }

  /** Every thread has a finite budget. */
  ghost predicate Itemised(s: State) {
    Inv(s) && forall t :: 0 <= t < |s.threads| ==> s.threads[t].left.Items?
  }

  /** The budgets can be spent: no pop is one too many, and what is left over fits. */
  predicate Feasible(s: State) {
    0 <= Leftover(s) <= |s.mem.buffer|
  }

  ghost predicate ServedState(s: State) {
    Itemised(s) && |s.mem.buffer| >= 1 && Feasible(s) && Served(|s.mem.buffer|, FleetOf(s))
  }

  /** What a step of the threads means for the fleet. */
  ghost predicate Simulated(s: State, s': State) {
    FleetOf(s) == FleetOf(s') || FleetStep(|s.mem.buffer|, FleetOf(s), FleetOf(s'))
  }

  lemma {:induction false} LeftoverAfterUpdate(ts: seq<Thread>, t: nat, th: Thread)
    requires t < |ts|
    ensures var us := ts[t := th];
            && Sum(us, PushesLeft) == Sum(ts, PushesLeft) - PushesLeft(ts[t]) + PushesLeft(th)
            && Sum(us, PopsLeft) == Sum(ts, PopsLeft) - PopsLeft(ts[t]) + PopsLeft(th)
  {
    SumUpdate(ts, t, th, PushesLeft);
    SumUpdate(ts, t, th, PopsLeft);
  }

  lemma {:induction false} StepKeepsLeftover(s: State, a: Action)
    requires Itemised(s) && Enabled(s, a)
    ensures Leftover(Next(s, a)) == Leftover(s)
  {
    var ts := s.threads;
    if a.Signal? && a.woken.Some? {
      var w := a.woken.value;
      var us := SetPc(ts, w, Woken);
      LeftoverAfterUpdate(ts, w, ts[w].(pc := Woken));
      LeftoverAfterUpdate(us, a.t, us[a.t].(pc := Unlocking));
    } else {
      LeftoverAfterUpdate(ts, a.t, Next(s, a).threads[a.t]);
    }
  }

  /** A thread that finds the stack blocked has somebody left to unblock it. */
  lemma {:induction false} OtherSideIsLive(s: State, t: nat)
    requires Itemised(s) && Feasible(s) && t < |s.threads| && s.threads[t].pc == Testing && Blocked(s, t)
    ensures if s.threads[t].role == Producer then FleetOf(s).lc > 0 else FleetOf(s).lp > 0
  {
    NothingLeft(s.threads);
    if s.threads[t].role == Consumer {
      forall i | 0 <= i < |s.threads| ensures PopsLeft(s.threads[i]) >= 0 {
      }
      SumBounds(s.threads, PopsLeft, t);
    } else {
      forall i | 0 <= i < |s.threads| ensures PushesLeft(s.threads[i]) >= 0 {
      }
      SumBounds(s.threads, PushesLeft, t);
    }
  }

  lemma AttemptSimulated(s: State, t: nat, c: char)
    requires Itemised(s) && Feasible(s) && Enabled(s, Attempt(t, c))
    ensures Simulated(s, Next(s, Attempt(t, c)))
  {
    var ts := s.threads;
    if Blocked(s, t) {
      OtherSideIsLive(s, t);
      AwakeLive(ts, t);
      FleetCountsAfterUpdate(ts, t, ts[t].(pc := Asleep));
    } else {
      FleetCountsAfterUpdate(ts, t, Thread(ts[t].role, Signalling, Spend(ts[t].left)));
    }
  }

  lemma SignalSimulated(s: State, t: nat, woken: Option<nat>)
    requires Itemised(s) && Feasible(s) && Enabled(s, Signal(t, woken))
    ensures Simulated(s, Next(s, Signal(t, woken)))
  {
    var ts := s.threads;
    AwakeLive(ts, t);
    if woken.Some? {
      var w := woken.value;
      var us := SetPc(ts, w, Woken);
      D.AwakeOrAsleepCounts(ts, w);
      FleetCountsAfterUpdate(ts, w, ts[w].(pc := Woken));
      FleetCountsAfterUpdate(us, t, us[t].(pc := Unlocking));
    } else {
      D.NobodyAsleep(ts);
      FleetCountsAfterUpdate(ts, t, ts[t].(pc := Unlocking));
    }
  }

  /** Taking or releasing the mutex, or waking for no reason. */
  lemma {:induction false} OtherSimulated(s: State, a: Action)
    requires Itemised(s) && Feasible(s) && Enabled(s, a) && (a.Lock? || a.Unlock? || a.Spurious?)
    ensures Simulated(s, Next(s, a))
  {
    D.AwakeOrAsleepCounts(s.threads, a.t);
    FleetCountsAfterUpdate(s.threads, a.t, Next(s, a).threads[a.t]);
  }

  lemma StepSimulated(s: State, a: Action)
    requires Itemised(s) && Feasible(s) && Enabled(s, a)
    ensures Simulated(s, Next(s, a))
  {
    match a
    case Attempt(t, c) => AttemptSimulated(s, t, c);
    case Signal(t, woken) => SignalSimulated(s, t, woken);
    case _ => OtherSimulated(s, a);
  }

  lemma StepKeepsBudgets(s: State, a: Action)
    requires s.mem.Valid() && Enabled(s, a)
    requires forall t :: 0 <= t < |s.threads| ==> s.threads[t].left.Items?
    ensures forall t :: 0 <= t < |Next(s, a).threads| ==> Next(s, a).threads[t].left.Items?
  {
  }

  lemma StepKeepsServed(s: State, a: Action)
    requires ServedState(s) && Enabled(s, a)
    ensures ServedState(Next(s, a))
  {
    StepKeepsInv(s, a);
    StepKeepsBudgets(s, a);
    StepKeepsLeftover(s, a);
    StepSimulated(s, a);
    var v, w := FleetOf(s), FleetOf(Next(s, a));
    if v != w {
      FleetStepKeepsServed(|s.mem.buffer|, v, w);
    }
  }

  predicate AllFinished(s: State) {
    forall t :: 0 <= t < |s.threads| ==> s.threads[t].pc == Finished
  }

  predicate Stopped(th: Thread) { th.pc == Asleep || th.pc == Finished }

  lemma StoppedCounts(ts: seq<Thread>)
    requires forall t :: 0 <= t < |ts| ==> Stopped(ts[t]) && Budgeted(ts[t])
    ensures Count(ts, LiveProducer) == Count(ts, D.ProducerAsleep)
    ensures Count(ts, LiveConsumer) == Count(ts, D.ConsumerAsleep)
  {
    CountImplies(ts, LiveProducer, D.ProducerAsleep);
    CountImplies(ts, LiveConsumer, D.ConsumerAsleep);
    CountImplies(ts, D.ProducerAsleep, LiveProducer);
    CountImplies(ts, D.ConsumerAsleep, LiveConsumer);
  }

  /** A side without live threads has nothing left to do. */
  lemma NothingLeft(ts: seq<Thread>)
    requires forall t :: 0 <= t < |ts| ==> ts[t].left.Items?
    ensures Count(ts, LiveProducer) == 0 ==> Sum(ts, PushesLeft) == 0
    ensures Count(ts, LiveConsumer) == 0 ==> Sum(ts, PopsLeft) == 0
    ensures Sum(ts, PushesLeft) >= 0 && Sum(ts, PopsLeft) >= 0
  {
    SumNonNegative(ts, PushesLeft);
    SumNonNegative(ts, PopsLeft);
    if Sum(ts, PushesLeft) > 0 {
      var k := SumPositive(ts, PushesLeft);
      CountPositive(ts, LiveProducer, k);
    }
    if Sum(ts, PopsLeft) > 0 {
      var k := SumPositive(ts, PopsLeft);
      CountPositive(ts, LiveConsumer, k);
    }
  }

  /** A sleeper still has an operation to do. */
  lemma SleeperHasWork(ts: seq<Thread>)
    requires forall t :: 0 <= t < |ts| ==> ts[t].left.Items? && Budgeted(ts[t])
    ensures Count(ts, D.ProducerAsleep) > 0 ==> Sum(ts, PushesLeft) > 0
    ensures Count(ts, D.ConsumerAsleep) > 0 ==> Sum(ts, PopsLeft) > 0
  {
    if Count(ts, D.ProducerAsleep) > 0 {
      var k := CountWitness(ts, D.ProducerAsleep);
      SumBounds(ts, PushesLeft, k);
    }
    if Count(ts, D.ConsumerAsleep) > 0 {
      var k := CountWitness(ts, D.ConsumerAsleep);
      SumBounds(ts, PopsLeft, k);
    }
  }

  /** Nothing but a spurious wakeup can happen. */
  ghost predicate Stuck(s: State) {
    !exists s' :: Quiet(s, s')
  }

  lemma StuckMeansFinished(s: State)
    requires ServedState(s) && Stuck(s)
    ensures AllFinished(s)
  {
    StuckIffAllAsleep(s);
    var ts := s.threads;
    assert forall t :: 0 <= t < |ts| ==> Stopped(ts[t]);
    assert s.owner == None;
    StoppedCounts(ts);
    NothingLeft(ts);
    SleeperHasWork(ts);
    if t :| 0 <= t < |ts| && IsAsleep(ts[t]) {
      D.AwakeOrAsleepCounts(ts, t);
    }
  }

  // Termination without spurious wakeups.

  function Rank(pc: Pc): int {
    match pc
    case Outside => 4
    case Woken => 4
    case Testing => 3
    case Signalling => 10
    case Unlocking => 5
    case Asleep => 0
    case Finished => 0
  }

  function Work(th: Thread): int { 8 * LeftOf(th) + Rank(th.pc) }

  function Measure(s: State): nat {
    if Sum(s.threads, Work) >= 0 then Sum(s.threads, Work) else 0
  }

  lemma {:induction false} SignalLowersWork(s: State, t: nat, woken: Option<nat>)
    requires s.mem.Valid() && Enabled(s, Signal(t, woken))
    ensures Sum(Next(s, Signal(t, woken)).threads, Work) < Sum(s.threads, Work)
  {
    var ts := s.threads;
    if woken.Some? {
      var us := SetPc(ts, woken.value, Woken);
      SumUpdate(ts, woken.value, ts[woken.value].(pc := Woken), Work);
      SumUpdate(us, t, us[t].(pc := Unlocking), Work);
    } else {
      SumUpdate(ts, t, ts[t].(pc := Unlocking), Work);
    }
  }

  lemma {:induction false} QuietStepLowersWork(s: State, a: Action)
    requires Itemised(s) && Enabled(s, a) && !a.Spurious?
    ensures Sum(Next(s, a).threads, Work) < Sum(s.threads, Work)
  {
    if a.Signal? {
      SignalLowersWork(s, a.t, a.woken);
    } else {
      SumUpdate(s.threads, a.t, Next(s, a).threads[a.t], Work);
    }
  }

  lemma QuietStepLowersMeasure(s: State, a: Action)
    requires Itemised(s) && Enabled(s, a) && !a.Spurious?
    ensures Itemised(Next(s, a)) && Measure(Next(s, a)) < Measure(s)
  {
    QuietStepLowersWork(s, a);
    StepKeepsInv(s, a);
    StepKeepsBudgets(s, a);
    SumNonNegative(s.threads, Work);
    SumNonNegative(Next(s, a).threads, Work);
  }

  /** At most K threads on each side, or one thread on a side and fewer than 2K on the
      other. */
  predicate Roomy(g: C.Config) {
    || (g.p <= g.K && g.c <= g.K)
    || (g.p <= 1 && g.c < 2 * g.K)
    || (g.c <= 1 && g.p < 2 * g.K)
  }

  /** A start on a stack of at least one cell, with these numbers of threads and a finite
      budget for each. */
  ghost predicate Starts(s: State, g: C.Config) {
    Initial(s) && D.Setting(s) == g && g.K >= 1 && forall t :: 0 <= t < |s.threads| ==> s.threads[t].left.Items?
  }

  lemma InitiallyServed(s: State, g: C.Config)
    requires Starts(s, g) && Roomy(g) && Feasible(s)
    ensures ServedState(s)
  {
    InitialInv(s);
    D.NobodyAsleep(s.threads);
    CountImplies(s.threads, LiveProducer, D.IsProducer);
    CountImplies(s.threads, LiveConsumer, D.IsConsumer);
  }

  /** With that many threads, whatever their budgets as long as they can be spent: a
      reachable state in which nothing but a spurious wakeup can happen has all threads
      finished, and what was not popped is still stored. */
  lemma StuckOnlyWhenDone(s0: State, g: C.Config, s: State)
    requires Starts(s0, g) && Roomy(g) && Feasible(s0) && Runs.Reaches(Step, s0, s)
    ensures Stuck(s) <==> AllFinished(s)
    ensures AllFinished(s) ==> s.mem.index == Sum(s0.threads, PushesLeft) - Sum(s0.threads, PopsLeft)
    ensures AllFinished(s) && s.mem.index == 0 ==> Pushed(s.log) == Popped(s.log)
  {
    InitiallyServed(s0, g);
    var served := x => ServedState(x) && Leftover(x) == Leftover(s0);
    forall x, y | served(x) && Step(x, y) ensures served(y) {
      var a :| Enabled(x, a) && y == Next(x, a);
      StepKeepsServed(x, a);
      StepKeepsLeftover(x, a);
    }
    Runs.InvariantOfReach(Step, served, s0, s);
    RefinesLifoStack(s0, s);
    StuckIffAllAsleep(s);
    if Stuck(s) {
      StuckMeansFinished(s);
    }
    if AllFinished(s) {
      FinishedLeftover(s);
    }
  }

  lemma {:induction false} FinishedLeftover(s: State)
    requires Itemised(s) && AllFinished(s)
    ensures s.mem.index == Leftover(s)
  {
    SumAllZero(s.threads, PushesLeft);
    SumAllZero(s.threads, PopsLeft);
  }

  /** Without spurious wakeups no run is longer than the work budgeted at the start,
      so every such run comes to an end, however many threads there are. */
  lemma RunsAreBounded(run: seq<State>)
    requires Runs.IsRun(Quiet, run) && Itemised(run[0])
    ensures |run| - 1 + Measure(run[|run| - 1]) <= Measure(run[0])
  {
    forall s, s' | Itemised(s) && Quiet(s, s') ensures Itemised(s') && Measure(s') < Measure(s) {
      var a :| Enabled(s, a) && !a.Spurious? && s' == Next(s, a);
      QuietStepLowersMeasure(s, a);
    }
    Runs.RunIsBounded(Quiet, Itemised, Measure, run);
  }

  lemma {:induction false} LeftoverStays(s0: State, s: State)
    requires Itemised(s0) && Runs.Reaches(Step, s0, s)
    ensures Itemised(s) && Leftover(s) == Leftover(s0) && |s.mem.buffer| == |s0.mem.buffer|
  {
    var keeps := x => Itemised(x) && Leftover(x) == Leftover(s0) && |x.mem.buffer| == |s0.mem.buffer|;
    forall x, y | keeps(x) && Step(x, y) ensures keeps(y) {
      var a :| Enabled(x, a) && y == Next(x, a);
      StepKeepsInv(x, a);
      StepKeepsBudgets(x, a);
      StepKeepsLeftover(x, a);
    }
    Runs.InvariantOfReach(Step, keeps, s0, s);
  }

  /** Without spurious wakeups every state comes to an end of its run. */
  lemma {:induction false} StuckIsReachable(s0: State) returns (s: State)
    requires Itemised(s0)
    ensures Runs.Reaches(Step, s0, s) && Stuck(s)
  {
    forall x | Itemised(x) && !Stuck(x)
      ensures exists y :: Runs.Reaches(Quiet, x, y) && Itemised(y) && Measure(y) < Measure(x)
    {
      var y :| Quiet(x, y);
      var a :| Enabled(x, a) && !a.Spurious? && y == Next(x, a);
      QuietStepLowersMeasure(x, a);
      Runs.ReachesOne(Quiet, x, y);
    }
    Runs.GoalIsReachable(Quiet, Itemised, Stuck, Measure, s0);
    s :| Runs.Reaches(Quiet, s0, s) && Itemised(s) && Stuck(s);
    Runs.ReachesMore(Quiet, Step, s0, s);
  }

  /** The exact budgets, for that many threads: whenever nothing but a spurious wakeup can
      happen all threads have finished, if and only if there are pushes for all pops and
      the capacity holds what they leave. */
  lemma AllFinishIff(s0: State, g: C.Config)
    requires Starts(s0, g) && Roomy(g)
    ensures (forall s :: Runs.Reaches(Step, s0, s) && Stuck(s) ==> AllFinished(s)) <==>
            Sum(s0.threads, PopsLeft) <= Sum(s0.threads, PushesLeft) <= Sum(s0.threads, PopsLeft) + g.K
  {
    InitialInv(s0);
    if Feasible(s0) {
      forall s | Runs.Reaches(Step, s0, s) && Stuck(s) ensures AllFinished(s) {
        StuckOnlyWhenDone(s0, g, s);
      }
    } else {
      var s := StuckIsReachable(s0);
      LeftoverStays(s0, s);
      if AllFinished(s) {
        FinishedLeftover(s);
      }
    }
  }

  /** One producer and one consumer of m operations each, over any stack that holds
      at least one item, as the test program starts them. */
  lemma TestProgramIsBalanced(s0: State, m: nat)
    requires |s0.mem.buffer| >= 1 && |s0.threads| == 2 && Initial(s0)
    requires s0.threads[0].role == Producer && s0.threads[0].left == Items(m)
    requires s0.threads[1].role == Consumer && s0.threads[1].left == Items(m)
    ensures Starts(s0, C.Config(|s0.mem.buffer|, 1, 1)) && Roomy(C.Config(|s0.mem.buffer|, 1, 1))
    ensures Feasible(s0) && Sum(s0.threads, PushesLeft) == Sum(s0.threads, PopsLeft) == m
  {
    var ts := s0.threads;
    assert ts == [ts[0], ts[1]];
    SumOfTwo(ts[0], ts[1], PushesLeft);
    SumOfTwo(ts[0], ts[1], PopsLeft);
    CountOfTwo(ts[0], ts[1], D.IsProducer);
    CountOfTwo(ts[0], ts[1], D.IsConsumer);
  }
}
