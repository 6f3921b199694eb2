/** How the runs of the broker system end: within a bounded number of steps, and exactly
    when with all tasks closed. */
module BrokerProgress {
  import opened BrokerCore
  import opened BrokerSystem
  import opened BrokerSafety
  import opened BrokerResults
  import opened Sums
  import Runs

  // Termination.

  function Load(wk: Worker): int {
    (if wk.pc == Starting then 3 else 0) + 4 * |wk.inbox| + (if wk.pc.Working? then 3 else 0) + 2 * |wk.outbox|
  }

  function Steps(s: System): int {
    7 * (s.g.D - s.sent) + 6 * |s.front| + 4 * |s.broker.pending| + Sum(s.workers, Load)
    - (if s.phase == AtPoll then 0 else 1)
  }

  function Measure(s: System): nat {
    if Steps(s) >= 0 then Steps(s) else 0
  }

  lemma StepsNonNegative(s: System)
    requires Inv(s)
    ensures Steps(s) >= 0
  {
    SumNonNegative(s.workers, Load);
    if s.phase == GotReport {
      var w :| 0 <= w < |s.workers| && s.workers[w].outbox != [];
      SumBounds(s.workers, Load, w);
    }
  }

  lemma TaskLowersSteps(s: System, now: int, s': System)
    requires AfterTask(s, now, s') && s.phase == GotTask
    ensures Steps(s') < Steps(s)
  {
    if s.broker.workers != [] {
      SumUpdate(s.workers, s.broker.workers[0] - 1, Worker(Waiting, [Arrived(s)], []), Load);
    }
  }

  lemma ReportLowersSteps(s: System, w: nat, now: int, s': System)
    requires AfterReport(s, w, now, s') && s.phase == GotReport
    ensures Steps(s') < Steps(s)
  {
    if s.workers[w].outbox[0].Done? && s.broker.pending != [] {
      SumUpdate(s.workers, w, Worker(Waiting, [s.broker.pending[0]], []), Load);
    } else {
      SumUpdate(s.workers, w, Worker(Waiting, [], []), Load);
    }
  }

  lemma StepLowersMeasure(s: System, a: Action)
    requires Inv(s) && Enabled(s, a)
    ensures Measure(Next(s, a)) < Measure(s)
  {
    StepKeepsInv(s, a);
    StepsNonNegative(s);
    StepsNonNegative(Next(s, a));
    match a
    case Produce(now) =>
    case Poll =>
    case Task(now) => TaskCases(s, now); TaskLowersSteps(s, now, Next(s, a));
    case Report(w, now) => ReportCases(s, w, now); ReportLowersSteps(s, w, now, Next(s, a));
    case _ =>
      LocalAction(s, a);
      SumUpdate(s.workers, a.w, Next(s, a).workers[a.w], Load);
  }

  lemma {:induction false} InitialLoad(ws: seq<Worker>)
    requires forall w :: 0 <= w < |ws| ==> ws[w] == Worker(Starting, [], [])
    ensures Sum(ws, Load) == 3 * |ws|
  {
    if ws != [] {
      InitialLoad(ws[1..]);
    }
  }

  /** Every run of the whole system ends: with D tasks and W workers it has at most
      7D + 3W steps, polls included. */
  lemma RunsAreBounded(run: seq<System>)
    requires Runs.IsRun(Step, run) && Initial(run[0])
    ensures |run| - 1 <= 7 * run[0].g.D + 3 * |run[0].workers|
  {
    InitialInv(run[0]);
    InitialLoad(run[0].workers);
    forall s, s' | Inv(s) && Step(s, s') ensures Inv(s') && Measure(s') < Measure(s) {
      var a :| Enabled(s, a) && s' == Next(s, a);
      StepKeepsInv(s, a);
      StepLowersMeasure(s, a);
    }
    Runs.RunIsBounded(Step, Inv, Measure, run);
  }

  // Progress.

  ghost predicate Stuck(s: System) {
    !exists s' :: Step(s, s')
  }

  predicate Complete(s: System) {
    s.broker.processed + s.broker.dropped == s.g.D
  }

  /** Once a task was dispatched its worker stays registered, and tasks are pending only
      while some worker is busy. */
  ghost predicate Progressing(s: System) {
    && Inv(s)
    && (s.dispatched == [] || s.broker.pending == [] || Count(s.workers, Busy) > 0)
    && (s.dispatched != [] ==> s.broker.workers != [] || Count(s.workers, Busy) > 0)
  }

  lemma ProgressingIsPreserved()
    ensures Runs.Preserves(Step, Progressing)
  {
    forall s, s' | Progressing(s) && Step(s, s') ensures Progressing(s') {
      var a :| Enabled(s, a) && s' == Next(s, a);
      StepKeepsProgressing(s, a);
    }
  }

  lemma StepKeepsProgressing(s: System, a: Action)
    requires Progressing(s) && Enabled(s, a)
    ensures Progressing(Next(s, a))
  {
    StepKeepsInv(s, a);
    match a
    case Produce(now) =>
    case Poll =>
    case Task(now) => TaskCases(s, now); BusyAfterTask(s, now, Next(s, a));
    case Report(w, now) =>
      ReportCases(s, w, now);
      BusyAfterReport(s, w, now, Next(s, a));
      if s.workers[w].outbox[0].Done? {
        CountPositive(s.workers, Busy, w);
      }
    case _ =>
      LocalAction(s, a);
      CountUpdate(s.workers, a.w, Next(s, a).workers[a.w], Busy);
  }

  /** In every reachable state: nothing was ever dispatched, or nothing is pending, or some
      worker is busy and its DONE will look at the pending queue. */
  lemma PendingMeansBusy(s0: System, s: System)
    requires Initial(s0) && Runs.Reaches(Step, s0, s)
    ensures s.dispatched == [] || s.broker.pending == [] || exists w :: 0 <= w < |s.workers| && Busy(s.workers[w])
  {
    InitialInv(s0);
    ProgressingIsPreserved();
    Runs.InvariantOfReach(Step, Progressing, s0, s);
    if Count(s.workers, Busy) > 0 {
      var w := CountWitness(s.workers, Busy);
    }
  }

  lemma StuckDisables(s: System, a: Action)
    requires Inv(s) && Stuck(s)
    ensures !Enabled(s, a)
  {
    if Enabled(s, a) {
      assert Step(s, Next(s, a));
    }
  }

  /** When nothing can happen and tasks are still open, all of them have arrived, no
      worker is busy, and what is open is pending. */
  lemma StuckOpen(s: System)
    requires Inv(s) && Stuck(s) && Open(s.g, s.broker)
    ensures Count(s.workers, Busy) == 0 && s.broker.pending != [] && Arrived(s) == s.g.D
  {
    StuckDisables(s, Produce(s.clock));
    StuckDisables(s, Task(s.clock));
    StuckDisables(s, Poll);
    forall w | 0 <= w < |s.workers| ensures s.workers[w].outbox == [] && !Busy(s.workers[w]) {
      StuckDisables(s, Report(w, s.clock));
      StuckDisables(s, Finish(w));
      StuckDisables(s, Receive(w));
      assert WorkerOk(s.workers[w]);
    }
    CountNone(s.workers, Busy);
  }

  /** A reachable state in which nothing can happen has all its tasks closed, except
      exactly when tasks are pending and none was ever dispatched. */
  lemma StuckIncompleteIff(s0: System, s: System)
    requires Initial(s0) && Runs.Reaches(Step, s0, s) && Stuck(s)
    ensures !Complete(s) <==> s.broker.pending != [] && s.dispatched == []
  {
    InitialInv(s0);
    ProgressingIsPreserved();
    Runs.InvariantOfReach(Step, Progressing, s0, s);
    if Open(s.g, s.broker) {
      StuckOpen(s);
    } else {
      StateAtExit(s0, s);
    }
  }

  /** A task was dispatched, or a worker is idle and n tasks have arrived. */
  ghost predicate Started(n: int, s: System) {
    Progressing(s) && ((s.broker.workers != [] && Arrived(s) == n) || s.dispatched != [])
  }

  lemma {:induction false} StepKeepsStarted(n: int, s: System, a: Action)
    requires Started(n, s) && Enabled(s, a)
    ensures Started(n, Next(s, a))
  {
    StepKeepsProgressing(s, a);
    if a.Task? {
      TaskCases(s, a.now);
    } else if a.Report? {
      ReportCases(s, a.w, a.now);
    } else if !a.Produce? && !a.Poll? {
      LocalAction(s, a);
    }
  }

  /** A worker idle while a task is still to come starts the dispatching. */
  predicate IdleBeforeLast(s: System) {
    s.broker.workers != [] && Arrived(s) < s.g.D
  }

  /** Once a worker was idle before the last task arrived, the system cannot get stuck
      before all tasks are closed, whatever READYs later find pending. */
  lemma ReadyFirstCompletes(s0: System, m: System, s: System)
    requires Initial(s0) && Runs.Reaches(Step, s0, m) && IdleBeforeLast(m)
    requires Runs.Reaches(Step, m, s) && Stuck(s)
    ensures Complete(s)
  {
    var n := Arrived(m);
    InitialInv(s0);
    ProgressingIsPreserved();
    Runs.InvariantOfReach(Step, Progressing, s0, m);
    var started := x => Started(n, x);
    forall x, y | started(x) && Step(x, y) ensures started(y) {
      var a :| Enabled(x, a) && y == Next(x, a);
      StepKeepsStarted(n, x, a);
    }
    Runs.InvariantOfReach(Step, started, m, s);
    Runs.ReachesJoin(Step, s0, m, s);
    StuckIncompleteIff(s0, s);
    SameSetup(s0, m);
    SameSetup(s0, s);
    if !Complete(s) {
      StuckOpen(s);
    }
  }

  /** Nothing was dispatched, and every task that was not dropped is pending. */
  ghost predicate Undispatched(s: System) {
    && Inv(s) && s.dispatched == [] && s.done == [] && Count(s.workers, Busy) == 0
    && (Arrived(s) > 0 ==> s.broker.pending != [])
  }

  lemma {:induction false} StepKeepsUndispatched(s: System, a: Action)
    requires Undispatched(s) && Enabled(s, a) && s.g.Q >= 1 && !IdleBeforeLast(s)
    ensures Undispatched(Next(s, a))
  {
    StepKeepsInv(s, a);
    match a
    case Produce(now) =>
    case Poll =>
    case Task(now) => TaskCases(s, now);
    case Report(w, now) =>
      ReportCases(s, w, now);
      BusyAfterReport(s, w, now, Next(s, a));
      if s.workers[w].outbox[0].Done? {
        CountPositive(s.workers, Busy, w);
      }
    case _ =>
      LocalAction(s, a);
      CountUpdate(s.workers, a.w, Next(s, a).workers[a.w], Busy);
  }

  lemma {:induction false} NeverIdleNeverDispatched(run: seq<System>, k: nat)
    requires Runs.IsRun(Step, run) && Initial(run[0]) && k < |run| && run[0].g.Q >= 1
    requires forall i :: 0 <= i < k ==> !IdleBeforeLast(run[i])
    ensures Undispatched(run[k]) && run[k].g == run[0].g
  {
    if k == 0 {
      InitialInv(run[0]);
      CountNone(run[0].workers, Busy);
    } else {
      NeverIdleNeverDispatched(run, k - 1);
      assert Step(run[k - 1], run[k - 1 + 1]);
      var a :| Enabled(run[k - 1], a) && run[k] == Next(run[k - 1], a);
      StepKeepsUndispatched(run[k - 1], a);
    }
  }

  /** The exact condition for a run: one that can go no further has closed all its tasks if
      and only if some worker was idle on it before the last task arrived, unless there is
      no task or no room to pend one. */
  lemma CompletesIff(run: seq<System>)
    requires Runs.IsRun(Step, run) && Initial(run[0]) && Stuck(run[|run| - 1])
    ensures Complete(run[|run| - 1]) <==>
              run[0].g.D == 0 || run[0].g.Q < 1 || exists i :: 0 <= i < |run| && IdleBeforeLast(run[i])
  {
    var s0, s, n := run[0], run[|run| - 1], |run| - 1;
    Runs.ReachesAlong(Step, run, 0, n);
    SameSetup(s0, s);
    StuckIncompleteIff(s0, s);
    ReachableInv(s0, s);
    if i :| 0 <= i < |run| && IdleBeforeLast(run[i]) {
      Runs.ReachesAlong(Step, run, 0, i);
      Runs.ReachesAlong(Step, run, i, n);
      ReadyFirstCompletes(s0, run[i], s);
    } else if s0.g.D > 0 && s0.g.Q >= 1 {
      NeverIdleNeverDispatched(run, n);
    }
  }

  // The stuck run: READY does not look at the pending queue.

  /** k tasks handled, no worker started. */
  ghost predicate AllHandled(s: System, k: nat) {
    Undispatched(s) && s.sent == k && s.front == [] && s.phase == AtPoll && s.broker.workers == []
  }

  lemma ThenUndispatched(s0: System, s: System, a: Action) returns (s': System)
    requires Runs.Reaches(Step, s0, s) && Undispatched(s) && Enabled(s, a) && s.g.Q >= 1 && s.broker.workers == []
    ensures s' == Next(s, a) && Runs.Reaches(Step, s0, s') && Undispatched(s')
  {
    s' := Next(s, a);
    StepKeepsUndispatched(s, a);
    assert Step(s, s');
    Runs.ReachesThen(Step, s0, s, s');
  }

  lemma HandleOne(s0: System, s: System, k: nat) returns (s': System)
    requires Runs.Reaches(Step, s0, s) && AllHandled(s, k) && k < s.g.D && s.g.Q >= 1
    ensures Runs.Reaches(Step, s0, s') && AllHandled(s', k + 1) && s'.g == s.g
  {
    var s1 := ThenUndispatched(s0, s, Produce(s.clock));
    var s2 := ThenUndispatched(s0, s1, Poll);
    TaskCases(s2, s.clock);
    s' := ThenUndispatched(s0, s2, Task(s.clock));
  }

  lemma {:induction false} HandleAll(s0: System, k: nat) returns (s: System)
    requires Initial(s0) && k <= s0.g.D && s0.g.Q >= 1
    ensures Runs.Reaches(Step, s0, s) && AllHandled(s, k) && s.g == s0.g
  {
    if k == 0 {
      s := s0;
      InitialInv(s0);
      Runs.ReachesSelf(Step, s0);
      CountNone(s0.workers, Busy);
    } else {
      var r := HandleAll(s0, k - 1);
      s := HandleOne(s0, r, k - 1);
    }
  }

  /** All tasks have arrived, and none was dispatched. */
  ghost predicate Stranded(s: System) {
    Undispatched(s) && Arrived(s) == s.g.D >= 1 && s.g.Q >= 1
  }

  lemma StrandedRun(s0: System) returns (s: System)
    requires Initial(s0) && s0.g.D >= 1 && s0.g.Q >= 1
    ensures Runs.Reaches(Step, s0, s) && Stuck(s) && !Complete(s)
  {
    var m := HandleAll(s0, s0.g.D);
    forall x | Stranded(x) && !Stuck(x)
      ensures exists y :: Runs.Reaches(Step, x, y) && Stranded(y) && Measure(y) < Measure(x)
    {
      var y :| Step(x, y);
      var a :| Enabled(x, a) && y == Next(x, a);
      StepKeepsUndispatched(x, a);
      StepLowersMeasure(x, a);
      Runs.ReachesOne(Step, x, y);
    }
    Runs.GoalIsReachable(Step, Stranded, Stuck, Measure, m);
    s :| Runs.Reaches(Step, m, s) && Stranded(s) && Stuck(s);
    Runs.ReachesJoin(Step, s0, m, s);
  }

  /** Exactly when the system can get stuck with tasks left: there is a task and room to
      pend one.  The number of workers does not matter. */
  lemma CanStrandIff(s0: System)
    requires Initial(s0)
    ensures (exists s :: Runs.Reaches(Step, s0, s) && Stuck(s) && !Complete(s)) <==> s0.g.D >= 1 && s0.g.Q >= 1
  {
    if s0.g.D >= 1 && s0.g.Q >= 1 {
      var s := StrandedRun(s0);
    }
    forall s | Runs.Reaches(Step, s0, s) && Stuck(s) && !Complete(s) ensures s0.g.D >= 1 && s0.g.Q >= 1 {
      ReachableInv(s0, s);
      SameSetup(s0, s);
      StuckIncompleteIff(s0, s);
    }
  }

  lemma SameSetup(s0: System, s: System)
    requires Initial(s0) && Runs.Reaches(Step, s0, s)
    ensures s.g == s0.g
  {
    var inv := (x: System) => x.g == s0.g;
    Runs.InvariantOfReach(Step, inv, s0, s);
  }
}
