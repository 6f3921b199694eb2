/** What holds of every run of the broker system: conservation, at-most-once dispatch,
    the state at loop exit, and the order of dispatch. */
module BrokerResults {
  import opened BrokerCore
  import opened BrokerSystem
  import opened BrokerSafety
  import opened Sums
  import Runs

  lemma ReachableInv(s0: System, s: System)
    requires Initial(s0) && Runs.Reaches(Step, s0, s)
    ensures Inv(s)
  {
    InitialInv(s0);
    forall s, s' | Inv(s) && Step(s, s') ensures Inv(s') {
      var a :| Enabled(s, a) && s' == Next(s, a);
      StepKeepsInv(s, a);
    }
    Runs.InvariantOfReach(Step, Inv, s0, s);
  }

  // Conservation.

  lemma {:induction false} OccursInterval(xs: seq<int>, lo: int, t: int)
    requires forall i :: 0 <= i < |xs| ==> xs[i] == lo + i
    ensures Occurs(xs, t) == if lo <= t < lo + |xs| then 1 else 0
  {
    if xs != [] {
      OccursInterval(xs[..|xs| - 1], lo, t);
    }
  }

  /** In every reachable state each task is in exactly one place: not yet sent, in the
      producer's channel, pending, with a worker, processed or dropped. */
  lemma EveryTaskInOnePlace(s0: System, s: System, t: int)
    requires Initial(s0) && Runs.Reaches(Step, s0, s)
    ensures (if s.sent <= t < s.g.D then 1 else 0) + Occurs(s.front, t) + Occurs(s.broker.pending, t)
            + Held(s.workers, t) + Occurs(s.done, t) + Occurs(s.dropped, t) == if 0 <= t < s.g.D then 1 else 0
  {
    ReachableInv(s0, s);
    assert Balanced(TallyOf(s, t), 0 <= t < Arrived(s));
    OccursInterval(s.front, Arrived(s), t);
  }

  lemma {:induction false} OccursNever(xs: seq<int>, v: int)
    requires v !in xs
    ensures Occurs(xs, v) == 0
  {
    if xs != [] {
      OccursNever(xs[..|xs| - 1], v);
    }
  }

  lemma {:induction false} OccursOnce(xs: seq<int>, i: nat)
    requires i < |xs| && forall j, k :: 0 <= j < k < |xs| ==> xs[j] != xs[k]
    ensures Occurs(xs, xs[i]) == 1
  {
    var last := |xs| - 1;
    if i < last {
      OccursOnce(xs[..last], i);
    } else {
      OccursNever(xs[..last], xs[i]);
    }
  }

  /** Each worker is unregistered, in the idle queue exactly once, or busy with exactly
      one task, which no other worker has and which is neither pending nor closed. */
  lemma EveryWorkerInOnePlace(s0: System, s: System, w: nat)
    requires Initial(s0) && Runs.Reaches(Step, s0, s) && w < |s.workers|
    ensures var wk := s.workers[w];
            && Occurs(s.broker.workers, w + 1) == (if Free(wk) then 1 else 0)
            && (Unregistered(wk) || Free(wk) || HasTask(wk, TaskOf(wk)))
            && (Busy(wk) ==> forall v :: 0 <= v < |s.workers| && v != w ==> Holds(s.workers[v], TaskOf(wk)) == 0)
            && (Busy(wk) ==> TaskOf(wk) !in s.broker.pending && TaskOf(wk) !in s.done && TaskOf(wk) !in s.dropped)
  {
    ReachableInv(s0, s);
    var wk := s.workers[w];
    assert WorkerOk(wk);
    if Free(wk) {
      var i :| 0 <= i < |s.broker.workers| && s.broker.workers[i] == w + 1;
      OccursOnce(s.broker.workers, i);
    } else {
      OccursNever(s.broker.workers, w + 1);
    }
    if Busy(wk) {
      var t := TaskOf(wk);
      assert Balanced(TallyOf(s, t), 0 <= t < Arrived(s));
      forall v | 0 <= v < |s.workers| && v != w ensures Holds(s.workers[v], t) == 0 {
        HeldByBoth(s.workers, w, v, t);
        HoldsOne(wk, t);
      }
      HeldUpdate(s.workers, w, wk, t);
      HoldsOne(wk, t);
      if i :| 0 <= i < |s.broker.pending| && s.broker.pending[i] == t { OccursAt(s.broker.pending, i); }
      if i :| 0 <= i < |s.done| && s.done[i] == t { OccursAt(s.done, i); }
      if i :| 0 <= i < |s.dropped| && s.dropped[i] == t { OccursAt(s.dropped, i); }
    }
  }

  lemma HeldByBoth(ws: seq<Worker>, v: nat, w: nat, t: int)
    requires v < |ws| && w < |ws| && v != w
    ensures Held(ws, t) >= Holds(ws[v], t) + Holds(ws[w], t)
  {
    var gone := Worker(Waiting, [], []);
    HeldUpdate(ws, v, gone, t);
    HeldUpdate(ws[v := gone], w, gone, t);
  }

  /** No task is ever dispatched twice, whatever the interleaving. */
  lemma NoTaskDispatchedTwice(s0: System, s: System, i: nat, j: nat)
    requires Initial(s0) && Runs.Reaches(Step, s0, s) && i < j < |s.dispatched|
    ensures s.dispatched[i] != s.dispatched[j] && 0 <= s.dispatched[i] < s.g.D
  {
    ReachableInv(s0, s);
    var t := s.dispatched[i];
    assert Balanced(TallyOf(s, t), 0 <= t < Arrived(s));
    OccursAt(s.dispatched, i);
    if s.dispatched[j] == t {
      OccursTwice(s.dispatched, i, j);
    }
  }

  /** When the loop exits every task is closed, nothing is pending or in flight, and
      every processed task gave a latency sample. */
  lemma StateAtExit(s0: System, s: System)
    requires Initial(s0) && Runs.Reaches(Step, s0, s) && !Open(s.g, s.broker)
    ensures s.broker.processed + s.broker.dropped == s.g.D
    ensures s.sent == s.g.D && s.front == [] && s.broker.pending == [] && s.broker.pendingCount == 0
    ensures forall w :: 0 <= w < |s.workers| ==> !Busy(s.workers[w])
    ensures s.broker.samples == s.broker.processed && s.broker.totalLatency >= 0
  {
    ReachableInv(s0, s);
    if w :| 0 <= w < |s.workers| && Busy(s.workers[w]) {
      CountPositive(s.workers, Busy, w);
    }
  }

  // The order of dispatch.

  predicate Increasing(xs: seq<int>) {
    forall i, j :: 0 <= i < j < |xs| ==> xs[i] < xs[j]
  }

  /** As long as no READY was handled with tasks pending, workers are never idle beside
      pending tasks, and tasks leave in the order of their ids. */
  ghost predicate InOrder(s: System) {
    && Inv(s)
    && (!s.lateReady ==> (s.broker.workers == [] || s.broker.pending == [])
                         && Increasing(s.dispatched + s.broker.pending + [Arrived(s)]))
  }

  lemma IncreasingSnoc(xs: seq<int>, id: int)
    requires Increasing(xs + [id])
    ensures Increasing(xs + [id] + [id + 1]) && Increasing(xs + [id + 1])
  {
    var ys, zs := xs + [id], xs + [id + 1];
    forall i, j | 0 <= i < j < |zs| ensures zs[i] < zs[j] {
      assert ys[i] < ys[j];
    }
    var us := ys + [id + 1];
    forall i, j | 0 <= i < j < |us| ensures us[i] < us[j] {
      if j < |ys| {
        assert ys[i] < ys[j];
      } else if i < |xs| {
        assert ys[i] < ys[|xs|];
      }
    }
  }

  lemma StepKeepsOrder(s: System, a: Action)
    requires InOrder(s) && Enabled(s, a)
    ensures InOrder(Next(s, a)) && (s.lateReady ==> Next(s, a).lateReady)
  {
    StepKeepsInv(s, a);
    match a
    case Produce(now) =>
    case Poll =>
    case Task(now) =>
      TaskCases(s, now);
      if !s.lateReady {
        TaskKeepsOrder(s, now, Next(s, a));
      }
    case Report(w, now) =>
      ReportCases(s, w, now);
      ReportKeepsOrder(s, w, now, Next(s, a));
    case _ => LocalAction(s, a);
  }

  lemma ReportKeepsOrder(s: System, w: nat, now: int, s': System)
    requires AfterReport(s, w, now, s')
    ensures s.lateReady ==> s'.lateReady
    ensures !s'.lateReady && (s.broker.workers == [] || s.broker.pending == []) ==>
              s'.broker.workers == [] || s'.broker.pending == []
    ensures s'.dispatched + s'.broker.pending == s.dispatched + s.broker.pending && Arrived(s') == Arrived(s)
  {
    if s.broker.pending != [] {
      assert s.broker.pending == [s.broker.pending[0]] + s.broker.pending[1..];
    }
  }

  lemma TaskKeepsOrder(s: System, now: int, s': System)
    requires AfterTask(s, now, s')
    requires s.broker.workers == [] || s.broker.pending == []
    requires Increasing(s.dispatched + s.broker.pending + [Arrived(s)])
    ensures s'.broker.workers == [] || s'.broker.pending == []
    ensures Increasing(s'.dispatched + s'.broker.pending + [Arrived(s')])
  {
    var id := Arrived(s);
    var xs := s.dispatched + s.broker.pending;
    IncreasingSnoc(xs, id);
    assert xs + [id] == s.dispatched + (s.broker.pending + [id]);
    if s.broker.workers != [] {
      assert s'.dispatched + s'.broker.pending == xs + [id];
    }
  }

  lemma AnyStepKeepsOrder(s: System, s': System)
    requires InOrder(s) && Step(s, s')
    ensures InOrder(s') && (s.lateReady ==> s'.lateReady)
    ensures !s.lateReady && s'.lateReady ==> IdleBesidePending(s')
  {
    var a :| Enabled(s, a) && s' == Next(s, a);
    StepKeepsOrder(s, a);
    if !s.lateReady && s'.lateReady {
      FlagStep(s, a);
    }
  }

  lemma OrderIsPreserved()
    ensures Runs.Preserves(Step, InOrder)
  {
    forall s, s' | InOrder(s) && Step(s, s') ensures InOrder(s') {
      AnyStepKeepsOrder(s, s');
    }
  }

  /** If no READY was handled while tasks were pending, tasks were dispatched in strictly
      increasing id order, across the direct path and the pending queue. */
  lemma DispatchedInOrder(s0: System, s: System)
    requires Initial(s0) && Runs.Reaches(Step, s0, s) && !s.lateReady
    ensures Increasing(s.dispatched)
    ensures s.broker.workers == [] || s.broker.pending == []
  {
    InitialInv(s0);
    OrderIsPreserved();
    Runs.InvariantOfReach(Step, InOrder, s0, s);
    var all := s.dispatched + s.broker.pending + [Arrived(s)];
    forall i, j | 0 <= i < j < |s.dispatched| ensures s.dispatched[i] < s.dispatched[j] {
      assert all[i] < all[j];
    }
  }

  predicate IdleBesidePending(s: System) {
    s.broker.workers != [] && s.broker.pending != []
  }

  ghost predicate Late(s: System) {
    InOrder(s) && s.lateReady
  }

  predicate IsLate(s: System) { s.lateReady }

  /** The exact condition: a run has a state with idle workers beside pending tasks if
      and only if on it a READY was handled while tasks were pending. */
  lemma IdleBesidePendingIff(run: seq<System>)
    requires Runs.IsRun(Step, run) && Initial(run[0])
    ensures (exists i :: 0 <= i < |run| && IdleBesidePending(run[i])) <==> run[|run| - 1].lateReady
  {
    var last := |run| - 1;
    InitialInv(run[0]);
    OrderIsPreserved();
    if run[last].lateReady {
      var i := Runs.FirstSet(run, IsLate, last);
      Runs.InvariantOfRun(Step, InOrder, run, i);
      assert Step(run[i], run[i + 1]);
      AnyStepKeepsOrder(run[i], run[i + 1]);
    } else if i :| 0 <= i < |run| && IdleBesidePending(run[i]) {
      Runs.InvariantOfRun(Step, InOrder, run, i);
      if run[i].lateReady {
        forall x, y | Late(x) && Step(x, y) ensures Late(y) {
          AnyStepKeepsOrder(x, y);
        }
        Runs.ReachesAlong(Step, run, i, last);
        Runs.InvariantOfReach(Step, Late, run[i], run[last]);
      }
    }
  }

  lemma FlagStep(s: System, a: Action)
    requires Inv(s) && Enabled(s, a) && !s.lateReady && Next(s, a).lateReady
    ensures IdleBesidePending(Next(s, a))
  {
    if a.Report? {
      ReportCases(s, a.w, a.now);
    }
  }
}
