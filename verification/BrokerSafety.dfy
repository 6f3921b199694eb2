/** Every step of the broker system keeps its invariant, and what the invariant says
    about tasks and workers. */
module BrokerSafety {
  import opened BrokerCore
  import opened BrokerSystem
  import opened Sums

  lemma InitialInv(s: System)
    requires Initial(s)
    ensures Inv(s)
  {
    forall t ensures Balanced(TallyOf(s, t), 0 <= t < Arrived(s)) {
      InitiallyNowhere(s, t);
    }
    NothingHeld(s.workers, 0);
  }

  lemma InitiallyNowhere(s: System, t: int)
    requires Initial(s)
    ensures TallyOf(s, t) == Tally(0, 0, 0, 0, 0)
  {
    NothingHeld(s.workers, t);
  }

  lemma {:induction false} NothingHeld(ws: seq<Worker>, t: int)
    requires forall w :: 0 <= w < |ws| ==> WorkerOk(ws[w]) && !Busy(ws[w])
    ensures Held(ws, t) == 0 && Count(ws, Busy) == 0
  {
    if ws != [] {
      HoldsOne(ws[0], t);
      NothingHeld(ws[1..], t);
    }
  }

  lemma {:induction false} HeldUpdate(ws: seq<Worker>, w: nat, wk: Worker, t: int)
    requires w < |ws|
    ensures Held(ws[w := wk], t) == Held(ws, t) - Holds(ws[w], t) + Holds(wk, t) && Holds(ws[w], t) <= Held(ws, t)
  {
    if w == 0 {
      assert ws[0 := wk][1..] == ws[1..];
    } else {
      HeldUpdate(ws[1..], w - 1, wk, t);
      assert ws[w := wk][1..] == ws[1..][w - 1 := wk];
    }
  }

  function Has(wk: Worker, t: int): int {
    if Busy(wk) && TaskOf(wk) == t then 1 else 0
  }

  /** Changing one well-formed worker into another. */
  lemma SetWorker(ws: seq<Worker>, w: nat, wk: Worker, t: int)
    requires w < |ws| && WorkerOk(ws[w]) && WorkerOk(wk)
    ensures Held(ws[w := wk], t) == Held(ws, t) - Has(ws[w], t) + Has(wk, t) && Has(ws[w], t) <= Held(ws, t)
  {
    HeldUpdate(ws, w, wk, t);
    HoldsOne(ws[w], t);
    HoldsOne(wk, t);
  }

  lemma WorkerKinds(t: int)
    ensures WorkerOk(Worker(Waiting, [], [])) && !Busy(Worker(Waiting, [], []))
    ensures var wk := Worker(Waiting, [t], []); WorkerOk(wk) && Busy(wk) && TaskOf(wk) == t
    ensures var wk := Worker(Working(t), [], []); WorkerOk(wk) && Busy(wk) && TaskOf(wk) == t
    ensures var wk := Worker(Waiting, [], [Done(t)]); WorkerOk(wk) && Busy(wk) && TaskOf(wk) == t
  {
  }

  lemma FirstIdle(ws: seq<Worker>, idle: seq<int>)
    requires WorkersOk(ws, idle) && idle != []
    ensures 1 <= idle[0] <= |ws| && Free(ws[idle[0] - 1])
  {
    assert (idle[0] - 1) + 1 in idle;
  }

  // What the broker's handling of a message does to the whole system, case by case.

  function Clocked(s: System, id: nat, now: int): System
    requires Shaped(s) && s.front != [] && id < s.g.D
  {
    s.(front := s.front[1..], phase := AtPoll, clock := now,
       broker := s.broker.(receiveNs := s.broker.receiveNs[id := now]))
  }

  function DispatchDirectly(s: System, w: nat, id: nat): System
    requires s.broker.workers != [] && w < |s.workers|
  {
    s.(broker := s.broker.(workers := s.broker.workers[1..], workerCount := s.broker.workerCount - 1),
       workers := s.workers[w := Worker(Waiting, [id], [])],
       dispatched := s.dispatched + [id])
  }

  function Pend(s: System, id: int): System {
    s.(broker := s.broker.(pending := s.broker.pending + [id], pendingCount := s.broker.pendingCount + 1))
  }

  function Drop(s: System, id: int): System {
    s.(broker := s.broker.(dropped := s.broker.dropped + 1), dropped := s.dropped + [id])
  }

  /** A task handled: dispatched, pended or dropped. */
  function Handled(s: System, id: nat): System
    requires s.broker.workers != [] ==> 1 <= s.broker.workers[0] <= |s.workers|
  {
    if s.broker.workers != [] then DispatchDirectly(s, s.broker.workers[0] - 1, id)
    else if |s.broker.pending| < s.g.Q then Pend(s, id)
    else Drop(s, id)
  }

  /** s' is what handling the first task of the channel makes of s. */
  ghost predicate AfterTask(s: System, now: int, s': System) {
    && Shaped(s) && s.front != []
    && 0 <= Arrived(s) < s.g.D
    && (s.broker.workers != [] ==> 1 <= s.broker.workers[0] <= |s.workers| && Free(s.workers[s.broker.workers[0] - 1]))
    && s' == Handled(Clocked(s, Arrived(s), now), Arrived(s))
  }

  lemma {:induction false} DeliverToFree(ws: seq<Worker>, to: int, id: int)
    requires 1 <= to <= |ws| && Free(ws[to - 1])
    ensures Deliver(ws, Send(to, id)) == ws[to - 1 := Worker(Waiting, [id], [])]
  {
    assert ws[to - 1].inbox + [id] == [id];
  }

  lemma {:induction false} TaskCases(s: System, now: int)
    requires Inv(s) && Enabled(s, Task(now))
    ensures AfterTask(s, now, TaskNext(s, now))
  {
    if s.broker.workers != [] {
      FirstIdle(s.workers, s.broker.workers);
      DeliverToFree(s.workers, s.broker.workers[0], Arrived(s));
    }
  }

  /** A report handled: the worker becomes free, or gets the first pending task. */
  function Reported(s: System, w: nat, now: int): System
    requires Shaped(s) && w < |s.workers| && s.workers[w].outbox != []
  {
    match s.workers[w].outbox[0]
    case Ready => s.(phase := AtPoll, clock := now, lateReady := s.lateReady || s.broker.pending != [])
    case Done(t) =>
      s.(phase := AtPoll, clock := now, done := s.done + [t],
         broker := Sampled(s.g, s.broker, t, s.sendNs, now).(processed := s.broker.processed + 1))
  }

  function Freed(s: System, w: nat): System
    requires w < |s.workers|
  {
    s.(broker := s.broker.(workers := s.broker.workers + [w + 1], workerCount := s.broker.workerCount + 1),
       workers := s.workers[w := Worker(Waiting, [], [])])
  }

  function DispatchPending(s: System, w: nat): System
    requires w < |s.workers| && s.broker.pending != []
  {
    s.(broker := s.broker.(pending := s.broker.pending[1..], pendingCount := s.broker.pendingCount - 1),
       workers := s.workers[w := Worker(Waiting, [s.broker.pending[0]], [])],
       dispatched := s.dispatched + [s.broker.pending[0]])
  }

  /** s' is what handling the first report of worker w makes of s. */
  ghost predicate AfterReport(s: System, w: nat, now: int, s': System) {
    && Shaped(s) && w < |s.workers| && s.workers[w].outbox != [] && WorkerOk(s.workers[w]) && !Free(s.workers[w])
    && var wk, r := s.workers[w], Reported(s, w, now);
       if wk.outbox[0].Ready? then
         Unregistered(wk) && s' == Freed(r, w)
       else
         && wk == Worker(Waiting, [], [Done(TaskOf(wk))])
         && s' == if s.broker.pending == [] then Freed(r, w) else DispatchPending(r, w)
  }

  lemma ReportCases(s: System, w: nat, now: int)
    requires Inv(s) && Enabled(s, Report(w, now))
    ensures AfterReport(s, w, now, ReportNext(s, w, now))
  {
    var wk := s.workers[w];
    assert WorkerOk(wk);
    assert wk.outbox[1..] == [] && wk.inbox == [];
    if wk.outbox[0].Done? && s.broker.pending != [] {
      assert wk.inbox + [s.broker.pending[0]] == [s.broker.pending[0]];
    }
  }

  // The invariant, part by part.

  lemma WorkerChange(ws: seq<Worker>, idle: seq<int>, w: nat, wk: Worker)
    requires WorkersOk(ws, idle) && w < |ws| && WorkerOk(wk) && (Free(wk) <==> Free(ws[w]))
    ensures WorkersOk(ws[w := wk], idle)
  {
  }

  lemma WorkerLeavesIdle(ws: seq<Worker>, idle: seq<int>, wk: Worker)
    requires WorkersOk(ws, idle) && idle != [] && WorkerOk(wk) && !Free(wk)
    ensures 1 <= idle[0] <= |ws| && Free(ws[idle[0] - 1])
    ensures WorkersOk(ws[idle[0] - 1 := wk], idle[1..])
  {
    var k := idle[0];
    assert (k - 1) + 1 in idle;
    var us := ws[k - 1 := wk];
    forall v | 0 <= v < |us| ensures Free(us[v]) <==> v + 1 in idle[1..] {
      if v + 1 in idle && v != k - 1 {
        var i :| 0 <= i < |idle| && idle[i] == v + 1;
        assert idle[1..][i - 1] == v + 1;
      }
    }
  }

  lemma WorkerBecomesIdle(ws: seq<Worker>, idle: seq<int>, w: nat)
    requires WorkersOk(ws, idle) && w < |ws| && !Free(ws[w])
    ensures WorkersOk(ws[w := Worker(Waiting, [], [])], idle + [w + 1])
  {
    var us, now := ws[w := Worker(Waiting, [], [])], idle + [w + 1];
    assert w + 1 !in idle;
    forall v | 0 <= v < |us| ensures Free(us[v]) <==> v + 1 in now {
      if v == w {
        assert now[|idle|] == v + 1;
      } else if v + 1 in idle {
        var i :| 0 <= i < |idle| && idle[i] == v + 1;
        assert now[i] == v + 1;
      }
    }
  }

  /** The task of a busy worker is an arrived task. */
  lemma BusyTaskArrived(s: System, w: nat)
    requires Inv(s) && w < |s.workers| && Busy(s.workers[w])
    ensures 0 <= TaskOf(s.workers[w]) < Arrived(s)
  {
    var t := TaskOf(s.workers[w]);
    SetWorker(s.workers, w, s.workers[w], t);
    assert Balanced(TallyOf(s, t), 0 <= t < Arrived(s));
  }

  lemma FrontLosesFirst(D: nat, sent: nat, front: seq<int>)
    requires FrontOk(D, sent, front) && front != []
    ensures FrontOk(D, sent, front[1..])
  {
    forall i | 0 <= i < |front[1..]| ensures front[1..][i] == sent - |front[1..]| + i {
      assert front[1..][i] == front[i + 1];
    }
  }

  /** A worker gets task p. */
  lemma HeldAfterDispatch(ws: seq<Worker>, w: nat, p: int, t: int)
    requires w < |ws| && WorkerOk(ws[w])
    ensures Held(ws[w := Worker(Waiting, [p], [])], t) == Held(ws, t) - Has(ws[w], t) + (if p == t then 1 else 0)
  {
    WorkerKinds(p);
    SetWorker(ws, w, Worker(Waiting, [p], []), t);
  }

  // The invariant, step by step: first where the tasks are, then the rest.

  lemma {:induction false} DispatchMoves(s: System, s1: System, w: nat, id: nat, t: int)
    requires w < |s.workers| && WorkerOk(s.workers[w]) && Free(s.workers[w])
    requires s1.workers == s.workers && s1.dispatched == s.dispatched && s1.dropped == s.dropped && s1.done == s.done
    requires s1.broker.pending == s.broker.pending && s1.broker.workers != []
    ensures var y, hit := TallyOf(s, t), if t == id then 1 else 0;
            TallyOf(DispatchDirectly(s1, w, id), t) == y.(held := y.held + hit, dispatched := y.dispatched + hit)
  {
    OccursSnoc(s.dispatched, id, t);
    HeldAfterDispatch(s.workers, w, id, t);
  }

  /** What handling a task does to the whereabouts of any task t. */
  lemma {:induction false} TaskMoves(s: System, now: int, s': System, t: int)
    requires AfterTask(s, now, s')
    ensures var y, hit := TallyOf(s, t), if t == Arrived(s) then 1 else 0;
            TallyOf(s', t) ==
              if s.broker.workers != [] then y.(held := y.held + hit, dispatched := y.dispatched + hit)
              else if |s.broker.pending| < s.g.Q then y.(pending := y.pending + hit)
              else y.(dropped := y.dropped + hit)
  {
    var id := Arrived(s);
    if s.broker.workers != [] {
      DispatchMoves(s, Clocked(s, id, now), s.broker.workers[0] - 1, id, t);
    } else if |s.broker.pending| < s.g.Q {
      OccursSnoc(s.broker.pending, id, t);
    } else {
      OccursSnoc(s.dropped, id, t);
    }
  }

  lemma FreedMoves(s: System, w: nat, now: int, s': System, t: int)
    requires AfterReport(s, w, now, s') && s' == Freed(Reported(s, w, now), w)
    ensures var y, ended := TallyOf(s, t), if s.workers[w].outbox[0] == Done(t) then 1 else 0;
            TallyOf(s', t) == y.(held := y.held - ended, done := y.done + ended)
  {
    if s.workers[w].outbox[0].Done? {
      OccursSnoc(s.done, TaskOf(s.workers[w]), t);
    }
    WorkerKinds(0);
    SetWorker(s.workers, w, Worker(Waiting, [], []), t);
  }

  lemma RefilledMoves(s: System, w: nat, p: int, s': System, t: int)
    requires w < |s.workers| && WorkerOk(s.workers[w])
    requires s.workers[w] == Worker(Waiting, [], [Done(TaskOf(s.workers[w]))])
    requires s.broker.pending != [] && p == s.broker.pending[0]
    requires s'.broker.pending == s.broker.pending[1..] && s'.workers == s.workers[w := Worker(Waiting, [p], [])]
    requires s'.done == s.done + [TaskOf(s.workers[w])] && s'.dropped == s.dropped
    requires s'.dispatched == s.dispatched + [p]
    ensures var y := TallyOf(s, t);
            var ended := if s.workers[w].outbox[0] == Done(t) then 1 else 0;
            var begun := if p == t then 1 else 0;
            TallyOf(s', t) ==
              Tally(y.pending - begun, y.held - ended + begun, y.done + ended, y.dropped, y.dispatched + begun)
  {
    OccursSnoc(s.done, TaskOf(s.workers[w]), t);
    OccursFirst(s.broker.pending, t);
    OccursSnoc(s.dispatched, p, t);
    HeldAfterDispatch(s.workers, w, p, t);
  }

  /** What handling a report does to the whereabouts of any task t. */
  lemma ReportMoves(s: System, w: nat, now: int, s': System, t: int)
    requires AfterReport(s, w, now, s')
    ensures var y, wk := TallyOf(s, t), s.workers[w];
            var ended := if wk.outbox[0] == Done(t) then 1 else 0;
            var begun := if wk.outbox[0].Done? && s.broker.pending != [] && s.broker.pending[0] == t then 1 else 0;
            TallyOf(s', t) ==
              Tally(y.pending - begun, y.held - ended + begun, y.done + ended, y.dropped, y.dispatched + begun)
  {
    if s.workers[w].outbox[0].Done? && s.broker.pending != [] {
      RefilledMoves(s, w, s.broker.pending[0], s', t);
    } else {
      FreedMoves(s, w, now, s', t);
    }
  }

  /** What a worker does on its own: register, receive or finish. */
  ghost predicate LocalMove(s: System, w: nat, wk: Worker) {
    && w < |s.workers| && WorkerOk(s.workers[w]) && WorkerOk(wk) && !Free(wk) && !Free(s.workers[w])
    && (Busy(wk) <==> Busy(s.workers[w])) && (Busy(wk) ==> TaskOf(wk) == TaskOf(s.workers[w]))
    && (s.workers[w].outbox != [] ==> wk.outbox != [])
  }

  lemma LocalAction(s: System, a: Action)
    requires Inv(s) && Enabled(s, a) && (a.Register? || a.Receive? || a.Finish?)
    ensures Next(s, a) == s.(workers := Next(s, a).workers)
    ensures Next(s, a).workers == s.workers[a.w := Next(s, a).workers[a.w]]
    ensures LocalMove(s, a.w, Next(s, a).workers[a.w])
  {
    var wk := s.workers[a.w];
    assert WorkerOk(wk);
    match a
    case Register(w) =>
    case Receive(w) => assert wk.inbox[1..] == []; WorkerKinds(wk.inbox[0]);
    case Finish(w) => WorkerKinds(wk.pc.task);
  }

  lemma LocalMoves(s: System, a: Action, t: int)
    requires Inv(s) && Enabled(s, a) && (a.Register? || a.Receive? || a.Finish?)
    ensures TallyOf(Next(s, a), t) == TallyOf(s, t)
  {
    LocalAction(s, a);
    SetWorker(s.workers, a.w, Next(s, a).workers[a.w], t);
  }

  lemma StepKeepsBalance(s: System, a: Action, t: int)
    requires Inv(s) && Enabled(s, a)
    ensures Balanced(TallyOf(Next(s, a), t), 0 <= t < Arrived(Next(s, a)))
  {
    assert Balanced(TallyOf(s, t), 0 <= t < Arrived(s));
    match a
    case Produce(now) =>
    case Poll =>
    case Task(now) => TaskCases(s, now); TaskMoves(s, now, TaskNext(s, now), t);
    case Report(w, now) => ReportCases(s, w, now); ReportMoves(s, w, now, ReportNext(s, w, now), t);
    case _ => LocalMoves(s, a, t);
  }

  // How many workers are busy.

  lemma BusyAfterTask(s: System, now: int, s': System)
    requires AfterTask(s, now, s')
    ensures Count(s'.workers, Busy) == Count(s.workers, Busy) + (if s.broker.workers != [] then 1 else 0)
  {
    if s.broker.workers != [] {
      CountUpdate(s.workers, s.broker.workers[0] - 1, Worker(Waiting, [Arrived(s)], []), Busy);
    }
  }

  lemma BusyAfterReport(s: System, w: nat, now: int, s': System)
    requires AfterReport(s, w, now, s')
    ensures Count(s'.workers, Busy) == Count(s.workers, Busy)
              - (if s.workers[w].outbox[0].Done? && s.broker.pending == [] then 1 else 0)
  {
    if s.workers[w].outbox[0].Done? && s.broker.pending != [] {
      CountUpdate(s.workers, w, Worker(Waiting, [s.broker.pending[0]], []), Busy);
    } else {
      CountUpdate(s.workers, w, Worker(Waiting, [], []), Busy);
    }
  }

  lemma TaskKeepsPlaced(s: System, now: int, s': System)
    requires Inv(s) && AfterTask(s, now, s')
    ensures Placed(s')
  {
    FrontLosesFirst(s.g.D, s.sent, s.front);
    if s.broker.workers != [] {
      WorkerKinds(Arrived(s));
      WorkerLeavesIdle(s.workers, s.broker.workers, Worker(Waiting, [Arrived(s)], []));
    }
  }

  lemma TaskKeepsRecorded(s: System, now: int, s': System)
    requires Recorded(s) && s.sent <= s.g.D && AfterTask(s, now, s') && now >= s.clock
    ensures Recorded(s')
  {
    BusyAfterTask(s, now, s');
  }

  lemma ReportKeepsPlaced(s: System, w: nat, now: int, s': System)
    requires Inv(s) && AfterReport(s, w, now, s')
    ensures Placed(s')
  {
    if s.workers[w].outbox[0].Done? && s.broker.pending != [] {
      WorkerKinds(s.broker.pending[0]);
      WorkerChange(s.workers, s.broker.workers, w, Worker(Waiting, [s.broker.pending[0]], []));
    } else {
      WorkerBecomesIdle(s.workers, s.broker.workers, w);
    }
  }

  lemma ReportKeepsRecorded(s: System, w: nat, now: int, s': System)
    requires Inv(s) && AfterReport(s, w, now, s') && now >= s.clock
    ensures Recorded(s')
  {
    BusyAfterReport(s, w, now, s');
    if s.workers[w].outbox[0].Done? {
      BusyTaskArrived(s, w);
    }
  }

  lemma LocalKeepsRecorded(s: System, w: nat, wk: Worker)
    requires Recorded(s) && LocalMove(s, w, wk)
    ensures Recorded(s.(workers := s.workers[w := wk]))
  {
    CountUpdate(s.workers, w, wk, Busy);
    var s' := s.(workers := s.workers[w := wk]);
    if s.phase == GotReport {
      var v :| 0 <= v < |s.workers| && s.workers[v].outbox != [];
      assert s'.workers[v].outbox != [];
    }
  }

  lemma StepKeepsPlaced(s: System, a: Action)
    requires Inv(s) && Enabled(s, a)
    ensures Placed(Next(s, a))
  {
    match a
    case Produce(now) =>
    case Poll =>
    case Task(now) => TaskCases(s, now); TaskKeepsPlaced(s, now, TaskNext(s, now));
    case Report(w, now) => ReportCases(s, w, now); ReportKeepsPlaced(s, w, now, ReportNext(s, w, now));
    case _ =>
      LocalAction(s, a);
      WorkerChange(s.workers, s.broker.workers, a.w, Next(s, a).workers[a.w]);
  }

  lemma StepKeepsRecorded(s: System, a: Action)
    requires Inv(s) && Enabled(s, a)
    ensures Recorded(Next(s, a))
  {
    match a
    case Produce(now) =>
    case Poll =>
    case Task(now) => TaskCases(s, now); TaskKeepsRecorded(s, now, TaskNext(s, now));
    case Report(w, now) => ReportCases(s, w, now); ReportKeepsRecorded(s, w, now, ReportNext(s, w, now));
    case _ =>
      LocalAction(s, a);
      LocalKeepsRecorded(s, a.w, Next(s, a).workers[a.w]);
  }

  lemma StepKeepsInv(s: System, a: Action)
    requires Inv(s) && Enabled(s, a)
    ensures Inv(Next(s, a))
  {
    StepKeepsPlaced(s, a);
    StepKeepsRecorded(s, a);
    forall t ensures Balanced(TallyOf(Next(s, a), t), 0 <= t < Arrived(Next(s, a))) {
      StepKeepsBalance(s, a, t);
    }
  }
}
