/** Producer, broker and workers as one system of steps over FIFO channels, and what
    every step keeps: no task is lost, duplicated or held twice. */
module BrokerSystem {
  import opened Options
  import opened Payload
  import opened BrokerCore
  import opened Sums

  datatype WorkerPc = Starting | Waiting | Working(task: int)

  /** Channels carry task ids; BrokerPeers.WireCarriesIds relates them to the bytes. */
  datatype Worker = Worker(pc: WorkerPc, inbox: seq<int>, outbox: seq<Report>)

  /** Where the broker is in its loop: the poll prefers the producer's socket. */
  datatype Phase = AtPoll | GotTask | GotReport

  /** The last four fields are history: tasks completed, dropped and dispatched in
      order, and whether a READY was ever handled while tasks were pending. */
  datatype System = System(
    g: Setup, sent: nat, sendNs: seq<int>, front: seq<int>, phase: Phase, broker: Broker,
    workers: seq<Worker>, clock: int,
    done: seq<int>, dropped: seq<int>, dispatched: seq<int>, lateReady: bool)

  datatype Action =
    | Produce(now: int)
    | Poll
    | Task(now: int)
    | Report(w: nat, now: int)
    | Register(w: nat)
    | Receive(w: nat)
    | Finish(w: nat)

  predicate Initial(s: System) {
    && s.g.D < INT_LIMIT && s.sent == 0 && s.clock >= 0
    && |s.sendNs| == s.g.D && (forall i :: 0 <= i < s.g.D ==> s.sendNs[i] == -1)
    && s.front == [] && s.phase == AtPoll && s.broker == Start(s.g)
    && (forall w :: 0 <= w < |s.workers| ==> s.workers[w] == Worker(Starting, [], []))
    && s.done == [] && s.dropped == [] && s.dispatched == [] && !s.lateReady
  }

  predicate SomeReport(s: System) {
    exists w :: 0 <= w < |s.workers| && s.workers[w].outbox != []
  }

  /** Array sizes, kept by every step. */
  predicate Shaped(s: System) {
    |s.sendNs| == s.g.D && |s.broker.receiveNs| == s.g.D
  }

  predicate Enabled(s: System, a: Action) {
    match a
    case Produce(now) => s.sent < s.g.D && now >= s.clock
    case Poll => s.phase == AtPoll && Open(s.g, s.broker) && (s.front != [] || SomeReport(s))
    case Task(now) => s.phase == GotTask && s.front != [] && now >= s.clock
    case Report(w, now) =>
      s.phase == GotReport && w < |s.workers| && s.workers[w].outbox != [] && now >= s.clock
    case Register(w) => w < |s.workers| && s.workers[w].pc == Starting
    case Receive(w) => w < |s.workers| && s.workers[w].pc == Waiting && s.workers[w].inbox != []
    case Finish(w) => w < |s.workers| && s.workers[w].pc.Working?
  }

  /** The broker addresses worker number w by its identity w + 1. */
  function Deliver(ws: seq<Worker>, sending: Sending): seq<Worker> {
    match sending
    case Nothing => ws
    case Send(to, id) =>
      if 1 <= to <= |ws| then ws[to - 1 := ws[to - 1].(inbox := ws[to - 1].inbox + [id])] else ws
  }

  function Logged(ids: seq<int>, sending: Sending): seq<int> {
    match sending
    case Nothing => ids
    case Send(_, id) => ids + [id]
  }

  function TaskNext(s: System, now: int): System
    requires Shaped(s) && s.front != []
  {
    var (b, sending) := Accept(s.g, s.broker, Some(s.front[0]), now);
    s.(front := s.front[1..], phase := AtPoll, broker := b, workers := Deliver(s.workers, sending), clock := now,
       dropped := if b.dropped > s.broker.dropped then s.dropped + [s.front[0]] else s.dropped,
       dispatched := Logged(s.dispatched, sending))
  }

  function ReportNext(s: System, w: nat, now: int): System
    requires Shaped(s) && w < |s.workers| && s.workers[w].outbox != []
  {
    var report := s.workers[w].outbox[0];
    var (b, sending) := Hear(s.g, s.broker, w + 1, report, s.sendNs, now);
    var ws := s.workers[w := s.workers[w].(outbox := s.workers[w].outbox[1..])];
    s.(phase := AtPoll, broker := b, workers := Deliver(ws, sending), clock := now,
       done := if report.Done? then s.done + [report.task] else s.done,
       dispatched := Logged(s.dispatched, sending),
       lateReady := s.lateReady || (report.Ready? && s.broker.pending != []))
  }

  function Next(s: System, a: Action): System
    requires Shaped(s) && Enabled(s, a)
  {
    match a
    case Produce(now) =>
      s.(sendNs := s.sendNs[s.sent := now], front := s.front + [s.sent], sent := s.sent + 1, clock := now)
    case Poll => s.(phase := if s.front != [] then GotTask else GotReport)
    case Task(now) => TaskNext(s, now)
    case Report(w, now) => ReportNext(s, w, now)
    case Register(w) =>
      var wk := s.workers[w];
      s.(workers := s.workers[w := Worker(Waiting, wk.inbox, wk.outbox + [Ready])])
    case Receive(w) =>
      var wk := s.workers[w];
      s.(workers := s.workers[w := Worker(Working(wk.inbox[0]), wk.inbox[1..], wk.outbox)])
    case Finish(w) =>
      var wk := s.workers[w];
      s.(workers := s.workers[w := Worker(Waiting, wk.inbox, wk.outbox + [Done(wk.pc.task)])])
  }

  ghost predicate Step(s: System, s': System) {
    Shaped(s) && exists a :: Enabled(s, a) && s' == Next(s, a)
  }

  /** The broker turns to the workers' socket only when no task is waiting at the
      producer's. */
  lemma {:induction false} PollPrefersTasks(s: System, s': System)
    requires Step(s, s') && s.phase == AtPoll
    ensures s'.phase == GotReport ==> s.front == []
    ensures s'.phase == GotTask ==> s.front != []
  {
  }

  predicate OfWorker(a: Action, w: nat) {
    (a.Register? || a.Receive? || a.Finish?) && a.w == w
  }

  /** Producer and workers are held up by nothing, wherever the broker is in its loop: the
      producer while it has tasks, a worker unless it waits for a message.  The broker polls
      as long as it is open and something has come. */
  lemma {:induction false} PeersMoveIff(s: System, w: nat)
    requires w < |s.workers|
    ensures (exists now :: Enabled(s, Produce(now))) <==> s.sent < s.g.D
    ensures (exists a: Action :: OfWorker(a, w) && Enabled(s, a)) <==>
              s.workers[w].pc == Waiting ==> s.workers[w].inbox != []
    ensures s.phase == AtPoll ==>
              (Enabled(s, Poll) <==> s.broker.processed + s.broker.dropped < s.g.D && (s.front != [] || SomeReport(s)))
    ensures s.phase == GotTask ==> ((exists now :: Enabled(s, Task(now))) <==> s.front != [])
    ensures s.phase == GotReport ==> ((exists now :: Enabled(s, Report(w, now))) <==> s.workers[w].outbox != [])
  {
    assert s.sent < s.g.D ==> Enabled(s, Produce(s.clock));
    assert s.phase == GotTask && s.front != [] ==> Enabled(s, Task(s.clock));
    assert s.phase == GotReport && s.workers[w].outbox != [] ==> Enabled(s, Report(w, s.clock));
    var a := match s.workers[w].pc
             case Starting => Register(w) case Waiting => Receive(w) case Working(_) => Finish(w);
    assert OfWorker(a, w);
  }

  // What each worker holds.

  function OccursDone(outbox: seq<Report>, t: int): nat {
    if outbox == [] then 0 else (if outbox[0] == Done(t) then 1 else 0) + OccursDone(outbox[1..], t)
  }

  /** How often a worker has task t: sent to it, worked on, or reported and not yet
      handled. */
  function Holds(wk: Worker, t: int): nat {
    Occurs(wk.inbox, t) + (if wk.pc == Working(t) then 1 else 0) + OccursDone(wk.outbox, t)
  }

  function Held(ws: seq<Worker>, t: int): nat {
    if ws == [] then 0 else Holds(ws[0], t) + Held(ws[1..], t)
  }

  predicate Unregistered(wk: Worker) {
    wk == Worker(Starting, [], []) || wk == Worker(Waiting, [], [Ready])
  }

  predicate Free(wk: Worker) {
    wk == Worker(Waiting, [], [])
  }

  predicate HasTask(wk: Worker, t: int) {
    || wk == Worker(Waiting, [t], [])
    || wk == Worker(Working(t), [], [])
    || wk == Worker(Waiting, [], [Done(t)])
  }

  predicate Busy(wk: Worker) {
    !Unregistered(wk) && !Free(wk)
  }

  /** The one task of a busy worker. */
  function TaskOf(wk: Worker): int {
    if wk.inbox != [] then wk.inbox[0] else if wk.pc.Working? then wk.pc.task
    else if wk.outbox != [] && wk.outbox[0].Done? then wk.outbox[0].task else -1
  }

  /** Each worker is unregistered, free or busy with exactly one task. */
  predicate WorkerOk(wk: Worker) {
    Unregistered(wk) || Free(wk) || HasTask(wk, TaskOf(wk))
  }

  lemma HoldsOne(wk: Worker, t: int)
    requires WorkerOk(wk)
    ensures Holds(wk, t) == if Busy(wk) && TaskOf(wk) == t then 1 else 0
  {
    var u := TaskOf(wk);
    OccursSnoc([], u, t);
    assert [] + [u] == [u];
    assert OccursDone([], t) == 0 && [Done(u)][1..] == [] && [Ready][1..] == [];
    assert OccursDone([Done(u)], t) == (if u == t then 1 else 0) && OccursDone([Ready], t) == 0;
  }

  function Arrived(s: System): int {
    s.sent - |s.front|
  }

  /** The tasks between the producer and the broker, in id order. */
  ghost predicate FrontOk(D: nat, sent: nat, front: seq<int>) {
    && D < INT_LIMIT && |front| <= sent <= D
    && forall i :: 0 <= i < |front| ==> front[i] == sent - |front| + i
  }

  /** A worker is in the idle queue, once, exactly when it is free. */
  ghost predicate WorkersOk(ws: seq<Worker>, idle: seq<int>) {
    && (forall w :: 0 <= w < |ws| ==> WorkerOk(ws[w]))
    && (forall w :: 0 <= w < |ws| ==> (Free(ws[w]) <==> w + 1 in idle))
    && (forall i :: 0 <= i < |idle| ==> 1 <= idle[i] <= |ws|)
    && (forall i, j :: 0 <= i < j < |idle| ==> idle[i] != idle[j])
  }

  /** How often task t is in each place, and how often it was ever dispatched. */
  datatype Tally = Tally(pending: int, held: int, done: int, dropped: int, dispatched: int)

  function TallyOf(s: System, t: int): Tally {
    Tally(Occurs(s.broker.pending, t), Held(s.workers, t), Occurs(s.done, t), Occurs(s.dropped, t),
          Occurs(s.dispatched, t))
  }

  /** A task that has arrived is in exactly one place: pending, with one worker, done
      or dropped.  It was dispatched exactly when it is with a worker or done. */
  predicate Balanced(y: Tally, arrived: bool) {
    && y.pending + y.held + y.done + y.dropped == (if arrived then 1 else 0)
    && y.dispatched == y.held + y.done
  }

  ghost predicate Accounted(s: System) {
    forall t :: Balanced(TallyOf(s, t), 0 <= t < Arrived(s))
  }

  ghost predicate TimesOk(sendNs: seq<int>, receiveNs: seq<int>, sent: nat, clock: int, samples: int, processed: int,
                          total: int)
  {
    && sent <= |sendNs| && clock >= 0 && samples == processed && total >= 0
    && (forall i :: 0 <= i < sent ==> 0 <= sendNs[i] <= clock)
    && (forall i :: 0 <= i < |receiveNs| ==> receiveNs[i] >= 0)
  }

  ghost predicate PhaseOk(s: System) {
    && (s.phase == GotTask ==> s.front != [])
    && (s.phase == GotReport ==> SomeReport(s))
    && (s.phase != AtPoll ==> Open(s.g, s.broker))
  }

  /** Counters, limits, loop position and times. */
  ghost predicate Recorded(s: System) {
    && Shaped(s) && Consistent(s.g, s.broker) && PhaseOk(s)
    && s.broker.processed == |s.done| && s.broker.dropped == |s.dropped|
    && |s.broker.pending| + Count(s.workers, Busy) + |s.done| + |s.dropped| == Arrived(s)
    && TimesOk(s.sendNs, s.broker.receiveNs, s.sent, s.clock, s.broker.samples, s.broker.processed,
               s.broker.totalLatency)
  }

  /** The channel from the producer and the idle queue. */
  ghost predicate Placed(s: System) {
    FrontOk(s.g.D, s.sent, s.front) && WorkersOk(s.workers, s.broker.workers)
  }

  ghost predicate Inv(s: System) {
    Recorded(s) && Placed(s) && Accounted(s)
  }
}
