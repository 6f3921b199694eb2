/** What the broker does with one message: as functions on its abstract state, and as
    the event loop over linked queues, counters and the receive-time array. */
module BrokerCore {
  import opened Options
  import opened Payload
  import opened LinkedQueue

  /** Task count and queue size, from the command line. */
  datatype Setup = Setup(D: nat, Q: int)

  /** What a worker sends: its registration, or the end of a task. */
  datatype Report = Ready | Done(task: int)

  /** Which task is sent to which worker, and the bytes that carry it. */
  datatype Sending = Nothing | Send(worker: int, id: int)
  datatype Output = Silent | Dispatch(worker: int, message: string)

  datatype Broker = Broker(
    workers: seq<int>, pending: seq<int>, workerCount: int, pendingCount: int,
    dropped: int, processed: int, receiveNs: seq<int>, totalLatency: int, samples: int)

  function Start(g: Setup): Broker {
    Broker([], [], 0, 0, 0, 0, seq(g.D, _ => 0), 0, 0)
  }

  predicate ValidTask(g: Setup, task: Option<int>) {
    task.Some? && 0 <= task.value < g.D
  }

  /** A task arrives, with the id scanned from its text. */
  function Accept(g: Setup, b: Broker, id: Option<int>, now: int): (Broker, Sending)
    requires |b.receiveNs| == g.D
  {
    if !ValidTask(g, id) then
      (b.(dropped := b.dropped + 1), Nothing)
    else
      var b1 := b.(receiveNs := b.receiveNs[id.value := now]);
      if b.workers != [] then
        (b1.(workers := b.workers[1..], workerCount := b.workerCount - 1),
         if b.workers[0] != -1 then Send(b.workers[0], id.value) else Nothing)
      else if b.pendingCount < g.Q then
        (b1.(pending := b.pending + [id.value], pendingCount := b.pendingCount + 1), Nothing)
      else
        (b1.(dropped := b.dropped + 1), Nothing)
  }

  function Sampled(g: Setup, b: Broker, task: int, sendNs: seq<int>, now: int): Broker
    requires |b.receiveNs| == g.D && |sendNs| == g.D
  {
    if 0 <= task < g.D && b.receiveNs[task] >= 0 && sendNs[task] >= 0 then
      b.(totalLatency := b.totalLatency + (now - sendNs[task]), samples := b.samples + 1)
    else b
  }

  /** A worker reports.  Only DONE looks at the pending queue. */
  function Hear(g: Setup, b: Broker, worker: int, report: Report, sendNs: seq<int>, now: int): (Broker, Sending)
    requires |b.receiveNs| == g.D && |sendNs| == g.D
  {
    match report
    case Done(task) =>
      var b1 := Sampled(g, b, task, sendNs, now).(processed := b.processed + 1);
      if b.pending != [] then
        (b1.(pending := b.pending[1..], pendingCount := b.pendingCount - 1),
         if b.pending[0] != -1 then Send(worker, b.pending[0]) else Nothing)
      else
        (b1.(workers := b.workers + [worker], workerCount := b.workerCount + 1), Nothing)
    case Ready =>
      (b.(workers := b.workers + [worker], workerCount := b.workerCount + 1), Nothing)
  }

  /** The 80-byte message regenerated for a pended task; junk is what the rest of the
      stack buffer holds. */
  function Regenerated(id: int, junk: string): string
    requires |junk| >= BUFFER
  {
    Sent(if |Text(id)| < BUFFER then Text(id) else Text(id)[..BUFFER - 1], junk)[..BUFFER]
  }

  /** A message from the producer's socket: a task dispatched at once goes on with the
      text it came with. */
  function OnTask(g: Setup, b: Broker, raw: string, now: int): (Broker, Output)
    requires |b.receiveNs| == g.D
  {
    var (b', sending) := Accept(g, b, TaskId(Received(raw)), now);
    (b', if sending.Send? then Dispatch(sending.worker, Sent(Received(raw), "")) else Silent)
  }

  /** A message from the workers' socket: a pended task is sent with a new text. */
  function OnReport(g: Setup, b: Broker, worker: int, report: Report, sendNs: seq<int>, now: int,
                    junk: string): (Broker, Output)
    requires |b.receiveNs| == g.D && |sendNs| == g.D && |junk| >= BUFFER
  {
    var (b', sending) := Hear(g, b, worker, report, sendNs, now);
    (b', if sending.Send? then Dispatch(sending.worker, Regenerated(sending.id, junk)) else Silent)
  }

  /** One iteration of the event loop. */
  datatype Event =
    | FromProducer(raw: string, now: int)
    | FromWorker(worker: int, report: Report, sendNs: seq<int>, at: int, junk: string)

  predicate EventOk(g: Setup, e: Event) {
    e.FromWorker? ==> |e.sendNs| == g.D && |e.junk| >= BUFFER
  }

  predicate EventsOk(g: Setup, events: seq<Event>) {
    forall i :: 0 <= i < |events| ==> EventOk(g, events[i])
  }

  function OnEvent(g: Setup, b: Broker, e: Event): (Broker, Output)
    requires |b.receiveNs| == g.D && EventOk(g, e)
  {
    match e
    case FromProducer(raw, now) => OnTask(g, b, raw, now)
    case FromWorker(worker, report, sendNs, at, junk) => OnReport(g, b, worker, report, sendNs, at, junk)
  }

  /** The loop's test before each message. */
  predicate Open(g: Setup, b: Broker) {
    b.processed + b.dropped < g.D
  }

  /** The state after the first k of the events, all handled while the loop was open. */
  function AfterEvents(g: Setup, b: Broker, events: seq<Event>, k: nat): Broker
    requires |b.receiveNs| == g.D && k <= |events| && EventsOk(g, events)
    ensures |AfterEvents(g, b, events, k).receiveNs| == g.D
  {
    if k == 0 then b else OnEvent(g, AfterEvents(g, b, events, k - 1), events[k - 1]).0
  }

  /** The loop was open before each of the first k messages. */
  ghost predicate OpenBefore(g: Setup, events: seq<Event>, k: nat)
    requires k <= |events| && EventsOk(g, events)
  {
    forall i :: 0 <= i < k ==> Open(g, AfterEvents(g, Start(g), events, i))
  }

  lemma {:induction false} OpenOneMore(g: Setup, events: seq<Event>, k: nat)
    requires k < |events| && EventsOk(g, events)
    requires OpenBefore(g, events, k) && Open(g, AfterEvents(g, Start(g), events, k))
    ensures OpenBefore(g, events, k + 1)
  {
  }

  /** The counters tell the queue lengths, the pending queue keeps its limit, and it never
      holds the value that stands for an empty queue. */
  ghost predicate Consistent(g: Setup, b: Broker) {
    && b.workerCount == |b.workers| && b.pendingCount == |b.pending|
    && (b.pending != [] ==> |b.pending| <= g.Q)
    && (forall i :: 0 <= i < |b.pending| ==> 0 <= b.pending[i] < g.D)
    && |b.receiveNs| == g.D
  }

  lemma EventKeepsConsistent(g: Setup, b: Broker, e: Event)
    requires Consistent(g, b) && EventOk(g, e)
    ensures Consistent(g, OnEvent(g, b, e).0)
  {
  }

  /** Neither dequeue in the broker ever sees an empty queue.  A DONE with a task pending
      sends the first pending task to the worker that reported.  A valid task that arrives
      with a worker idle is sent to the first idle worker, if and only if that one's number
      is not the -1 that stands for an empty queue; else it is sent to nobody. */
  lemma SentinelReadIff(g: Setup, b: Broker, id: Option<int>, worker: int, task: int, sendNs: seq<int>, now: int)
    requires Consistent(g, b) && |sendNs| == g.D
    ensures ValidTask(g, id) && b.workers != [] ==>
              && (Accept(g, b, id, now).1.Send? <==> b.workers[0] != -1)
              && (b.workers[0] != -1 ==> Accept(g, b, id, now).1 == Send(b.workers[0], id.value))
    ensures b.pending != [] ==> Hear(g, b, worker, Done(task), sendNs, now).1 == Send(worker, b.pending[0])
  {
  }

  lemma {:induction false} CountersTellLengths(g: Setup, events: seq<Event>, k: nat)
    requires k <= |events| && EventsOk(g, events)
    ensures Consistent(g, AfterEvents(g, Start(g), events, k))
  {
    if k > 0 {
      CountersTellLengths(g, events, k - 1);
      EventKeepsConsistent(g, AfterEvents(g, Start(g), events, k - 1), events[k - 1]);
    }
  }

  predicate Reported(events: seq<Event>, k: nat, worker: int) {
    exists j :: 0 <= j < k <= |events| && events[j].FromWorker? && events[j].worker == worker
  }

  /** Only workers that have reported are ever idle, so while none of number -1 has, every
      valid task that finds a worker idle is sent. */
  lemma {:induction false} IdleHaveReported(g: Setup, events: seq<Event>, k: nat, i: nat)
    requires k <= |events| && EventsOk(g, events) && i < |AfterEvents(g, Start(g), events, k).workers|
    ensures Reported(events, k, AfterEvents(g, Start(g), events, k).workers[i])
  {
    if k > 0 {
      var b, e := AfterEvents(g, Start(g), events, k - 1), events[k - 1];
      CountersTellLengths(g, events, k - 1);
      var workers := OnEvent(g, b, e).0.workers;
      if e.FromWorker? && i == |workers| - 1 && workers[i] == e.worker {
        assert events[k - 1].FromWorker?;
      } else {
        var was := if |workers| < |b.workers| then i + 1 else i;
        IdleHaveReported(g, events, k - 1, was);
        var j :| 0 <= j < k - 1 && events[j].FromWorker? && events[j].worker == b.workers[was];
      }
    }
  }

  /** A worker numbered -1 costs the first task: it is neither sent, pended nor dropped. */
  lemma MinusOneLosesTask(sendNs: seq<int>, junk: string, now: int)
    requires |sendNs| == 1 && |junk| >= BUFFER
    ensures var g, ready := Setup(1, 1), FromWorker(-1, Ready, sendNs, now, junk);
            var b := OnEvent(g, Start(g), ready).0;
            var (b', sending) := Accept(g, b, Some(0), now);
            sending == Nothing && b'.workers == b'.pending == [] && b'.dropped == b'.processed == 0
  {
  }

  /** The task goes to the first idle worker, to the pending queue, or is dropped; it goes
      nowhere if that worker's number is -1. */
  predicate TaskPlaced(g: Setup, b: Broker, task: string, id: int, b': Broker, out: Output) {
    if b.workers != [] then
      && b' == b.(workers := b.workers[1..], workerCount := b.workerCount - 1)
      && out == (if b.workers[0] != -1 then Dispatch(b.workers[0], Sent(task, "")) else Silent)
    else if |b.pending| < g.Q then
      b' == b.(pending := b.pending + [id], pendingCount := b.pendingCount + 1) && out == Silent
    else
      b' == b.(dropped := b.dropped + 1) && out == Silent
  }

  lemma {:induction false} TaskOutcome(g: Setup, b: Broker, raw: string, now: int, b': Broker, out: Output)
    requires Consistent(g, b)
    requires ValidTask(g, TaskId(Received(raw)))
    requires var id := TaskId(Received(raw)).value;
             TaskPlaced(g, b.(receiveNs := b.receiveNs[id := now]), Received(raw), id, b', out)
    ensures (b', out) == OnTask(g, b, raw, now)
  {
  }

  /** The worker that reported DONE gets the first pending task, or becomes idle. */
  predicate Refilled(b: Broker, worker: int, junk: string, b': Broker, out: Output)
    requires |junk| >= BUFFER
  {
    if b.pending != [] then
      && b' == b.(pending := b.pending[1..], pendingCount := b.pendingCount - 1)
      && out == Dispatch(worker, Regenerated(b.pending[0], junk))
    else
      b' == b.(workers := b.workers + [worker], workerCount := b.workerCount + 1) && out == Silent
  }

  lemma {:induction false} DoneOutcome(g: Setup, b: Broker, worker: int, task: int, sendNs: seq<int>, now: int,
                                       junk: string, b': Broker, out: Output)
    requires Consistent(g, b) && |sendNs| == g.D && |junk| >= BUFFER
    requires Refilled(Sampled(g, b, task, sendNs, now).(processed := b.processed + 1), worker, junk, b', out)
    ensures (b', out) == OnReport(g, b, worker, Done(task), sendNs, now, junk)
  {
  }

  class Process {
    const setup: Setup
    const worker_queue: Queue
    const pending_task_queue: Queue
    var worker_count: int
    var pending_task_count: int
    var dropped_task_count: int
    var processed_task_count: int
    const broker_receive_ns: array<int>
    var total_latency_ns: int
    var latency_sample_count: int

    ghost predicate Valid()
      reads this, worker_queue, pending_task_queue, worker_queue.spine, pending_task_queue.spine, broker_receive_ns
    {
      && worker_queue != pending_task_queue
      && worker_queue.Valid() && pending_task_queue.Valid()
      && (forall i, j :: 0 <= i < |worker_queue.spine| && 0 <= j < |pending_task_queue.spine| ==>
            worker_queue.spine[i] != pending_task_queue.spine[j])
      && broker_receive_ns.Length == setup.D
    }

    /** The objects the broker is made of. */
    ghost function Repr(): set<object>
      reads this, worker_queue, pending_task_queue
    {
      {this, worker_queue, pending_task_queue, broker_receive_ns}
      + (set n | n in worker_queue.spine) + (set n | n in pending_task_queue.spine)
    }

    ghost function View(): Broker
      reads this, worker_queue, pending_task_queue, worker_queue.spine, pending_task_queue.spine, broker_receive_ns
    {
      Broker(worker_queue.Contents(), pending_task_queue.Contents(), worker_count, pending_task_count,
             dropped_task_count, processed_task_count, broker_receive_ns[..], total_latency_ns, latency_sample_count)
    }

    constructor (g: Setup)
      ensures Valid() && setup == g && View() == Start(g)
    {
      setup := g;
      worker_queue := new Queue();
      pending_task_queue := new Queue();
      broker_receive_ns := new int[g.D](_ => 0);
      worker_count, pending_task_count, dropped_task_count, processed_task_count := 0, 0, 0, 0;
      total_latency_ns, latency_sample_count := 0, 0;
      new;
      assert broker_receive_ns[..] == seq(g.D, _ => 0);
    }

    method AddIdle(worker_id: int)
      requires Valid()
      modifies this`worker_count, worker_queue, worker_queue.spine
      ensures Valid()
      ensures View() == var b := old(View()); b.(workers := b.workers + [worker_id], workerCount := b.workerCount + 1)
      ensures forall n :: n in worker_queue.spine ==> n in old(worker_queue.spine) || fresh(n)
      ensures pending_task_queue.spine == old(pending_task_queue.spine)
    {
      worker_queue.Enqueue(worker_id);
      worker_count := worker_count + 1;
    }

    method NextPending() returns (task_id: int)
      requires Valid() && pending_task_queue.head != null
      modifies this`pending_task_count, pending_task_queue
      ensures var b := old(View());
              b.pending != [] && task_id == b.pending[0]
              && View() == b.(pending := b.pending[1..], pendingCount := b.pendingCount - 1)
      ensures Valid() && worker_queue.spine == old(worker_queue.spine)
      ensures forall n :: n in pending_task_queue.spine ==> n in old(pending_task_queue.spine)
    {
      task_id := pending_task_queue.Dequeue();
      pending_task_count := pending_task_count - 1;
    }

    method NextIdle() returns (worker_id: int)
      requires Valid() && worker_queue.head != null
      modifies this`worker_count, worker_queue
      ensures var b := old(View());
              b.workers != [] && worker_id == b.workers[0]
              && View() == b.(workers := b.workers[1..], workerCount := b.workerCount - 1)
      ensures Valid() && pending_task_queue.spine == old(pending_task_queue.spine)
      ensures forall n :: n in worker_queue.spine ==> n in old(worker_queue.spine)
    {
      worker_id := worker_queue.Dequeue();
      worker_count := worker_count - 1;
    }

    method AddPending(task_id: int)
      requires Valid()
      modifies this`pending_task_count, pending_task_queue, pending_task_queue.spine
      ensures Valid()
      ensures View() == var b := old(View()); b.(pending := b.pending + [task_id], pendingCount := b.pendingCount + 1)
      ensures forall n :: n in pending_task_queue.spine ==> n in old(pending_task_queue.spine) || fresh(n)
      ensures worker_queue.spine == old(worker_queue.spine)
    {
      pending_task_queue.Enqueue(task_id);
      pending_task_count := pending_task_count + 1;
    }

    /** A task goes to the first idle worker, to the pending queue, or is dropped. */
    method Place(task: string, task_id: int) returns (out: Output)
      requires Valid() && Consistent(setup, View())
      modifies Repr()
      ensures Valid() && fresh(Repr() - old(Repr()))
      ensures TaskPlaced(setup, old(View()), task, task_id, View(), out)
    {
      out := Silent;
      if worker_queue.head != null {
        var worker_id := NextIdle();
        if worker_id != -1 {
          out := Dispatch(worker_id, Sent(task, ""));
        }
      } else {
        assert |View().workers| == |worker_queue.spine|;
        if pending_task_count < setup.Q {
          AddPending(task_id);
        } else {
          dropped_task_count := dropped_task_count + 1;
        }
      }
    }

    method Stamp(task_id: int, now: int)
      requires Valid() && 0 <= task_id < setup.D
      modifies broker_receive_ns
      ensures Valid() && Repr() == old(Repr())
      ensures View() == var b := old(View()); b.(receiveNs := b.receiveNs[task_id := now])
    {
      broker_receive_ns[task_id] := now;
    }

    method HandleTask(raw: string, now: int) returns (out: Output)
      requires Valid() && Consistent(setup, View())
      modifies Repr()
      ensures Valid() && (View(), out) == OnTask(setup, old(View()), raw, now)
      ensures fresh(Repr() - old(Repr()))
    {
      var task := Received(raw);
      var task_id := TaskId(task);
      if !(task_id.Some? && 0 <= task_id.value < setup.D) {
        dropped_task_count := dropped_task_count + 1;
        return Silent;
      }
      ghost var b := View();
      Stamp(task_id.value, now);
      out := Place(task, task_id.value);
      TaskOutcome(setup, b, raw, now, View(), out);
    }

    /** The latency sample and the count of a task reported done. */
    method Sample(done_task_id: int, sendNs: seq<int>, now: int)
      requires Valid() && |sendNs| == setup.D
      modifies this`total_latency_ns, this`latency_sample_count, this`processed_task_count
      ensures Valid() && Repr() == old(Repr())
      ensures View() == Sampled(setup, old(View()), done_task_id, sendNs, now).(processed := old(View()).processed + 1)
    {
      if 0 <= done_task_id < setup.D && broker_receive_ns[done_task_id] >= 0 && sendNs[done_task_id] >= 0 {
        total_latency_ns := total_latency_ns + (now - sendNs[done_task_id]);
        latency_sample_count := latency_sample_count + 1;
      }
      processed_task_count := processed_task_count + 1;
    }

    /** The worker that reported gets the first pending task, or becomes idle. */
    method Refill(worker_id: int, junk: string) returns (out: Output)
      requires Valid() && Consistent(setup, View()) && |junk| >= BUFFER
      modifies Repr()
      ensures Valid() && fresh(Repr() - old(Repr()))
      ensures Refilled(old(View()), worker_id, junk, View(), out)
    {
      out := Silent;
      if pending_task_queue.head != null {
        var pending_task_id := NextPending();
        if pending_task_id != -1 {
          out := Dispatch(worker_id, Regenerated(pending_task_id, junk));
        }
      } else {
        assert |View().pending| == |pending_task_queue.spine|;
        AddIdle(worker_id);
      }
    }

    method HandleDone(worker_id: int, done_task_id: int, sendNs: seq<int>, now: int, junk: string) returns (out: Output)
      requires Valid() && Consistent(setup, View()) && |sendNs| == setup.D && |junk| >= BUFFER
      modifies Repr()
      ensures Valid() && (View(), out) == OnReport(setup, old(View()), worker_id, Done(done_task_id), sendNs, now, junk)
      ensures fresh(Repr() - old(Repr()))
    {
      ghost var b := View();
      Sample(done_task_id, sendNs, now);
      out := Refill(worker_id, junk);
      DoneOutcome(setup, b, worker_id, done_task_id, sendNs, now, junk, View(), out);
    }

    method HandleReport(worker_id: int, report: Report, sendNs: seq<int>, now: int, junk: string) returns (out: Output)
      requires Valid() && Consistent(setup, View()) && |sendNs| == setup.D && |junk| >= BUFFER
      modifies Repr()
      ensures Valid() && (View(), out) == OnReport(setup, old(View()), worker_id, report, sendNs, now, junk)
      ensures fresh(Repr() - old(Repr()))
    {
      match report {
        case Done(done_task_id) =>
          out := HandleDone(worker_id, done_task_id, sendNs, now, junk);
        case Ready =>
          out := Silent;
          AddIdle(worker_id);
      }
    }

    /** One message, from whichever socket had it. */
    method HandleEvent(e: Event) returns (out: Output)
      requires Valid() && Consistent(setup, View()) && EventOk(setup, e)
      modifies Repr()
      ensures Valid() && (View(), out) == OnEvent(setup, old(View()), e) && Consistent(setup, View())
      ensures fresh(Repr() - old(Repr()))
    {
      EventKeepsConsistent(setup, View(), e);
      match e {
        case FromProducer(raw, now) =>
          out := HandleTask(raw, now);
        case FromWorker(worker, report, sendNs, at, junk) =>
          out := HandleReport(worker, report, sendNs, at, junk);
      }
    }

    /** The broker has handled the first k messages. */
    ghost predicate Handled(events: seq<Event>, k: nat)
      requires k <= |events| && EventsOk(setup, events)
      reads this, worker_queue, pending_task_queue, worker_queue.spine, pending_task_queue.spine, broker_receive_ns
    {
      Valid() && View() == AfterEvents(setup, Start(setup), events, k)
    }

    /** One iteration of the loop.  `owned` keeps the objects of the broker, and the nodes it
        has allocated since. */
    method HandleNext(events: seq<Event>, k: nat, ghost owned: set<object>) returns (ghost owned': set<object>)
      requires k < |events| && EventsOk(setup, events) && Handled(events, k) && Repr() <= owned
      modifies owned
      ensures Handled(events, k + 1) && Repr() <= owned' && fresh(owned' - owned)
    {
      CountersTellLengths(setup, events, k);
      var _ := HandleEvent(events[k]);
      owned' := owned + Repr();
    }

    /** The event loop over the messages that arrive; it stops when the tasks are all
        accounted for, or waits in the poll when no message is left. */
    method EventLoop(events: seq<Event>) returns (k: nat)
      requires Valid() && View() == Start(setup) && EventsOk(setup, events)
      modifies Repr()
      ensures k <= |events| && Handled(events, k) && OpenBefore(setup, events, k)
      ensures k < |events| ==> !Open(setup, View())
    {
      k := 0;
      ghost var owned := Repr();
      while processed_task_count + dropped_task_count < setup.D && k < |events|
        invariant k <= |events| && Handled(events, k) && OpenBefore(setup, events, k)
        invariant Repr() <= owned && fresh(owned - old(Repr()))
        decreases |events| - k
      {
        OpenOneMore(setup, events, k);
        owned := HandleNext(events, k, owned);
        k := k + 1;
      }
    }
  }
}
