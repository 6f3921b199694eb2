/** The broker's books, for any sequence of messages: what its counters, its receive times
    and its latency total say about the messages alone. */
module BrokerAccounts {
  import opened Options
  import opened Payload
  import opened BrokerCore

  /** The broker after the first k messages of a run. */
  function At(g: Setup, events: seq<Event>, k: nat): (b: Broker)
    requires k <= |events| && EventsOk(g, events)
    ensures |b.receiveNs| == g.D
  {
    AfterEvents(g, Start(g), events, k)
  }

  predicate IsTask(g: Setup, e: Event, id: int) {
    e.FromProducer? && TaskId(Received(e.raw)) == Some(id) && 0 <= id < g.D
  }

  /** When the broker last got a task; 0 if it never did. */
  function LastReceived(g: Setup, events: seq<Event>, k: nat, id: int): int
    requires k <= |events|
  {
    if k == 0 then 0
    else if IsTask(g, events[k - 1], id) then events[k - 1].now
    else LastReceived(g, events, k - 1, id)
  }

  lemma {:induction false} ReceiveTimes(g: Setup, events: seq<Event>, k: nat, id: nat)
    requires k <= |events| && EventsOk(g, events) && id < g.D
    ensures At(g, events, k).receiveNs[id] == LastReceived(g, events, k, id)
  {
    if k > 0 {
      ReceiveTimes(g, events, k - 1, id);
    }
  }

  /** A DONE with a task id of this run, for a task with a send time, once it was received
      at a time that is not negative. */
  predicate Samples(g: Setup, events: seq<Event>, i: nat)
    requires i < |events| && EventsOk(g, events)
  {
    var e := events[i];
    && e.FromWorker? && e.report.Done? && 0 <= e.report.task < g.D
    && e.sendNs[e.report.task] >= 0 && LastReceived(g, events, i, e.report.task) >= 0
  }

  /** The latencies of the first k messages, and how many there are. */
  function LatencySum(g: Setup, events: seq<Event>, k: nat): int
    requires k <= |events| && EventsOk(g, events)
  {
    if k == 0 then 0
    else
      var e := events[k - 1];
      LatencySum(g, events, k - 1) + (if Samples(g, events, k - 1) then e.at - e.sendNs[e.report.task] else 0)
  }

  function SampleCount(g: Setup, events: seq<Event>, k: nat): nat
    requires k <= |events| && EventsOk(g, events)
  {
    if k == 0 then 0 else SampleCount(g, events, k - 1) + (if Samples(g, events, k - 1) then 1 else 0)
  }

  /** The average printed at the end is the total over the count of exactly these. */
  lemma {:induction false} LatencyIsSum(g: Setup, events: seq<Event>, k: nat)
    requires k <= |events| && EventsOk(g, events)
    ensures At(g, events, k).totalLatency == LatencySum(g, events, k)
    ensures At(g, events, k).samples == SampleCount(g, events, k)
  {
    if k > 0 {
      LatencyIsSum(g, events, k - 1);
      var e := events[k - 1];
      if e.FromWorker? && e.report.Done? && 0 <= e.report.task < g.D {
        ReceiveTimes(g, events, k - 1, e.report.task);
      }
    }
  }

  lemma {:induction false} ReceivedOnTime(g: Setup, events: seq<Event>, k: nat, id: int)
    requires k <= |events| && forall i :: 0 <= i < k && events[i].FromProducer? ==> events[i].now >= 0
    ensures LastReceived(g, events, k, id) >= 0
  {
    if k > 0 {
      ReceivedOnTime(g, events, k - 1, id);
    }
  }

  /** As the clock never is negative, every DONE of a task that was sent is in the total. */
  lemma {:induction false} EveryDoneIsSampled(g: Setup, events: seq<Event>, i: nat)
    requires i < |events| && EventsOk(g, events)
    requires forall j :: 0 <= j < i && events[j].FromProducer? ==> events[j].now >= 0
    ensures var e := events[i];
            Samples(g, events, i) <==>
              && e.FromWorker? && e.report.Done? && 0 <= e.report.task < g.D && e.sendNs[e.report.task] >= 0
  {
    if events[i].FromWorker? && events[i].report.Done? {
      ReceivedOnTime(g, events, i, events[i].report.task);
    }
  }

  predicate IsMessage(e: Event) { e.FromProducer? }
  predicate IsReport(e: Event) { e.FromWorker? }
  predicate IsDone(e: Event) { e.FromWorker? && e.report.Done? }

  function Counted(events: seq<Event>, k: nat, p: Event -> bool): nat
    requires k <= |events|
  {
    if k == 0 then 0 else Counted(events, k - 1, p) + (if p(events[k - 1]) then 1 else 0)
  }

  /** What has been handed to workers is neither dropped nor pending. */
  function Handed(b: Broker, messages: int): int { messages - b.dropped - |b.pending| }

  lemma {:induction false} EventAddsUp(g: Setup, b: Broker, e: Event, messages: int, reports: int)
    requires Consistent(g, b) && EventOk(g, e) && Handed(b, messages) == reports - |b.workers|
    ensures var b' := OnEvent(g, b, e).0;
            && b'.processed == b.processed + (if IsDone(e) then 1 else 0)
            && Handed(b', messages + (if IsMessage(e) then 1 else 0))
               == reports + (if IsReport(e) then 1 else 0) - |b'.workers|
  {
  }

  /** Processed tasks are the DONEs.  The tasks handed to workers are the reports of the
      workers that are not idle. */
  lemma {:induction false} CountersAddUp(g: Setup, events: seq<Event>, k: nat)
    requires k <= |events| && EventsOk(g, events)
    ensures var b := At(g, events, k);
            && b.processed == Counted(events, k, IsDone)
            && Handed(b, Counted(events, k, IsMessage)) == Counted(events, k, IsReport) - |b.workers|
  {
    if k > 0 {
      CountersAddUp(g, events, k - 1);
      CountersTellLengths(g, events, k - 1);
      EventAddsUp(g, At(g, events, k - 1), events[k - 1], Counted(events, k - 1, IsMessage),
                  Counted(events, k - 1, IsReport));
    }
  }

  /** A message counts as dropped if and only if it holds no id of this run, or no worker is
      idle and the pending queue has reached its limit. */
  lemma {:induction false} DropsIff(g: Setup, events: seq<Event>, k: nat)
    requires k < |events| && EventsOk(g, events)
    ensures var b, e := At(g, events, k), events[k];
            At(g, events, k + 1).dropped - b.dropped
            == if e.FromProducer? && ((forall id: nat :: id < g.D ==> TaskId(Received(e.raw)) != Some(id))
                                      || (b.workers == [] && |b.pending| >= g.Q))
               then 1 else 0
  {
    CountersTellLengths(g, events, k);
    var e := events[k];
    if e.FromProducer? && ValidTask(g, TaskId(Received(e.raw))) {
      var id: nat := TaskId(Received(e.raw)).value;
      assert TaskId(Received(e.raw)) == Some(id);
    }
  }

  lemma {:induction false} CStringIs(s: string)
    ensures |CString(s)| <= |s| && '\0' !in CString(s)
  {
    if s != [] && s[0] != '\0' {
      CStringIs(s[1..]);
    }
  }

  /** What has been received is received again when it is passed on. */
  lemma {:induction false} ReceivedAgain(raw: string)
    ensures Received(Sent(Received(raw), "")) == Received(raw)
    ensures |Received(raw)| <= 79 && '\0' !in Received(raw)
  {
    var task := Received(raw);
    CStringIs(if |raw| >= BUFFER then raw[..BUFFER - 1] else raw);
    var m := Sent(task, "");
    if |m| >= BUFFER {
      assert m[..BUFFER - 1] == task + "";
      CStringOf(task, "");
    } else {
      assert m == task + ['\0'];
      CStringOf(task, ['\0']);
    }
  }

  /** A task sent on at once reaches its worker with exactly the text the broker got, whatever
      that text is. */
  lemma {:induction false} DispatchKeepsText(g: Setup, b: Broker, raw: string, now: int)
    requires Consistent(g, b)
    ensures var out := OnTask(g, b, raw, now).1;
            out.Dispatch? ==> b.workers != [] && out.worker == b.workers[0] && Received(out.message) == Received(raw)
  {
    ReceivedAgain(raw);
  }
}
