/** The loops at the two ends of the broker: the producer's and the workers'. */
module BrokerPeers {
  import opened Options
  import opened Payload
  import opened BrokerCore

  /** The message of task i as the producer sends it. */
  function TaskMessage(i: nat): string {
    Sent(Text(i), "")
  }

  lemma MessageOfTask(i: nat)
    requires i < 0x8000_0000
    ensures |TaskMessage(i)| <= 80
    ensures Received(TaskMessage(i)) == Text(i) && TaskId(Text(i)) == Some(i)
  {
    TextFits(i);
    TaskIdOfText(i);
    TaskRoundTrip(i, "");
  }

  /** The producer sends its tasks in id order, each after recording its send time. */
  method Produce(task_count: nat, send_ns: array<int>, clock: seq<int>) returns (messages: seq<string>)
    requires task_count < INT_LIMIT && send_ns.Length == task_count && |clock| == task_count
    modifies send_ns
    ensures |messages| == task_count && send_ns[..] == clock
    ensures forall i :: 0 <= i < task_count ==>
              messages[i] == TaskMessage(i) && |messages[i]| <= BUFFER && TaskId(Received(messages[i])) == Some(i)
  {
    var task_sequence := 0;
    messages := [];
    while task_sequence < task_count
      invariant 0 <= task_sequence <= task_count && |messages| == task_sequence
      invariant send_ns[..task_sequence] == clock[..task_sequence]
      invariant forall i :: 0 <= i < task_sequence ==> messages[i] == TaskMessage(i)
    {
      send_ns[task_sequence] := clock[task_sequence];
      messages := messages + [TaskMessage(task_sequence)];
      task_sequence := task_sequence + 1;
    }
    forall i | 0 <= i < task_count
      ensures |messages[i]| <= BUFFER && TaskId(Received(messages[i])) == Some(i)
    {
      MessageOfTask(i);
    }
  }

  /** A worker registers once and then answers each message with one DONE that carries
      the id scanned from it.  The scan leaves the id unset when it fails, so every
      message has to hold one. */
  method Work(inbox: seq<string>) returns (reports: seq<Report>)
    requires forall i :: 0 <= i < |inbox| ==> TaskId(Received(inbox[i])).Some?
    ensures |reports| == |inbox| + 1 && reports[0] == Ready
    ensures forall i :: 0 <= i < |inbox| ==> reports[i + 1] == Done(TaskId(Received(inbox[i])).value)
  {
    reports := [Ready];
    for i := 0 to |inbox|
      invariant |reports| == i + 1 && reports[0] == Ready
      invariant forall j :: 0 <= j < i ==> reports[j + 1] == Done(TaskId(Received(inbox[j])).value)
    {
      var task_id := TaskId(Received(inbox[i])).value;
      reports := reports + [Done(task_id)];
    }
  }

  /** Every message that carries a task, sent directly or regenerated from the pending
      queue, is received as the producer's own text. */
  lemma RegeneratedIsOriginal(id: nat, junk: string)
    requires id < 0x8000_0000 && |junk| >= BUFFER
    ensures Received(Regenerated(id, junk)) == Received(TaskMessage(id)) == Text(id)
    ensures TaskId(Text(id)) == Some(id) && |Regenerated(id, junk)| == 80
  {
    TextFits(id);
    MessageOfTask(id);
    var rest := junk[..BUFFER - |Text(id)| - 1];
    assert Regenerated(id, junk) == Sent(Text(id), rest);
    TaskRoundTrip(id, rest);
  }

  /** The bytes on the wire carry exactly the ids the broker decides on: a task sent by
      the producer is accepted under its own id, and whatever the broker dispatches is
      scanned by the worker as the id dispatched. */
  lemma WireCarriesIds(g: Setup, b: Broker, id: nat, worker: int, report: Report, sendNs: seq<int>, now: int,
                       junk: string)
    requires Consistent(g, b) && g.D <= INT_LIMIT && id < g.D && |sendNs| == g.D && |junk| >= BUFFER
    ensures var (b', sending) := Accept(g, b, Some(id), now);
            var (b'', out) := OnTask(g, b, TaskMessage(id), now);
            b'' == b' && Carries(out, sending)
    ensures var (b', sending) := Hear(g, b, worker, report, sendNs, now);
            var (b'', out) := OnReport(g, b, worker, report, sendNs, now, junk);
            b'' == b' && Carries(out, sending)
  {
    MessageOfTask(id);
    assert Sent(Text(id), "") == TaskMessage(id);
    if report.Done? && b.pending != [] {
      RegeneratedIsOriginal(b.pending[0], junk);
    }
  }

  predicate Carries(out: Output, sending: Sending) {
    match sending
    case Nothing => out == Silent
    case Send(w, t) => out.Dispatch? && out.worker == w && TaskId(Received(out.message)) == Some(t)
  }
}
