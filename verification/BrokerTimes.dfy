/** Times over whole runs: the latency total at the end is the time from the sending of each
    task to the handling of its DONE, summed over the tasks processed. */
module BrokerTimes {
  import opened BrokerCore
  import opened BrokerSystem
  import opened BrokerSafety
  import Runs

  /** The time at which task t was sent on a run: the clock after the step that sent it. */
  function SentTime(run: seq<System>, k: nat, t: nat): int
    requires k < |run|
  {
    if k == 0 then 0
    else if run[k - 1].sent == t && run[k].sent == t + 1 then run[k].clock
    else SentTime(run, k - 1, t)
  }

  lemma {:induction false} StepSendTimes(s: System, a: Action)
    requires Shaped(s) && Enabled(s, a)
    ensures Shaped(Next(s, a)) && Next(s, a).g == s.g && s.sent <= Next(s, a).sent <= s.sent + 1
    ensures forall t :: 0 <= t < s.sent && t < |s.sendNs| ==> Next(s, a).sendNs[t] == s.sendNs[t]
    ensures Next(s, a).sent > s.sent ==> s.sent < |s.sendNs| && Next(s, a).sendNs[s.sent] == Next(s, a).clock
    ensures Next(s, a).clock >= s.clock
  {
  }

  /** The shared memory holds the time at which each task was sent. */
  lemma {:induction false} SendTimes(run: seq<System>, k: nat, t: nat)
    requires Runs.IsRun(Step, run) && Initial(run[0]) && k < |run| && t < run[k].sent
    ensures t < |run[k].sendNs| && run[k].sendNs[t] == SentTime(run, k, t)
  {
    if k > 0 {
      assert Step(run[k - 1], run[k - 1 + 1]);
      var a :| Enabled(run[k - 1], a) && run[k] == Next(run[k - 1], a);
      StepSendTimes(run[k - 1], a);
      if t < run[k - 1].sent {
        SendTimes(run, k - 1, t);
      }
    }
  }

  /** The step handles the DONE of one more task. */
  predicate Closes(s: System, s': System) {
    |s'.done| == |s.done| + 1
  }

  lemma {:induction false} StepLatency(s: System, a: Action)
    requires Inv(s) && Enabled(s, a)
    ensures var s' := Next(s, a);
            if Closes(s, s') then
              var t := s'.done[|s.done|];
              && 0 <= t < s.sent && s'.sendNs == s.sendNs
              && s'.broker.totalLatency == s.broker.totalLatency + (s'.clock - s.sendNs[t])
            else s'.broker.totalLatency == s.broker.totalLatency
  {
    if a.Report? {
      ReportCases(s, a.w, a.now);
      if s.workers[a.w].outbox[0].Done? {
        BusyTaskArrived(s, a.w);
      }
    }
  }

  /** From sending to the handling of its DONE, for the tasks closed in the first k steps. */
  function Latencies(run: seq<System>, k: nat): int
    requires k < |run|
  {
    if k == 0 then 0
    else
      var s, s' := run[k - 1], run[k];
      Latencies(run, k - 1)
      + (if Closes(s, s') && s'.done[|s.done|] >= 0 then s'.clock - SentTime(run, k - 1, s'.done[|s.done|]) else 0)
  }

  /** The broker's latency total is exactly that, in every state of every run, and it has one
      sample for each task processed. */
  lemma {:induction false} TotalIsLatencies(run: seq<System>, k: nat)
    requires Runs.IsRun(Step, run) && Initial(run[0]) && k < |run|
    ensures Inv(run[k]) && run[k].broker.totalLatency == Latencies(run, k)
    ensures run[k].broker.samples == run[k].broker.processed == |run[k].done|
  {
    if k == 0 {
      InitialInv(run[0]);
    } else {
      TotalIsLatencies(run, k - 1);
      var s := run[k - 1];
      assert Step(run[k - 1], run[k - 1 + 1]);
      var a :| Enabled(s, a) && run[k] == Next(s, a);
      StepKeepsInv(s, a);
      StepLatency(s, a);
      if Closes(s, run[k]) {
        SendTimes(run, k - 1, run[k].done[|s.done|]);
      }
    }
  }
}
