/** When the condition-variable stack can put all its threads to sleep, for threads
    that call push or pop for ever. */
module CondDeadlock {
  import opened Options
  import opened Roles
  import opened StackMemory
  import opened Sums
  import opened CondStack
  import opened CondLift
  import C = SleeperCounts
  import Runs

  predicate IsProducer(th: Thread) { th.role == Producer }
  predicate IsConsumer(th: Thread) { th.role == Consumer }
  predicate ProducerAsleep(th: Thread) { IsProducer(th) && IsAsleep(th) }
  predicate ConsumerAsleep(th: Thread) { IsConsumer(th) && IsAsleep(th) }

  function Setting(s: State): C.Config {
    C.Config(|s.mem.buffer|, Count(s.threads, IsProducer), Count(s.threads, IsConsumer))
  }

  /** Between changing the index and signalling, the counted operation has not
      happened yet. */
  function Counted(s: State): C.Counts {
    var pending := if s.owner.Some? && s.owner.value < |s.threads| && s.threads[s.owner.value].pc == Signalling
                   then (if s.threads[s.owner.value].role == Producer then 1 else -1) else 0;
    C.Counts(s.mem.index - pending, Count(s.threads, ProducerAsleep), Count(s.threads, ConsumerAsleep))
  }

  predicate Looping(s: State) {
    forall t :: 0 <= t < |s.threads| ==> s.threads[t].left == Forever
  }

  predicate AllAsleep(s: State) {
    forall t :: 0 <= t < |s.threads| ==> IsAsleep(s.threads[t])
  }

  lemma CountsAfterUpdate(ts: seq<Thread>, t: nat, th: Thread)
    requires t < |ts| && th.role == ts[t].role
    ensures var us := ts[t := th];
            && Count(us, IsProducer) == Count(ts, IsProducer)
            && Count(us, IsConsumer) == Count(ts, IsConsumer)
            && Count(us, ProducerAsleep) == Count(ts, ProducerAsleep)
                 - (if ProducerAsleep(ts[t]) then 1 else 0) + (if ProducerAsleep(th) then 1 else 0)
            && Count(us, ConsumerAsleep) == Count(ts, ConsumerAsleep)
                 - (if ConsumerAsleep(ts[t]) then 1 else 0) + (if ConsumerAsleep(th) then 1 else 0)
  {
    CountUpdate(ts, t, th, IsProducer);
    CountUpdate(ts, t, th, IsConsumer);
    CountUpdate(ts, t, th, ProducerAsleep);
    CountUpdate(ts, t, th, ConsumerAsleep);
  }

  /** A thread that is not asleep leaves fewer sleepers than threads of its role. */
  lemma AwakeThread(ts: seq<Thread>, t: nat)
    requires t < |ts| && !IsAsleep(ts[t])
    ensures ts[t].role == Producer ==> Count(ts, ProducerAsleep) < Count(ts, IsProducer)
    ensures ts[t].role == Consumer ==> Count(ts, ConsumerAsleep) < Count(ts, IsConsumer)
  {
    if ts[t].role == Producer {
      CountStrict(ts, ProducerAsleep, IsProducer, t);
    } else {
      CountStrict(ts, ConsumerAsleep, IsConsumer, t);
    }
  }

  lemma NobodyAsleep(ts: seq<Thread>)
    requires forall t :: 0 <= t < |ts| ==> !IsAsleep(ts[t])
    ensures Count(ts, ProducerAsleep) == 0 && Count(ts, ConsumerAsleep) == 0
  {
    CountNone(ts, ProducerAsleep);
    CountNone(ts, ConsumerAsleep);
  }

  ghost predicate Simulated(s: State, a: Action, s': State) {
    var g, v, w := Setting(s), Counted(s), Counted(s');
    && Setting(s') == g
    && (v == w || C.QuietStep(g, v, w) || (a.Spurious? && C.SpuriousWake(v, w)))
  }

  lemma {:induction false} SignalSimulated(s: State, t: nat, woken: Option<nat>)
    requires Inv(s) && Enabled(s, Signal(t, woken))
    ensures Simulated(s, Signal(t, woken), Next(s, Signal(t, woken)))
  {
    var ts := s.threads;
    AwakeOrAsleepCounts(ts, t);
    if woken.Some? {
      var w := woken.value;
      var us := SetPc(ts, w, Woken);
      AwakeOrAsleepCounts(ts, w);
      CountsAfterUpdate(ts, w, ts[w].(pc := Woken));
      CountsAfterUpdate(us, t, us[t].(pc := Unlocking));
    } else {
      NobodyAsleep(ts);
      CountsAfterUpdate(ts, t, ts[t].(pc := Unlocking));
    }
  }

  /** A step of one thread changes the counts by one counted step or not at all. */
  lemma {:induction false} StepSimulated(s: State, a: Action)
    requires Inv(s) && Enabled(s, a)
    ensures Simulated(s, a, Next(s, a))
  {
    if a.Signal? {
      SignalSimulated(s, a.t, a.woken);
    } else {
      AwakeOrAsleepCounts(s.threads, a.t);
      CountsAfterUpdate(s.threads, a.t, Next(s, a).threads[a.t]);
    }
  }

  lemma AwakeOrAsleepCounts(ts: seq<Thread>, t: nat)
    requires t < |ts|
    ensures !IsAsleep(ts[t]) && ts[t].role == Producer ==> Count(ts, ProducerAsleep) < Count(ts, IsProducer)
    ensures !IsAsleep(ts[t]) && ts[t].role == Consumer ==> Count(ts, ConsumerAsleep) < Count(ts, IsConsumer)
    ensures ProducerAsleep(ts[t]) ==> Count(ts, ProducerAsleep) > 0
    ensures ConsumerAsleep(ts[t]) ==> Count(ts, ConsumerAsleep) > 0
  {
    if !IsAsleep(ts[t]) {
      AwakeThread(ts, t);
    } else if ts[t].role == Producer {
      CountPositive(ts, ProducerAsleep, t);
    } else {
      CountPositive(ts, ConsumerAsleep, t);
    }
  }

  ghost predicate SafeState(s: State) {
    Inv(s) && C.Small(Setting(s)) && C.Safe(Setting(s), Counted(s))
  }

  lemma AllAsleepCounts(ts: seq<Thread>)
    requires forall t :: 0 <= t < |ts| ==> IsAsleep(ts[t])
    ensures Count(ts, ProducerAsleep) == Count(ts, IsProducer)
    ensures Count(ts, ConsumerAsleep) == Count(ts, IsConsumer)
  {
    CountImplies(ts, ProducerAsleep, IsProducer);
    CountImplies(ts, ConsumerAsleep, IsConsumer);
    CountImplies(ts, IsProducer, ProducerAsleep);
    CountImplies(ts, IsConsumer, ConsumerAsleep);
  }

  /** With at most 2K threads no run, whatever the signals wake and however many
      spurious wakeups it has, puts all threads to sleep. */
  lemma NoDeadlock(s0: State, s: State)
    requires Initial(s0) && Looping(s0) && C.Small(Setting(s0))
    requires Runs.Reaches(Step, s0, s)
    ensures !AllAsleep(s)
  {
    InitialInv(s0);
    NobodyAsleep(s0.threads);
    forall s, s' | SafeState(s) && Step(s, s') ensures SafeState(s') {
      var a :| Enabled(s, a) && s' == Next(s, a);
      StepKeepsInv(s, a);
      StepSimulated(s, a);
      if Counted(s') != Counted(s) {
        C.StepKeepsSafe(Setting(s), Counted(s), Counted(s'));
      }
    }
    Runs.InvariantOfReach(Step, SafeState, s0, s);
    if AllAsleep(s) {
      AllAsleepCounts(s.threads);
    }
  }

  // Lifting counted runs back to runs of the threads.

  lemma {:induction false} OperationCounts(ts: seq<Thread>, t: nat, woken: Option<nat>)
    requires t < |ts| && CanRun(ts[t]) && WakesOne(ts, woken)
    ensures var us := Wake(ts[t := After(ts[t])], woken);
            && Count(us, IsProducer) == Count(ts, IsProducer) && Count(us, IsConsumer) == Count(ts, IsConsumer)
            && Count(us, ProducerAsleep) == Count(ts, ProducerAsleep)
                 - (if woken.Some? && ts[woken.value].role == Producer then 1 else 0)
            && Count(us, ConsumerAsleep) == Count(ts, ConsumerAsleep)
                 - (if woken.Some? && ts[woken.value].role == Consumer then 1 else 0)
  {
    var vs := ts[t := After(ts[t])];
    CountsAfterUpdate(ts, t, After(ts[t]));
    if woken.Some? {
      CountsAfterUpdate(vs, woken.value, vs[woken.value].(pc := Woken));
    }
  }

  /** A sleeper whose waking gives the counts wanted. */
  lemma ChooseSleeper(s: State, w: C.Counts) returns (woken: Option<nat>)
    requires C.WakesAny(Counted(s), w)
    ensures WakesOne(s.threads, woken)
    ensures w.wp == Counted(s).wp - (if woken.Some? && s.threads[woken.value].role == Producer then 1 else 0)
    ensures w.wc == Counted(s).wc - (if woken.Some? && s.threads[woken.value].role == Consumer then 1 else 0)
  {
    if w.wp == Counted(s).wp - 1 {
      var i := CountWitness(s.threads, ProducerAsleep);
      woken := Some(i);
    } else if w.wc == Counted(s).wc - 1 {
      var i := CountWitness(s.threads, ConsumerAsleep);
      woken := Some(i);
    } else {
      woken := None;
      forall t | 0 <= t < |s.threads| ensures !IsAsleep(s.threads[t]) {
        AwakeOrAsleepCounts(s.threads, t);
      }
    }
  }

  /** An awake thread of the role that takes the counted step. */
  lemma {:induction false} ChooseThread(s: State, w: C.Counts) returns (t: nat)
    requires Quiescent(s) && Looping(s) && C.QuietStep(Setting(s), Counted(s), w)
    ensures t < |s.threads| && CanRun(s.threads[t])
    ensures var g, v := Setting(s), Counted(s);
            if s.threads[t].role == Producer then C.PushStep(g, v, w) || C.ProducerSleeps(g, v, w)
            else C.PopStep(g, v, w) || C.ConsumerSleeps(g, v, w)
  {
    var v, g := Counted(s), Setting(s);
    if C.PushStep(g, v, w) || C.ProducerSleeps(g, v, w) {
      t := CountFewer(s.threads, ProducerAsleep, IsProducer);
    } else {
      t := CountFewer(s.threads, ConsumerAsleep, IsConsumer);
    }
    assert !IsAsleep(s.threads[t]) && s.threads[t].left == Forever;
  }

  lemma {:induction false} LoopingAfter(ts: seq<Thread>, t: nat, woken: Option<nat>)
    requires t < |ts| && WakesOne(ts, woken) && forall i :: 0 <= i < |ts| ==> ts[i].left == Forever
    ensures var us := Wake(ts[t := After(ts[t])], woken); forall i :: 0 <= i < |us| ==> us[i].left == Forever
  {
  }

  lemma {:induction false} LiftOperation(s0: State, s: State, t: nat, w: C.Counts) returns (s': State)
    requires Runs.Reaches(Quiet, s0, s) && Quiescent(s) && Looping(s)
    requires t < |s.threads| && CanRun(s.threads[t]) && !Blocked(s, t) && C.WakesAny(Counted(s), w)
    requires w.n == s.mem.index + (if s.threads[t].role == Producer then 1 else -1)
    ensures Runs.Reaches(Quiet, s0, s') && Quiescent(s') && Looping(s') && Setting(s') == Setting(s) && Counted(s') == w
  {
    var woken := ChooseSleeper(s, w);
    s' := Completes(s0, s, t, woken);
    LoopingAfter(s.threads, t, woken);
    OperationCounts(s.threads, t, woken);
  }

  lemma {:induction false} LiftSleep(s0: State, s: State, t: nat) returns (s': State)
    requires Runs.Reaches(Quiet, s0, s) && Quiescent(s) && Looping(s)
    requires t < |s.threads| && CanRun(s.threads[t]) && Blocked(s, t)
    ensures Runs.Reaches(Quiet, s0, s') && Quiescent(s') && Looping(s') && Setting(s') == Setting(s)
    ensures var v := Counted(s);
            Counted(s') == if s.threads[t].role == Producer then v.(wp := v.wp + 1) else v.(wc := v.wc + 1)
  {
    s' := GoesToSleep(s0, s, t);
    CountsAfterUpdate(s.threads, t, s.threads[t].(pc := Asleep));
  }

  lemma {:induction false} LiftStep(s0: State, s: State, w: C.Counts) returns (s': State)
    requires Runs.Reaches(Quiet, s0, s) && Quiescent(s) && Looping(s) && C.QuietStep(Setting(s), Counted(s), w)
    ensures Runs.Reaches(Quiet, s0, s') && Quiescent(s') && Looping(s') && Setting(s') == Setting(s) && Counted(s') == w
  {
    var t := ChooseThread(s, w);
    if Blocked(s, t) {
      s' := LiftSleep(s0, s, t);
    } else {
      s' := LiftOperation(s0, s, t, w);
    }
  }

  lemma {:induction false} LiftRun(s0: State, run: seq<C.Counts>, i: nat) returns (s: State)
    requires Quiescent(s0) && Looping(s0) && i < |run| && run[0] == Counted(s0)
    requires Runs.IsRun((x, y) => C.QuietStep(Setting(s0), x, y), run)
    ensures Runs.Reaches(Quiet, s0, s) && Quiescent(s) && Looping(s)
    ensures Setting(s) == Setting(s0) && Counted(s) == run[i]
  {
    if i == 0 {
      s := s0;
      Runs.ReachesSelf(Quiet, s0);
    } else {
      var r := LiftRun(s0, run, i - 1);
      assert ((x, y) => C.QuietStep(Setting(s0), x, y))(run[i - 1], run[i - 1 + 1]);
      s := LiftStep(s0, r, run[i]);
    }
  }

  /** With more than 2K threads, some run without spurious wakeups puts them all to
      sleep: the bound is tight for every capacity and every mix of threads. */
  lemma Deadlock(s0: State) returns (s: State)
    requires Initial(s0) && Looping(s0)
    requires var g := Setting(s0); g.K >= 1 && g.p >= 1 && g.c >= 1 && g.p + g.c > 2 * g.K
    ensures Runs.Reaches(Quiet, s0, s) && AllAsleep(s)
  {
    var g := Setting(s0);
    InitialInv(s0);
    NobodyAsleep(s0.threads);
    var n := C.DeadlockReachable(g);
    var run :| Runs.IsRun((x, y) => C.QuietStep(g, x, y), run) && run[0] == C.Counts(0, 0, 0)
               && run[|run| - 1] == C.Counts(n, g.p, g.c);
    s := LiftRun(s0, run, |run| - 1);
    forall t | 0 <= t < |s.threads| ensures IsAsleep(s.threads[t]) {
      AwakeOrAsleepCounts(s.threads, t);
    }
  }

  /** The exact bound: looping producers and consumers can all fall asleep, with or
      without spurious wakeups, exactly when they number more than twice the
      capacity. */
  lemma DeadlockIff(s0: State)
    requires Initial(s0) && Looping(s0)
    requires Setting(s0).K >= 1 && Setting(s0).p >= 1 && Setting(s0).c >= 1
    ensures (exists s :: Runs.Reaches(Step, s0, s) && AllAsleep(s)) <==>
              Setting(s0).p + Setting(s0).c > 2 * Setting(s0).K
    ensures (exists s :: Runs.Reaches(Quiet, s0, s) && AllAsleep(s)) <==>
              Setting(s0).p + Setting(s0).c > 2 * Setting(s0).K
  {
    forall s | Runs.Reaches(Quiet, s0, s) ensures Runs.Reaches(Step, s0, s) {
      Runs.ReachesMore(Quiet, Step, s0, s);
    }
    if Setting(s0).p + Setting(s0).c > 2 * Setting(s0).K {
      var s := Deadlock(s0);
    } else {
      forall s | Runs.Reaches(Step, s0, s) ensures !AllAsleep(s) {
        NoDeadlock(s0, s);
      }
    }
  }
}
