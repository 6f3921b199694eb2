/** Whole operations of one thread, as runs of the system of threads. */
module CondLift {
  import opened Options
  import opened Roles
  import opened StackMemory
  import opened CondStack
  import Runs

  /** No thread is inside the critical section. */
  ghost predicate Quiescent(s: State) {
    Inv(s) && s.owner == None
  }

  predicate CanRun(th: Thread) {
    th.pc == Outside || th.pc == Woken
  }

  /** A thread after one operation. */
  function After(th: Thread): Thread {
    Thread(th.role, if Spend(th.left) == Items(0) then Finished else Outside, Spend(th.left))
  }

  function Wake(ts: seq<Thread>, woken: Option<nat>): seq<Thread>
    requires woken.Some? ==> woken.value < |ts|
  {
    if woken.Some? then SetPc(ts, woken.value, Woken) else ts
  }

  lemma {:induction false} QuietNext(s0: State, s: State, a: Action) returns (s': State)
    requires Runs.Reaches(Quiet, s0, s) && Inv(s) && Enabled(s, a) && !a.Spurious?
    ensures s' == Next(s, a) && Inv(s') && Runs.Reaches(Quiet, s0, s')
  {
    s' := Next(s, a);
    StepKeepsInv(s, a);
    assert Quiet(s, s');
    Runs.ReachesThen(Quiet, s0, s, s');
  }

  /** One thread goes to sleep. */
  lemma {:induction false} GoesToSleep(s0: State, s: State, t: nat) returns (s': State)
    requires Runs.Reaches(Quiet, s0, s) && Quiescent(s) && t < |s.threads| && CanRun(s.threads[t]) && Blocked(s, t)
    ensures Runs.Reaches(Quiet, s0, s') && Quiescent(s')
    ensures s'.mem == s.mem && s'.threads == SetPc(s.threads, t, Asleep)
  {
    s' := QuietNext(s0, s, Lock(t));
    s' := QuietNext(s0, s', Attempt(t, 'x'));
    assert s'.threads == SetPc(s.threads, t, Asleep);
  }

  function Operated(th: Thread): Thread {
    Thread(th.role, Signalling, Spend(th.left))
  }

  lemma {:induction false} AttemptEffect(s: State, t: nat)
    requires s.mem.Valid() && Enabled(s, Attempt(t, 'x')) && !Blocked(s, t)
    ensures var s' := Next(s, Attempt(t, 'x'));
            && |s'.mem.buffer| == |s.mem.buffer| && s'.threads == s.threads[t := Operated(s.threads[t])]
            && s'.mem.index == s.mem.index + (if s.threads[t].role == Producer then 1 else -1)
  {
  }

  /** One thread gets as far as its signal. */
  lemma {:induction false} Operates(s0: State, s: State, t: nat) returns (s': State)
    requires Runs.Reaches(Quiet, s0, s) && Quiescent(s) && t < |s.threads| && CanRun(s.threads[t]) && !Blocked(s, t)
    ensures Runs.Reaches(Quiet, s0, s') && Inv(s')
    ensures |s'.mem.buffer| == |s.mem.buffer| && s'.threads == s.threads[t := Operated(s.threads[t])]
    ensures s'.mem.index == s.mem.index + (if s.threads[t].role == Producer then 1 else -1)
  {
    var s1 := QuietNext(s0, s, Lock(t));
    AttemptEffect(s1, t);
    s' := QuietNext(s0, s1, Attempt(t, 'x'));
    assert SetPc(s.threads, t, Testing)[t := Operated(s.threads[t])] == s.threads[t := Operated(s.threads[t])];
  }

  /** It signals and releases the mutex. */
  lemma {:induction false} Announces(s0: State, s: State, t: nat, woken: Option<nat>) returns (s': State)
    requires Runs.Reaches(Quiet, s0, s) && Inv(s) && Enabled(s, Signal(t, woken))
    ensures Runs.Reaches(Quiet, s0, s') && Quiescent(s') && s'.mem == s.mem
    ensures var pc := if s.threads[t].left == Items(0) then Finished else Outside;
            s'.threads == SetPc(SetPc(Wake(s.threads, woken), t, Unlocking), t, pc)
  {
    var s1 := QuietNext(s0, s, Signal(t, woken));
    s' := QuietNext(s0, s1, Unlock(t));
  }

  /** One thread completes a whole operation, waking the given thread. */
  lemma {:induction false} Completes(s0: State, s: State, t: nat, woken: Option<nat>) returns (s': State)
    requires Runs.Reaches(Quiet, s0, s) && Quiescent(s) && t < |s.threads| && CanRun(s.threads[t]) && !Blocked(s, t)
    requires WakesOne(s.threads, woken)
    ensures Runs.Reaches(Quiet, s0, s') && Quiescent(s')
    ensures |s'.mem.buffer| == |s.mem.buffer|
    ensures s'.mem.index == s.mem.index + (if s.threads[t].role == Producer then 1 else -1)
    ensures s'.threads == Wake(s.threads[t := After(s.threads[t])], woken)
  {
    var s1 := Operates(s0, s, t);
    StillWakesOne(s.threads, t, woken);
    s' := Announces(s0, s1, t, woken);
    UnlockedThreads(s.threads, t, woken);
  }

  lemma {:induction false} StillWakesOne(ts: seq<Thread>, t: nat, woken: Option<nat>)
    requires t < |ts| && CanRun(ts[t]) && WakesOne(ts, woken)
    ensures WakesOne(ts[t := Operated(ts[t])], woken)
  {
  }

  lemma {:induction false} UnlockedThreads(ts: seq<Thread>, t: nat, woken: Option<nat>)
    requires t < |ts| && CanRun(ts[t]) && WakesOne(ts, woken)
    ensures SetPc(SetPc(Wake(ts[t := Operated(ts[t])], woken), t, Unlocking), t, After(ts[t]).pc)
            == Wake(ts[t := After(ts[t])], woken)
  {
  }
}
