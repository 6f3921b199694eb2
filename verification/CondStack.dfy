/** The condition-variable stack as a system of threads.  Each action is what one
    thread does between two points at which another thread may run. */
module CondStack {
  import opened Options
  import opened LifoStack
  import opened Roles
  import opened StackMemory
  import Runs

  /** Woken threads have left the condition queue but have not got the mutex back. */
  datatype Pc = Outside | Testing | Signalling | Unlocking | Asleep | Woken | Finished

  datatype Left = Forever | Items(n: nat)

  datatype Thread = Thread(role: Role, pc: Pc, left: Left)

  datatype State = State(mem: Memory, owner: Option<nat>, threads: seq<Thread>, log: seq<Op>)

  datatype Action =
    | Lock(t: nat)
    | Attempt(t: nat, c: char)
    | Signal(t: nat, woken: Option<nat>)
    | Unlock(t: nat)
    | Spurious(t: nat)

  predicate Holds(pc: Pc) {
    pc == Testing || pc == Signalling || pc == Unlocking
  }

  function Spend(left: Left): Left {
    match left
    case Forever => Forever
    case Items(n) => Items(if n > 0 then n - 1 else 0)
  }

  function SetPc(ts: seq<Thread>, t: nat, pc: Pc): seq<Thread>
    requires t < |ts|
  {
    ts[t := ts[t].(pc := pc)]
  }

  predicate Blocked(s: State, t: nat)
    requires t < |s.threads|
  {
    match s.threads[t].role
    case Producer => s.mem.index == |s.mem.buffer|
    case Consumer => s.mem.index == 0
  }

  predicate IsAsleep(th: Thread) { th.pc == Asleep }

  /** A signal wakes one sleeper, any one of them, when there is a sleeper. */
  predicate WakesOne(ts: seq<Thread>, woken: Option<nat>) {
    match woken
    case Some(w) => w < |ts| && IsAsleep(ts[w])
    case None => forall w :: 0 <= w < |ts| ==> !IsAsleep(ts[w])
  }

  predicate Enabled(s: State, a: Action) {
    && a.t < |s.threads|
    && var pc := s.threads[a.t].pc;
       match a
       case Lock(t) => s.owner == None && (pc == Outside || pc == Woken)
       case Attempt(t, c) => pc == Testing
       case Signal(t, woken) =>
         pc == Signalling && WakesOne(s.threads, woken)
       case Unlock(t) => pc == Unlocking
       case Spurious(t) => pc == Asleep
  }

  function AttemptNext(s: State, t: nat, c: char): State
    requires t < |s.threads| && s.mem.Valid()
  {
    var th := s.threads[t];
    if Blocked(s, t) then
      s.(owner := None, threads := SetPc(s.threads, t, Asleep))
    else
      var after := s.threads[t := Thread(th.role, Signalling, Spend(th.left))];
      match th.role
      case Producer => s.(mem := s.mem.Store(c), threads := after, log := s.log + [Push(c)])
      case Consumer => s.(mem := s.mem.Take(), threads := after, log := s.log + [Pop(s.mem.Top())])
  }

  function Next(s: State, a: Action): State
    requires s.mem.Valid() && Enabled(s, a)
  {
    match a
    case Lock(t) => s.(owner := Some(t), threads := SetPc(s.threads, t, Testing))
    case Attempt(t, c) => AttemptNext(s, t, c)
    case Signal(t, woken) =>
      var ts := match woken case Some(w) => SetPc(s.threads, w, Woken) case None => s.threads;
      s.(threads := SetPc(ts, t, Unlocking))
    case Unlock(t) =>
      var th := s.threads[t];
      s.(owner := None, threads := SetPc(s.threads, t, if th.left == Items(0) then Finished else Outside))
    case Spurious(t) => s.(threads := SetPc(s.threads, t, Woken))
  }

  ghost predicate Step(s: State, s': State) {
    s.mem.Valid() && exists a :: Enabled(s, a) && s' == Next(s, a)
  }

  /** A step that is not a spurious wakeup. */
  ghost predicate Quiet(s: State, s': State) {
    s.mem.Valid() && exists a :: Enabled(s, a) && !a.Spurious? && s' == Next(s, a)
  }

  predicate Initial(s: State) {
    && s.mem.index == 0 && s.owner == None && s.log == []
    && forall t :: 0 <= t < |s.threads| ==>
         s.threads[t].pc == if s.threads[t].left == Items(0) then Finished else Outside
  }

  /** The mutex is held exactly by the thread inside the critical section. */
  predicate MutualExclusion(s: State) {
    && (s.owner.Some? ==> s.owner.value < |s.threads|)
    && forall t :: 0 <= t < |s.threads| ==> (Holds(s.threads[t].pc) <==> s.owner == Some(t))
  }

  predicate Budgeted(th: Thread) {
    && (th.pc in {Outside, Testing, Asleep, Woken} ==> th.left != Items(0))
    && (th.pc == Finished ==> th.left == Items(0))
  }

  ghost predicate Inv(s: State) {
    && s.mem.Valid()
    && Replay(|s.mem.buffer|, s.log) == Some(s.mem.Contents())
    && MutualExclusion(s)
    && forall t :: 0 <= t < |s.threads| ==> Budgeted(s.threads[t])
  }

  lemma InitialInv(s: State)
    requires Initial(s)
    ensures Inv(s)
  {
  }

  lemma {:induction false} AttemptKeepsLog(s: State, t: nat, c: char)
    requires s.mem.Valid() && Enabled(s, Attempt(t, c)) && !Blocked(s, t)
    requires Replay(|s.mem.buffer|, s.log) == Some(s.mem.Contents())
    ensures var s' := Next(s, Attempt(t, c));
            && s'.mem.Valid() && |s'.mem.buffer| == |s.mem.buffer|
            && Replay(|s'.mem.buffer|, s'.log) == Some(s'.mem.Contents())
  {
    match s.threads[t].role
    case Producer =>
      StoreIsPush(s.mem, c);
      ReplaySnoc(|s.mem.buffer|, s.log, Push(c));
    case Consumer =>
      TakeIsPop(s.mem);
      ReplaySnoc(|s.mem.buffer|, s.log, Pop(s.mem.Top()));
  }

  lemma StepKeepsInv(s: State, a: Action)
    requires Inv(s) && Enabled(s, a)
    ensures Inv(Next(s, a))
    ensures |Next(s, a).mem.buffer| == |s.mem.buffer| && |Next(s, a).threads| == |s.threads|
  {
    if a.Attempt? && !Blocked(s, a.t) {
      AttemptKeepsLog(s, a.t, a.c);
    }
  }

  /** Refinement: a step of the threads is one operation of the abstract stack, made
      while its thread holds the mutex, or leaves the abstract stack unchanged.  A push is
      of the character the caller gave, a pop returns what lies on top. */
  lemma StepRefines(s: State, a: Action)
    requires Inv(s) && Enabled(s, a)
    ensures Next(s, a).mem.Valid()
    ensures var xs, ys, K := s.mem.Contents(), Next(s, a).mem.Contents(), |s.mem.buffer|;
            if a.Attempt? && !Blocked(s, a.t) then
              && s.owner == Some(a.t)
              && match s.threads[a.t].role
                 case Producer =>
                   && Next(s, a).log == s.log + [Push(a.c)]
                   && Apply(K, xs, Push(a.c)) == Some(ys)
                 case Consumer =>
                   && xs != [] && Next(s, a).log == s.log + [Pop(xs[|xs| - 1])]
                   && Apply(K, xs, Pop(xs[|xs| - 1])) == Some(ys)
            else Next(s, a).log == s.log && ys == xs
  {
    StepKeepsInv(s, a);
    if a.Attempt? && !Blocked(s, a.t) {
      match s.threads[a.t].role
      case Producer => StoreIsPush(s.mem, a.c);
      case Consumer => TakeIsPop(s.mem);
    }
  }

  /** In every reachable state: mutual exclusion, the index inside the buffer, every
      pop so far returned the latest unmatched push, and what was pushed is what was
      popped together with what is stored. */
  lemma RefinesLifoStack(s0: State, s: State)
    requires Initial(s0) && Runs.Reaches(Step, s0, s)
    ensures MutualExclusion(s) && s.mem.Valid()
    ensures Pushed(s.log) == Popped(s.log) + multiset(s.mem.Contents())
    ensures forall j :: 0 <= j < |s.log| && s.log[j].Pop? ==>
              exists i: nat :: LatestUnmatched(s.log, i, j) && s.log[i].item == s.log[j].item
  {
    InitialInv(s0);
    forall s, s' | Inv(s) && Step(s, s') ensures Inv(s') {
      var a :| Enabled(s, a) && s' == Next(s, a);
      StepKeepsInv(s, a);
    }
    Runs.InvariantOfReach(Step, Inv, s0, s);
    Conservation(|s.mem.buffer|, s.log);
    forall j | 0 <= j < |s.log| && s.log[j].Pop?
      ensures exists i: nat :: LatestUnmatched(s.log, i, j) && s.log[i].item == s.log[j].item
    {
      PopReturnsLatestPush(|s.mem.buffer|, s.log, j);
    }
  }

  /** Without spurious wakeups nothing can happen exactly when every thread sleeps
      or has finished. */
  lemma StuckIffAllAsleep(s: State)
    requires Inv(s)
    ensures (exists s' :: Quiet(s, s')) <==>
            exists t :: 0 <= t < |s.threads| && !IsAsleep(s.threads[t]) && s.threads[t].pc != Finished
  {
    if t :| 0 <= t < |s.threads| && !IsAsleep(s.threads[t]) && s.threads[t].pc != Finished {
      var a := EnabledAction(s, t);
      assert Quiet(s, Next(s, a));
    }
    if s' :| Quiet(s, s') {
      var a :| Enabled(s, a) && !a.Spurious? && s' == Next(s, a);
      assert !IsAsleep(s.threads[a.t]);
    }
  }

  /** A thread is held up by nothing but its sleep and the mutex. */
  lemma {:induction false} ThreadMovesIff(s: State, t: nat)
    requires Inv(s) && t < |s.threads|
    ensures (exists a: Action :: a.t == t && !a.Spurious? && Enabled(s, a)) <==>
              match s.threads[t].pc
              case Asleep => false
              case Finished => false
              case Outside => s.owner == None
              case Woken => s.owner == None
              case _ => true
  {
    if s.threads[t].pc == Outside || s.threads[t].pc == Woken {
      assert s.owner == None ==> Enabled(s, Lock(t));
    } else if s.threads[t].pc != Asleep && s.threads[t].pc != Finished {
      var a := EnabledAction(s, t);
      assert s.owner == Some(t);
      assert a.t == t;
    }
  }

  /** Any sleeper can wake for no reason, and any sleeper can be the one a signal wakes. */
  lemma AnySleeperWakes(s: State, w: nat)
    requires Inv(s) && w < |s.threads| && IsAsleep(s.threads[w])
    ensures Step(s, s.(threads := SetPc(s.threads, w, Woken)))
    ensures forall t :: 0 <= t < |s.threads| && s.threads[t].pc == Signalling ==>
              Quiet(s, s.(threads := SetPc(SetPc(s.threads, w, Woken), t, Unlocking)))
  {
    assert Enabled(s, Spurious(w)) && Next(s, Spurious(w)) == s.(threads := SetPc(s.threads, w, Woken));
    forall t | 0 <= t < |s.threads| && s.threads[t].pc == Signalling
      ensures Quiet(s, s.(threads := SetPc(SetPc(s.threads, w, Woken), t, Unlocking)))
    {
      assert Enabled(s, Signal(t, Some(w)));
      assert Next(s, Signal(t, Some(w))) == s.(threads := SetPc(SetPc(s.threads, w, Woken), t, Unlocking));
    }
  }

  lemma EnabledAction(s: State, t: nat) returns (a: Action)
    requires Inv(s) && t < |s.threads| && !IsAsleep(s.threads[t]) && s.threads[t].pc != Finished
    ensures Enabled(s, a) && !a.Spurious? && a.t == (if s.owner == None then t else s.owner.value)
  {
    if s.owner == None {
      a := Lock(t);
    } else {
      var u := s.owner.value;
      assert Holds(s.threads[u].pc);
      if s.threads[u].pc == Testing {
        a := Attempt(u, 'x');
      } else if s.threads[u].pc == Unlocking {
        a := Unlock(u);
      } else if w :| 0 <= w < |s.threads| && IsAsleep(s.threads[w]) {
        a := Signal(u, Some(w));
      } else {
        a := Signal(u, None);
      }
    }
  }
}
