/** Parent and child sending each other one signal in turn.  A signal that arrives while
    another is pending is lost; both versions of the program rely on that never
    happening.  They differ only in how a process waits. */
module PingPong {
  import Runs

  datatype Mode = SigSuspend | SigWaitInfo

  /** Entering: about to wait, with the signal blocked.  Suspended: asleep with the signal
      unblocked.  Handling: from the delivery until sigsuspend returns. */
  datatype Pc = Sending | Entering | Suspended | Handling | Exited

  datatype Proc = Proc(pc: Pc, scnt: nat, pending: bool)

  datatype Who = Parent | Child

  datatype Event = Sent(who: Who) | Got(who: Who)

  datatype State = State(
    mode: Mode, numSigs: nat, parent: Proc, child: Proc, log: seq<Event>, merged: bool, failed: bool)

  datatype Action = Kill(who: Who) | Suspend(who: Who) | Deliver(who: Who) | Return(who: Who) | Accept(who: Who)

  function Me(s: State, who: Who): Proc {
    if who == Parent then s.parent else s.child
  }

  function Peer(who: Who): Who {
    if who == Parent then Child else Parent
  }

  function With(s: State, who: Who, p: Proc): State {
    if who == Parent then s.(parent := p) else s.(child := p)
  }

  predicate Enabled(s: State, a: Action) {
    var p := Me(s, a.who);
    match a
    case Kill(_) => p.pc == Sending
    case Suspend(_) => s.mode == SigSuspend && p.pc == Entering
    case Deliver(_) => p.pc == Suspended && p.pending
    case Return(_) => p.pc == Handling
    case Accept(_) => s.mode == SigWaitInfo && p.pc == Entering && p.pending
  }

  /** The end of one turn of the loop. */
  function Turned(s: State, p: Proc, first: Pc): Proc {
    p.(scnt := p.scnt + 1, pc := if p.scnt + 1 < s.numSigs then first else Exited)
  }

  /** After its wait the parent sends; the child has finished its turn. */
  function Waited(s: State, who: Who, p: Proc): Proc {
    if who == Parent then p.(pc := Sending) else Turned(s, p, Sending)
  }

  function Killed(s: State, who: Who, p: Proc): Proc {
    if who == Parent then Turned(s, p, Entering) else p.(pc := Entering)
  }

  /** The signal reaches the target, unless it is gone or already has one pending. */
  function AfterKill(s: State, who: Who): State {
    var target := Me(s, Peer(who));
    var sent := With(s, who, Killed(s, who, Me(s, who))).(log := s.log + [Sent(who)]);
    if target.pc == Exited then sent.(failed := true)
    else With(sent, Peer(who), target.(pending := true)).(merged := s.merged || target.pending)
  }

  function Next(s: State, a: Action): State
    requires Enabled(s, a)
  {
    var p := Me(s, a.who);
    match a
    case Kill(who) => AfterKill(s, who)
    case Suspend(who) => With(s, who, p.(pc := Suspended))
    case Deliver(who) => With(s, who, p.(pc := Handling, pending := false)).(log := s.log + [Got(who)])
    case Return(who) => With(s, who, Waited(s, who, p))
    case Accept(who) => With(s, who, Waited(s, who, p.(pending := false))).(log := s.log + [Got(who)])
  }

  ghost predicate Step(s: State, s': State) {
    exists a :: Enabled(s, a) && s' == Next(s, a)
  }

  predicate Initial(s: State, mode: Mode, numSigs: nat) {
    numSigs > 0 && s == State(mode, numSigs, Proc(Entering, 0, false), Proc(Sending, 0, false), [], false, false)
  }

  /** The abstract protocol: one token going round, child to parent and back. */
  function EventAt(j: nat): Event {
    match j % 4
    case 0 => Sent(Child)
    case 1 => Got(Parent)
    case 2 => Sent(Parent)
    case _ => Got(Child)
  }

  function Script(j: nat): seq<Event> {
    if j == 0 then [] else Script(j - 1) + [EventAt(j - 1)]
  }

  predicate Waiting(p: Proc, pending: bool) {
    (p.pc == Entering || p.pc == Suspended) && p.pending == pending
  }

  predicate Holding(p: Proc) {
    (p.pc == Handling || p.pc == Sending) && !p.pending
  }

  predicate HasExited(p: Proc) {
    p.pc == Exited && !p.pending
  }

  /** Where the two processes are after j events, by the phase of the round. */
  predicate AtPhase(s: State, round: nat, phase: nat) {
    var p, c := s.parent, s.child;
    if phase == 0 then
      && (if round < s.numSigs then Waiting(p, false) && p.scnt == round
          else HasExited(p) && p.scnt == s.numSigs == round)
      && !c.pending
      && (|| (c.pc == Handling && c.scnt + 1 == round)
          || (c.pc == (if round < s.numSigs then Sending else Exited) && c.scnt == round))
    else if phase == 1 then
      round < s.numSigs && Waiting(p, true) && Waiting(c, false) && p.scnt == c.scnt == round
    else if phase == 2 then
      round < s.numSigs && Holding(p) && Waiting(c, false) && p.scnt == c.scnt == round
    else
      && round < s.numSigs && Waiting(c, true) && c.scnt == round && p.scnt == round + 1
      && if round + 1 < s.numSigs then Waiting(p, false) else HasExited(p)
  }

  ghost predicate Inv(s: State) {
    && s.numSigs > 0 && !s.merged && !s.failed
    && s.log == Script(|s.log|)
    && AtPhase(s, |s.log| / 4, |s.log| % 4)
  }

  predicate IsEvent(a: Action) { a.Kill? || a.Deliver? || a.Accept? }

  lemma {:induction false} StepMovesToken(s: State, a: Action, round: nat, phase: nat)
    requires AtPhase(s, round, phase) && phase < 4 && s.numSigs > 0 && !s.merged && !s.failed && Enabled(s, a)
    ensures var s' := Next(s, a);
            && !s'.merged && !s'.failed
            && if IsEvent(a) then
                 && round < s.numSigs && s'.log == s.log + [EventAt(phase)]
                 && (if phase < 3 then AtPhase(s', round, phase + 1) else AtPhase(s', round + 1, 0))
               else s'.log == s.log && AtPhase(s', round, phase)
  {
  }

  /** A step is one step of the abstract protocol, or none. */
  lemma {:induction false} StepKeepsInv(s: State, a: Action)
    requires Inv(s) && Enabled(s, a)
    ensures Inv(Next(s, a)) && Next(s, a).mode == s.mode && Next(s, a).numSigs == s.numSigs
    ensures Next(s, a).log == s.log || (Next(s, a).log == s.log + [EventAt(|s.log|)] && |s.log| < 4 * s.numSigs)
  {
    StepMovesToken(s, a, |s.log| / 4, |s.log| % 4);
    var s' := Next(s, a);
    if IsEvent(a) {
      assert EventAt(|s.log| % 4) == EventAt(|s.log|);
      assert |s'.log| == |s.log| + 1 && |s'.log| - 1 == |s.log|;
    }
  }

  lemma InitialInv(s: State, mode: Mode, numSigs: nat)
    requires Initial(s, mode, numSigs)
    ensures Inv(s)
  {
  }

  ghost predicate Good(mode: Mode, numSigs: nat, s: State) {
    Inv(s) && s.mode == mode && s.numSigs == numSigs
  }

  lemma ReachableGood(s0: State, mode: Mode, numSigs: nat, s: State)
    requires Initial(s0, mode, numSigs) && Runs.Reaches(Step, s0, s)
    ensures Good(mode, numSigs, s)
  {
    var good := x => Good(mode, numSigs, x);
    forall x, y | good(x) && Step(x, y) ensures good(y) {
      var a :| Enabled(x, a) && y == Next(x, a);
      StepKeepsInv(x, a);
    }
    Runs.InvariantOfReach(Step, good, s0, s);
  }

  function Tokens(s: State): nat {
    (if s.parent.pending then 1 else 0) + (if s.child.pending then 1 else 0)
    + (if s.parent.pc == Handling || s.parent.pc == Sending then 1 else 0)
    + (if s.child.pc == Handling || s.child.pc == Sending then 1 else 0)
  }

  /** Whichever way they wait, the processes follow the one script; the token is a pending
      signal or a process about to send, and until the child has exited there is exactly
      one; no signal is merged with a pending one, and none is sent to a process gone. */
  lemma OneToken(s0: State, mode: Mode, numSigs: nat, s: State)
    requires Initial(s0, mode, numSigs) && Runs.Reaches(Step, s0, s)
    ensures s.log == Script(|s.log|) && |s.log| <= 4 * numSigs
    ensures Tokens(s) == if s.child.pc == Exited then 0 else 1
    ensures !s.merged && !s.failed
    ensures s.child.pc == Exited ==> s.parent.pc == Exited
  {
    ReachableGood(s0, mode, numSigs, s);
  }

  predicate BothExited(s: State) {
    s.parent.pc == Exited && s.child.pc == Exited
  }

  function Acting(s: State, who: Who): Action {
    match Me(s, who).pc
    case Sending => Kill(who)
    case Handling => Return(who)
    case Suspended => Deliver(who)
    case _ => if s.mode == SigSuspend then Suspend(who) else Accept(who)
  }

  /** A process is held up by nothing but the lack of a signal where it waits for one. */
  lemma {:induction false} ProcessMovesIff(s: State, who: Who)
    ensures (exists a: Action :: a.who == who && Enabled(s, a)) <==>
              match Me(s, who).pc
              case Exited => false
              case Suspended => Me(s, who).pending
              case Entering => s.mode == SigSuspend || Me(s, who).pending
              case _ => true
  {
    assert Acting(s, who).who == who;
  }

  /** No run gets stuck before both have exited. */
  lemma StuckIffBothExited(s0: State, mode: Mode, numSigs: nat, s: State)
    requires Initial(s0, mode, numSigs) && Runs.Reaches(Step, s0, s)
    ensures (exists s' :: Step(s, s')) <==> !BothExited(s)
  {
    ReachableGood(s0, mode, numSigs, s);
    if !BothExited(s) {
      var phase := |s.log| % 4;
      var who := if phase == 1 || phase == 2 then Parent else Child;
      assert Enabled(s, Acting(s, who));
      assert Step(s, Next(s, Acting(s, who)));
    }
  }

  /** sigwaitinfo takes the signal without ever suspending the process. */
  predicate WaitsAs(mode: Mode, s: State) {
    && s.mode == mode
    && (mode == SigWaitInfo ==>
          s.parent.pc in {Sending, Entering, Exited} && s.child.pc in {Sending, Entering, Exited})
  }

  lemma {:induction false} StepWaitsAs(mode: Mode, s: State, a: Action, who: Who)
    requires WaitsAs(mode, s) && Enabled(s, a)
    ensures WaitsAs(mode, Next(s, a))
    ensures Next(s, a).log == s.log + [Got(who)] ==>
              && a.who == who
              && if mode == SigSuspend then
                   a.Deliver? && Me(s, who).pc == Suspended && Me(Next(s, a), who).pc == Handling
                 else Me(s, who).pc == Entering && Me(Next(s, a), who).pc != Entering
  {
    if Next(s, a).log == s.log + [Got(who)] {
      assert Next(s, a).log[|s.log|] == Got(who);
    }
  }

  /** With sigwaitinfo no process is ever suspended or in the handler, and a receipt ends
      its turn at once.  With sigsuspend every receipt takes a suspended process into the
      handler. */
  lemma {:induction false} ModeDecidesWaiting(s0: State, mode: Mode, numSigs: nat, s: State, s': State, who: Who)
    requires Initial(s0, mode, numSigs) && Runs.Reaches(Step, s0, s) && Step(s, s')
    ensures mode == SigWaitInfo ==> Me(s, who).pc != Suspended && Me(s, who).pc != Handling
    ensures s'.log == s.log + [Got(who)] ==>
              if mode == SigSuspend then Me(s, who).pc == Suspended && Me(s', who).pc == Handling
              else Me(s, who).pc == Entering && Me(s', who).pc != Entering
  {
    var waits := x => WaitsAs(mode, x);
    forall x, y | waits(x) && Step(x, y) ensures waits(y) {
      var a :| Enabled(x, a) && y == Next(x, a);
      StepWaitsAs(mode, x, a, who);
    }
    Runs.InvariantOfReach(Step, waits, s0, s);
    var a :| Enabled(s, a) && s' == Next(s, a);
    StepWaitsAs(mode, s, a, who);
  }

  /** What a process has still to do. */
  function Work(numSigs: nat, p: Proc, first: Pc): int {
    4 * (numSigs - p.scnt)
    - (match p.pc
       case Exited => 0
       case Sending => if first == Sending then 0 else 3
       case Entering => if first == Sending then 1 else 0
       case Suspended => if first == Sending then 2 else 1
       case Handling => if first == Sending then 3 else 2)
  }

  function TotalWork(s: State): int {
    Work(s.numSigs, s.parent, Entering) + Work(s.numSigs, s.child, Sending)
  }

  function Measure(s: State): nat {
    if TotalWork(s) >= 0 then TotalWork(s) else 0
  }

  lemma {:induction false} StepLowersWork(s: State, a: Action)
    requires Enabled(s, a)
    ensures TotalWork(Next(s, a)) < TotalWork(s)
  {
  }

  lemma {:induction false} WorkIsNat(s: State, round: nat, phase: nat)
    requires AtPhase(s, round, phase) && phase < 4 && s.numSigs > 0
    ensures TotalWork(s) >= 0
  {
  }

  lemma StepLowersMeasure(s: State, a: Action)
    requires Inv(s) && Enabled(s, a)
    ensures Measure(Next(s, a)) < Measure(s)
  {
    var s' := Next(s, a);
    StepKeepsInv(s, a);
    WorkIsNat(s, |s.log| / 4, |s.log| % 4);
    WorkIsNat(s', |s'.log| / 4, |s'.log| % 4);
    StepLowersWork(s, a);
  }

  /** Every run ends, after at most eight steps for each of the signals. */
  lemma RunsAreBounded(s0: State, mode: Mode, numSigs: nat, run: seq<State>)
    requires Initial(s0, mode, numSigs) && Runs.IsRun(Step, run) && run[0] == s0
    ensures |run| - 1 <= 8 * numSigs
  {
    InitialInv(s0, mode, numSigs);
    forall x, y | Inv(x) && Step(x, y) ensures Inv(y) && Measure(y) < Measure(x) {
      var a :| Enabled(x, a) && y == Next(x, a);
      StepKeepsInv(x, a);
      StepLowersMeasure(x, a);
    }
    Runs.RunIsBounded(Step, Inv, Measure, run);
  }

  function Receipts(log: seq<Event>, who: Who): nat {
    if log == [] then 0 else Receipts(log[..|log| - 1], who) + (if log[|log| - 1] == Got(who) then 1 else 0)
  }

  lemma Quarters(j: nat)
    ensures (j + 1) / 4 == j / 4 + (if EventAt(j) == Got(Child) then 1 else 0)
    ensures (j + 3) / 4 == (j + 2) / 4 + (if EventAt(j) == Got(Parent) then 1 else 0)
  {
    assert EventAt(j) == Got(Child) <==> j % 4 == 3;
    assert EventAt(j) == Got(Parent) <==> j % 4 == 1;
  }

  lemma {:induction false} CountsUp(f: nat -> nat, who: Who, j: nat)
    requires f(0) == 0 && forall i: nat :: f(i + 1) == f(i) + (if EventAt(i) == Got(who) then 1 else 0)
    ensures f(j) == if who == Child then j / 4 else (j + 2) / 4
  {
    if j > 0 {
      CountsUp(f, who, j - 1);
      Quarters(j - 1);
      assert f(j - 1 + 1) == f(j - 1) + (if EventAt(j - 1) == Got(who) then 1 else 0);
    }
  }

  lemma {:induction false} ScriptReceipts(numSigs: nat, who: Who)
    ensures Receipts(Script(4 * numSigs), who) == numSigs
  {
    var f := (j: nat) => Receipts(Script(j), who);
    forall i: nat ensures f(i + 1) == f(i) + (if EventAt(i) == Got(who) then 1 else 0) {
      ReceiptsSnoc(i, who);
    }
    CountsUp(f, who, 4 * numSigs);
  }

  lemma {:induction false} ReceiptsSnoc(j: nat, who: Who)
    ensures Receipts(Script(j + 1), who) == Receipts(Script(j), who) + (if EventAt(j) == Got(who) then 1 else 0)
  {
    assert Script(j + 1)[..|Script(j + 1)| - 1] == Script(j);
  }

  /** A finished run has the whole script behind it, so each side has received exactly
      numSigs signals, and the two versions exchange the same signals in the same order. */
  lemma CompleteExchange(s0: State, mode: Mode, numSigs: nat, s: State)
    requires Initial(s0, mode, numSigs) && Runs.Reaches(Step, s0, s) && BothExited(s)
    ensures s.log == Script(4 * numSigs)
    ensures Receipts(s.log, Parent) == numSigs && Receipts(s.log, Child) == numSigs
  {
    ReachableGood(s0, mode, numSigs, s);
    assert |s.log| / 4 == numSigs && |s.log| % 4 == 0;
    ScriptReceipts(numSigs, Parent);
    ScriptReceipts(numSigs, Child);
  }

  // The two loops as each process runs them.

  function Turn(who: Who): seq<Event> {
    if who == Parent then [Got(Parent), Sent(Parent)] else [Sent(Child), Got(Child)]
  }

  function Turns(who: Who, n: nat): seq<Event> {
    if n == 0 then [] else Turns(who, n - 1) + Turn(who)
  }

  /** The events of one process in a log. */
  function Own(log: seq<Event>, who: Who): seq<Event> {
    if log == [] then []
    else Own(log[..|log| - 1], who) + (if log[|log| - 1].who == who then [log[|log| - 1]] else [])
  }

  lemma {:induction false} OwnSnoc(j: nat, who: Who)
    ensures Own(Script(j + 1), who) == Own(Script(j), who) + (if EventAt(j).who == who then [EventAt(j)] else [])
  {
    assert Script(j + 1)[..|Script(j + 1)| - 1] == Script(j);
  }

  ghost predicate Grows(f: nat -> seq<Event>, who: Who) {
    f(0) == [] && forall i: nat :: f(i + 1) == f(i) + (if EventAt(i).who == who then [EventAt(i)] else [])
  }

  lemma {:induction false} OneRound(f: nat -> seq<Event>, who: Who, j: nat)
    requires Grows(f, who) && j % 4 == 0
    ensures f(j + 4) == f(j) + Turn(who)
  {
    assert f(j + 1) == f(j) + (if who == Child then [Sent(Child)] else []);
    assert f(j + 1 + 1) == f(j + 1) + (if who == Parent then [Got(Parent)] else []);
    assert f(j + 2 + 1) == f(j + 2) + (if who == Parent then [Sent(Parent)] else []);
    assert f(j + 3 + 1) == f(j + 3) + (if who == Child then [Got(Child)] else []);
  }

  lemma {:induction false} AllRounds(f: nat -> seq<Event>, who: Who, n: nat)
    requires Grows(f, who)
    ensures f(4 * n) == Turns(who, n)
  {
    if n > 0 {
      AllRounds(f, who, n - 1);
      OneRound(f, who, 4 * (n - 1));
    }
  }

  /** The whole script is, for each process, what its loop does on its own. */
  lemma {:induction false} ScriptFollowsLoops(numSigs: nat, who: Who)
    ensures Own(Script(4 * numSigs), who) == Turns(who, numSigs)
  {
    var f := (j: nat) => Own(Script(j), who);
    forall i: nat ensures f(i + 1) == f(i) + (if EventAt(i).who == who then [EventAt(i)] else []) {
      OwnSnoc(i, who);
    }
    AllRounds(f, who, numSigs);
  }

  lemma {:induction false} ScriptPrefix(j: nat, k: nat)
    requires j <= k
    ensures forall who :: Own(Script(j), who) <= Own(Script(k), who)
  {
    if j < k {
      ScriptPrefix(j, k - 1);
      OwnSnoc(k - 1, Parent);
      OwnSnoc(k - 1, Child);
    }
  }

  /** In every reachable state of either version what a process has done is a beginning of
      what its loop does on its own, and at the end it is all of that. */
  lemma ProcessFollowsLoop(s0: State, mode: Mode, numSigs: nat, s: State, who: Who)
    requires Initial(s0, mode, numSigs) && Runs.Reaches(Step, s0, s)
    ensures Own(s.log, who) <= Turns(who, numSigs)
    ensures BothExited(s) ==> Own(s.log, who) == Turns(who, numSigs)
  {
    OneToken(s0, mode, numSigs, s);
    ScriptPrefix(|s.log|, 4 * numSigs);
    ScriptFollowsLoops(numSigs, who);
    if BothExited(s) {
      CompleteExchange(s0, mode, numSigs, s);
    }
  }

  /** Events that are those of the process in every run of either version. */
  ghost predicate AreOwnEvents(who: Who, numSigs: nat, events: seq<Event>) {
    forall s0, mode, s :: Initial(s0, mode, numSigs) && Runs.Reaches(Step, s0, s) ==>
      Own(s.log, who) <= events && (BothExited(s) ==> Own(s.log, who) == events)
  }

  lemma LoopEvents(who: Who, numSigs: nat)
    ensures AreOwnEvents(who, numSigs, Turns(who, numSigs))
  {
    forall s0, mode, s | Initial(s0, mode, numSigs) && Runs.Reaches(Step, s0, s)
      ensures Own(s.log, who) <= Turns(who, numSigs) && (BothExited(s) ==> Own(s.log, who) == Turns(who, numSigs))
    {
      ProcessFollowsLoop(s0, mode, numSigs, s, who);
    }
  }

  /** The parent's loop, taken alone, does what the parent does in any run of the two
      processes, whatever the interleaving and whichever way they wait. */
  method ParentLoop(numSigs: nat) returns (events: seq<Event>)
    ensures AreOwnEvents(Parent, numSigs, events)
  {
    events := [];
    for scnt := 0 to numSigs
      invariant events == Turns(Parent, scnt)
    {
      events := events + [Got(Parent)];
      events := events + [Sent(Parent)];
    }
    LoopEvents(Parent, numSigs);
  }

  /** The same for the child's loop. */
  method ChildLoop(numSigs: nat) returns (events: seq<Event>)
    ensures AreOwnEvents(Child, numSigs, events)
  {
    events := [];
    for scnt := 0 to numSigs
      invariant events == Turns(Child, scnt)
    {
      events := events + [Sent(Child)];
      events := events + [Got(Child)];
    }
    LoopEvents(Child, numSigs);
  }
}
