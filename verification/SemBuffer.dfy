/** Producers and one consumer over a stack in shared memory, with one semaphore as a
    mutex and one counting the items announced.  The consumer reads the popped cell only
    after it has released the mutex, and this model keeps that order. */
module SemBuffer {
  import opened Sums

  /** A number in shared memory, with the producer that stored it and how many that one
      had stored before: what tells two equal numbers apart. */
  datatype Item = Item(owner: int, serial: nat, num: int)

  /** The contents of fresh shared memory. */
  const BLANK := Item(-1, 0, 0)

  datatype ProducerPc = Start | Testing | Retrying | Advancing | Leaving | Posting | Exited

  /** left counts the items not yet announced, made the numbers stored. */
  datatype Producer = Producer(pc: ProducerPc, left: nat, made: nat)

  datatype ConsumerPc =
    | WaitFull | WantMutex | Checking | BackingOff | GivingUp
    | Unlocking | Fetching | Copying(at: int) | Done

  /** popped is the item in the cell taken, cell its place; raced says that a producer has
      stored since then, stale that some read of the run so far came after such a store;
      missed adds up by how much the reads fell short of what was popped. */
  datatype Consumer = Consumer(
    pc: ConsumerPc, todo: nat, sum: int, popped: Item, cell: int, raced: bool, stale: bool, missed: int)

  datatype Owner = Nobody | ProducerOwns(t: nat) | ConsumerOwns

  /** pushed is the sum of all numbers stored so far. */
  datatype State = State(
    data: seq<Item>, index: int, full: nat, owner: Owner, producers: seq<Producer>, consumer: Consumer, pushed: int)

  datatype Action =
    | Lock(t: nat) | Test(t: nat, num: int) | Advance(t: nat) | Unlock(t: nat) | Post(t: nat)
    | Wait | Take | Check | Release | Fetch | Copy

  predicate Holds(pc: ProducerPc) { pc == Testing || pc == Retrying || pc == Advancing || pc == Leaving }

  predicate ConsumerHolds(pc: ConsumerPc) { pc == Checking || pc == BackingOff || pc == GivingUp || pc == Unlocking }

  predicate Enabled(s: State, a: Action) {
    match a
    case Lock(t) => t < |s.producers| && s.producers[t].pc == Start && s.owner == Nobody
    case Test(t, num) => t < |s.producers| && s.producers[t].pc == Testing && 0 <= num < 10
    case Advance(t) => t < |s.producers| && s.producers[t].pc == Advancing
    case Unlock(t) => t < |s.producers| && (s.producers[t].pc == Retrying || s.producers[t].pc == Leaving)
    case Post(t) => t < |s.producers| && s.producers[t].pc == Posting
    case Wait => s.consumer.pc == WaitFull && s.full > 0
    case Take => s.consumer.pc == WantMutex && s.owner == Nobody
    case Check => s.consumer.pc == Checking
    case Release => s.consumer.pc == BackingOff || s.consumer.pc == Unlocking || s.consumer.pc == GivingUp
    case Fetch => s.consumer.pc == Fetching
    case Copy => s.consumer.pc.Copying?
  }

  function With(s: State, t: nat, p: Producer): State
    requires t < |s.producers|
  {
    s.(producers := s.producers[t := p])
  }

  /** What a read of a cell gives; outside the segment nothing is promised. */
  function At(data: seq<Item>, i: int): Item {
    if 0 <= i < |data| then data[i] else BLANK
  }

  function Stored(data: seq<Item>, i: int, item: Item): seq<Item> {
    if 0 <= i < |data| then data[i := item] else data
  }

  predicate InWindow(pc: ConsumerPc) { pc == Fetching || pc.Copying? }

  /** The test of the loop, and the store when there is room. */
  function AfterTest(s: State, t: nat, num: int): State
    requires t < |s.producers|
  {
    var p := s.producers[t];
    if s.index == |s.data| - 1 then With(s, t, p.(pc := Retrying))
    else if s.index < |s.data| - 1 then
      var c := s.consumer;
      With(s, t, p.(pc := Advancing, made := p.made + 1))
        .(data := Stored(s.data, s.index, Item(t, p.made, num)), pushed := s.pushed + num,
          consumer := c.(raced := c.raced || InWindow(c.pc)))
    else With(s, t, p.(pc := Leaving))
  }

  function AfterCheck(s: State): State {
    var c := s.consumer;
    if s.index == 0 then s.(consumer := c.(pc := BackingOff))
    else if s.index > 0 then
      s.(index := s.index - 1,
         consumer := c.(pc := Unlocking, popped := At(s.data, s.index - 1), cell := s.index - 1, raced := false))
    else s.(consumer := c.(pc := GivingUp))
  }

  function ItemDone(c: Consumer, num: int): Consumer {
    c.(pc := if c.todo <= 1 then Done else WaitFull, todo := if c.todo > 0 then c.todo - 1 else 0, sum := c.sum + num,
       stale := c.stale || c.raced, missed := c.missed + c.popped.num - num)
  }

  function Next(s: State, a: Action): State
    requires Enabled(s, a)
  {
    var c := s.consumer;
    match a
    case Lock(t) => With(s, t, s.producers[t].(pc := Testing)).(owner := ProducerOwns(t))
    case Test(t, num) => AfterTest(s, t, num)
    case Advance(t) => With(s, t, s.producers[t].(pc := Leaving)).(index := s.index + 1)
    case Unlock(t) =>
      With(s, t, s.producers[t].(pc := if s.producers[t].pc == Retrying then Start else Posting)).(owner := Nobody)
    case Post(t) =>
      var p := s.producers[t];
      With(s, t, p.(pc := if p.left <= 1 then Exited else Start, left := if p.left > 0 then p.left - 1 else 0))
        .(full := s.full + 1)
    case Wait => s.(full := s.full - 1, consumer := c.(pc := WantMutex))
    case Take => s.(owner := ConsumerOwns, consumer := c.(pc := Checking))
    case Check => AfterCheck(s)
    case Release =>
      s.(owner := Nobody,
         consumer := if c.pc == BackingOff then c.(pc := WantMutex)
                     else if c.pc == Unlocking then c.(pc := Fetching)
                     else ItemDone(c, 0))
    case Fetch => s.(consumer := c.(pc := Copying(s.index)))
    case Copy => s.(consumer := ItemDone(c, At(s.data, c.pc.at).num))
  }

  ghost predicate Step(s: State, s': State) {
    exists a :: Enabled(s, a) && s' == Next(s, a)
  }

  /** M producers of N items each, and a stack of M cells. */
  predicate Initial(s: State, M: nat, N: nat) {
    && s.data == seq(M, _ => BLANK) && s.index == 0 && s.full == 0 && s.owner == Nobody && s.pushed == 0
    && s.producers == seq(M, _ => Producer(if N == 0 then Exited else Start, N, 0))
    && s.consumer == Consumer(if M * N == 0 then Done else WaitFull, M * N, 0, BLANK, 0, false, false, 0)
  }

  predicate AllDone(s: State) {
    && s.consumer.pc == Done
    && forall t :: 0 <= t < |s.producers| ==> s.producers[t].pc == Exited
  }

  predicate OfProducer(a: Action, t: nat) {
    (a.Lock? || a.Test? || a.Advance? || a.Unlock? || a.Post?) && a.t == t
  }

  predicate OfConsumer(a: Action) {
    a.Wait? || a.Take? || a.Check? || a.Release? || a.Fetch? || a.Copy?
  }

  /** A producer is held up by nothing but the mutex, the consumer by nothing but the mutex
      and the count of items announced. */
  lemma {:induction false} ProcessMovesIff(s: State, t: nat)
    requires t < |s.producers|
    ensures (exists a: Action :: OfProducer(a, t) && Enabled(s, a)) <==>
              s.producers[t].pc != Exited && (s.producers[t].pc == Start ==> s.owner == Nobody)
    ensures (exists a: Action :: OfConsumer(a) && Enabled(s, a)) <==>
              match s.consumer.pc
              case Done => false
              case WaitFull => s.full > 0
              case WantMutex => s.owner == Nobody
              case _ => true
  {
    var p := match s.producers[t].pc
             case Start => Lock(t) case Testing => Test(t, 0) case Advancing => Advance(t)
             case Posting => Post(t) case _ => Unlock(t);
    assert OfProducer(p, t);
    var c := match s.consumer.pc
             case WaitFull => Wait case WantMutex => Take case Checking => Check
             case Fetching => Fetch case Copying(_) => Copy case _ => Release;
    assert OfConsumer(c);
  }

  // The invariant.

  predicate Exclusive(s: State) {
    && (s.owner.ProducerOwns? ==> s.owner.t < |s.producers|)
    && (forall t :: 0 <= t < |s.producers| ==> (Holds(s.producers[t].pc) <==> s.owner == ProducerOwns(t)))
    && (ConsumerHolds(s.consumer.pc) <==> s.owner == ConsumerOwns)
  }

  predicate Budgeted(s: State) {
    && (forall t :: 0 <= t < |s.producers| ==> (s.producers[t].left > 0 <==> s.producers[t].pc != Exited))
    && (s.consumer.todo > 0 <==> s.consumer.pc != Done)
  }

  /** A producer between its increment of the index and its post. */
  predicate Owes(p: Producer) { p.pc == Leaving || p.pc == Posting }

  /** The consumer between its wait and its decrement of the index. */
  predicate Claims(c: Consumer) { c.pc == WantMutex || c.pc == Checking || c.pc == BackingOff }

  /** The index counts the items announced and not yet waited for, and those in between. */
  predicate Tallied(s: State) {
    s.index == s.full + Count(s.producers, Owes) + (if Claims(s.consumer) then 1 else 0)
  }

  predicate IsAdvancing(s: State) {
    s.owner.ProducerOwns? && s.owner.t < |s.producers| && s.producers[s.owner.t].pc == Advancing
  }

  predicate InRange(s: State) {
    && |s.data| == |s.producers| && 0 <= s.index && (s.index > 0 ==> s.index <= |s.data| - 1)
    && (IsAdvancing(s) ==> s.index < |s.data| - 1)
    && s.consumer.pc != BackingOff && s.consumer.pc != GivingUp
  }

  function Left(p: Producer): int { p.left }

  predicate Balanced(s: State) {
    s.consumer.todo == Sum(s.producers, Left) + s.full
                       + (if s.consumer.pc == WaitFull || s.consumer.pc == Done then 0 else 1)
  }

  lemma {:induction false} StepKeepsExclusive(s: State, a: Action)
    requires Exclusive(s) && Budgeted(s) && Enabled(s, a)
    ensures Exclusive(Next(s, a)) && Budgeted(Next(s, a))
  {
  }

  lemma {:induction false} StepKeepsRange(s: State, a: Action)
    requires Exclusive(s) && Tallied(s) && InRange(s) && Enabled(s, a)
    ensures InRange(Next(s, a))
  {
  }

  lemma {:induction false} StepKeepsTally(s: State, a: Action)
    requires InRange(s) && Tallied(s) && Enabled(s, a)
    ensures Tallied(Next(s, a))
  {
    if a.Lock? || a.Test? || a.Advance? || a.Unlock? || a.Post? {
      CountUpdate(s.producers, a.t, Next(s, a).producers[a.t], Owes);
    }
  }

  lemma {:induction false} StepKeepsBalance(s: State, a: Action)
    requires Budgeted(s) && InRange(s) && Balanced(s) && Enabled(s, a)
    ensures Balanced(Next(s, a))
  {
    if a.Lock? || a.Test? || a.Advance? || a.Unlock? || a.Post? {
      SumUpdate(s.producers, a.t, Next(s, a).producers[a.t], Left);
    }
  }

  // Which item a read returns.

  /** Who stored an item, and that its number is not used again. */
  predicate Made(s: State, x: Item) {
    0 <= x.owner < |s.producers| && x.serial < s.producers[x.owner].made
  }

  /** No item is in two cells, and every cell in use holds an item. */
  predicate CellsDiffer(s: State) {
    && (forall i :: 0 <= i < |s.data| ==> s.data[i].owner == -1 || Made(s, s.data[i]))
    && (forall i, j :: 0 <= i < j < |s.data| ==> s.data[i] != s.data[j] || s.data[i].owner == -1)
    && (forall i :: 0 <= i < |s.data| && (i < s.index || (i == s.index && IsAdvancing(s))) ==> s.data[i].owner != -1)
  }

  /** What became of the popped item: untouched until a producer stores, gone afterwards. */
  predicate Traced(s: State) {
    var c := s.consumer;
    c.pc == Unlocking || InWindow(c.pc) ==>
      && Made(s, c.popped)
      && (c.pc == Unlocking ==> !c.raced)
      && (c.pc.Copying? ==> 0 <= c.pc.at < |s.data|)
      && if c.raced then c.popped !in s.data
         else && 0 <= s.index == c.cell < |s.data| && s.data[c.cell] == c.popped && !IsAdvancing(s)
              && (c.pc.Copying? ==> c.pc.at == c.cell)
  }

  lemma {:induction false} StepKeepsCells(s: State, a: Action)
    requires Exclusive(s) && InRange(s) && CellsDiffer(s) && Enabled(s, a)
    ensures CellsDiffer(Next(s, a))
  {
    var s' := Next(s, a);
    if a.Test? && s.index < |s.data| - 1 {
      StoreKeepsCells(s, a.t, a.num, s');
    } else {
      assert s'.data == s.data;
      forall x | Made(s, x) ensures Made(s', x) {
      }
    }
  }

  lemma {:induction false} StoreKeepsCells(s: State, t: nat, num: int, s': State)
    requires Exclusive(s) && InRange(s) && CellsDiffer(s) && t < |s.producers| && s.producers[t].pc == Testing
    requires s.index < |s.data| - 1 && s' == AfterTest(s, t, num)
    ensures CellsDiffer(s')
  {
    forall x | Made(s, x) ensures Made(s', x) && x != s'.data[s.index] {
    }
  }

  lemma {:induction false} StepKeepsTrace(s: State, a: Action)
    requires Exclusive(s) && InRange(s) && CellsDiffer(s) && Traced(s) && Enabled(s, a)
    ensures Traced(Next(s, a))
  {
    var s' := Next(s, a);
    if Made(s, s.consumer.popped) {
      MadeStays(s, a, s.consumer.popped);
    }
    if a.Test? && s.index < |s.data| - 1 {
      StoreKeepsTrace(s, a.t, a.num, s');
    }
  }

  lemma {:induction false} MadeStays(s: State, a: Action, x: Item)
    requires Enabled(s, a) && Made(s, x)
    ensures Made(Next(s, a), x)
  {
  }

  lemma {:induction false} StoreKeepsTrace(s: State, t: nat, num: int, s': State)
    requires Exclusive(s) && InRange(s) && CellsDiffer(s) && Traced(s)
    requires t < |s.producers| && s.producers[t].pc == Testing
    requires s.index < |s.data| - 1 && s' == AfterTest(s, t, num)
    ensures Traced(s')
  {
  }

  // The money: what was pushed is what was read or missed and what is still there.

  function Num(x: Item): int { x.num }

  function InHand(c: Consumer): int {
    if c.pc == Unlocking || InWindow(c.pc) then c.popped.num else 0
  }

  function Live(s: State): int
    requires InRange(s)
  {
    Sum(s.data[..s.index], Num)
  }

  predicate Conserved(s: State) {
    && InRange(s)
    && s.pushed == s.consumer.sum + s.consumer.missed + InHand(s.consumer) + Live(s)
                   + (if IsAdvancing(s) then At(s.data, s.index).num else 0)
    && (!s.consumer.stale ==> s.consumer.missed == 0)
  }

  lemma {:induction false} StepKeepsSum(s: State, a: Action)
    requires Exclusive(s) && Traced(s) && Conserved(s) && Enabled(s, a) && InRange(Next(s, a))
    ensures Conserved(Next(s, a))
  {
    match a
    case Advance(t) => SumSnoc(s.data, s.index, Num);
    case Check => SumSnoc(s.data, s.index - 1, Num);
    case Test(t, num) =>
      assert Next(s, a).data[..s.index] == s.data[..s.index];
    case _ =>
  }

  ghost predicate Inv(s: State) {
    && Exclusive(s) && Budgeted(s) && Tallied(s) && InRange(s) && Balanced(s)
    && CellsDiffer(s) && Traced(s) && Conserved(s)
  }

  lemma {:induction false} StepKeepsInv(s: State, a: Action)
    requires Inv(s) && Enabled(s, a)
    ensures Inv(Next(s, a))
  {
    StepKeepsExclusive(s, a);
    StepKeepsRange(s, a);
    StepKeepsTally(s, a);
    StepKeepsBalance(s, a);
    StepKeepsCells(s, a);
    StepKeepsTrace(s, a);
    StepKeepsSum(s, a);
  }

  lemma {:induction false} InitialInv(s: State, M: nat, N: nat)
    requires Initial(s, M, N)
    ensures Inv(s)
  {
    CountNone(s.producers, Owes);
    SumOfSame(s.producers, Left, N);
    assert s.data[..0] == [];
  }
}
