/** The abstract bounded LIFO stack both stack implementations refine: a log of
    completed operations, what it means for the log to be legal, and what a legal
    log says about the values popped. */
module LifoStack {
  import opened Options

  datatype Op = Push(item: char) | Pop(item: char)

  /** One operation on a stack of the given capacity; None when it is not allowed. */
  function Apply(capacity: nat, xs: seq<char>, op: Op): Option<seq<char>> {
    match op
    case Push(c) => if |xs| < capacity then Some(xs + [c]) else None
    case Pop(c) => if |xs| > 0 && xs[|xs| - 1] == c then Some(xs[..|xs| - 1]) else None
  }

  /** The stack left by a log of operations started on the empty stack. */
  function Replay(capacity: nat, log: seq<Op>): Option<seq<char>> {
    if log == [] then Some([])
    else
      match Replay(capacity, log[..|log| - 1])
      case None => None
      case Some(xs) => Apply(capacity, xs, log[|log| - 1])
  }

  lemma ReplaySnoc(capacity: nat, log: seq<Op>, op: Op)
    ensures Replay(capacity, log + [op]) ==
            match Replay(capacity, log) case None => None case Some(xs) => Apply(capacity, xs, op)
  {
    assert (log + [op])[..|log + [op]| - 1] == log;
  }

  function Pushed(log: seq<Op>): multiset<char> {
    if log == [] then multiset{}
    else Pushed(log[..|log| - 1]) + (if log[|log| - 1].Push? then multiset{log[|log| - 1].item} else multiset{})
  }

  function Popped(log: seq<Op>): multiset<char> {
    if log == [] then multiset{}
    else Popped(log[..|log| - 1]) + (if log[|log| - 1].Pop? then multiset{log[|log| - 1].item} else multiset{})
  }

  /** Nothing is lost, duplicated or invented: what was pushed is what was popped
      together with what is stored, and the capacity is never exceeded. */
  lemma {:induction false} Conservation(capacity: nat, log: seq<Op>)
    requires Replay(capacity, log).Some?
    ensures var xs := Replay(capacity, log).value;
            Pushed(log) == Popped(log) + multiset(xs) && |xs| <= capacity
  {
    if log != [] {
      var init := log[..|log| - 1];
      Conservation(capacity, init);
      OneMore(capacity, Pushed(init), Popped(init), Replay(capacity, init).value, log[|log| - 1]);
    }
  }

  lemma {:induction false} OneMore(capacity: nat, pushed: multiset<char>, popped: multiset<char>, xs: seq<char>, op: Op)
    requires Apply(capacity, xs, op).Some? && pushed == popped + multiset(xs) && |xs| <= capacity
    ensures var ys := Apply(capacity, xs, op).value;
            && |ys| <= capacity
            && pushed + (if op.Push? then multiset{op.item} else multiset{})
               == popped + (if op.Pop? then multiset{op.item} else multiset{}) + multiset(ys)
  {
    if op.Pop? {
      assert xs == xs[..|xs| - 1] + [op.item];
    }
  }

  /** Pushes minus pops strictly after position i and before position to. */
  function Depth(log: seq<Op>, i: nat, to: nat): int
    requires i < to <= |log|
  {
    if i + 1 == to then 0
    else Depth(log, i, to - 1) + (if log[to - 1].Push? then 1 else -1)
  }

  /** The push at i is the latest push not yet matched when the operation at j
      starts: everything pushed after it has been popped again. */
  ghost predicate LatestUnmatched(log: seq<Op>, i: nat, j: nat)
    requires j <= |log|
  {
    && i < j
    && log[i].Push?
    && Depth(log, i, j) == 0
    && forall k :: i < k <= j ==> Depth(log, i, k) >= 0
  }

  lemma {:induction false} DepthOfPrefix(log: seq<Op>, m: nat, i: nat, to: nat)
    requires i < to <= m <= |log|
    ensures Depth(log[..m], i, to) == Depth(log, i, to)
  {
    if i + 1 < to {
      DepthOfPrefix(log, m, i, to - 1);
    }
  }

  /** Each stored element comes from a push after which the log stayed above it;
      the elements above it number exactly the depth since that push. */
  lemma {:induction false} StoredFromPush(capacity: nat, log: seq<Op>, k: nat) returns (i: nat)
    requires Replay(capacity, log).Some? && k < |Replay(capacity, log).value|
    ensures i < |log| && log[i] == Push(Replay(capacity, log).value[k])
    ensures Depth(log, i, |log|) == |Replay(capacity, log).value| - 1 - k
    ensures forall m :: i < m <= |log| ==> Depth(log, i, m) >= 0
  {
    var last := |log| - 1;
    var init := log[..last];
    var xs := Replay(capacity, init).value;
    if log[last].Push? && k == |xs| {
      i := last;
    } else {
      i := StoredFromPush(capacity, init, k);
      forall m | i < m <= last ensures Depth(log, i, m) == Depth(init, i, m) {
        DepthOfPrefix(log, last, i, m);
      }
    }
  }

  /** The LIFO law: in a legal log every pop returns the item of the latest push
      that is still unmatched. */
  lemma {:induction false} PopReturnsLatestPush(capacity: nat, log: seq<Op>, j: nat)
    requires Replay(capacity, log).Some? && j < |log| && log[j].Pop?
    ensures exists i: nat :: LatestUnmatched(log, i, j) && log[i].item == log[j].item
    decreases |log|
  {
    var last := |log| - 1;
    var init := log[..last];
    if j < last {
      PopReturnsLatestPush(capacity, init, j);
      var i: nat :| LatestUnmatched(init, i, j) && init[i].item == init[j].item;
      forall m | i < m <= j ensures Depth(log, i, m) == Depth(init, i, m) {
        DepthOfPrefix(log, last, i, m);
      }
      assert LatestUnmatched(log, i, j);
    } else {
      var xs := Replay(capacity, init).value;
      var i := StoredFromPush(capacity, init, |xs| - 1);
      forall m | i < m <= j ensures Depth(log, i, m) == Depth(init, i, m) {
        DepthOfPrefix(log, last, i, m);
      }
      assert LatestUnmatched(log, i, j);
    }
  }
}
