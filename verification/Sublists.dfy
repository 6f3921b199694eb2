/** What it means that a list picks elements of another one. */
module Sublists {

  /** xs at the positions idx, which rise. */
  ghost predicate PicksAt<T>(xs: seq<T>, ps: seq<T>, idx: seq<int>) {
    && |idx| == |xs|
    && (forall k :: 0 <= k < |idx| ==> 0 <= idx[k] < |ps| && xs[k] == ps[idx[k]])
    && forall j, k :: 0 <= j < k < |idx| ==> idx[j] < idx[k]
  }

  /** The positions are those of the elements with this property. */
  ghost predicate AreAll<T>(ps: seq<T>, keep: T -> bool, idx: seq<int>) {
    forall i :: 0 <= i < |ps| ==> (keep(ps[i]) <==> i in idx)
  }

  /** xs are exactly the elements of ps with this property, in their order and each as
      often as it occurs. */
  ghost predicate Picks<T>(xs: seq<T>, ps: seq<T>, keep: T -> bool) {
    exists idx :: PicksAt(xs, ps, idx) && AreAll(ps, keep, idx)
  }

  lemma {:induction false} PicksNone<T>(keep: T -> bool)
    ensures Picks([], [], keep)
  {
    assert PicksAt<T>([], [], []) && AreAll([], keep, []);
  }

  lemma {:induction false} AtSnoc<T>(xs: seq<T>, ps: seq<T>, idx: seq<int>, p: T)
    requires PicksAt(xs, ps, idx)
    ensures PicksAt(xs, ps + [p], idx) && PicksAt(xs + [p], ps + [p], idx + [|ps|])
  {
  }

  lemma {:induction false} AllSnoc<T>(ps: seq<T>, keep: T -> bool, idx: seq<int>, p: T)
    requires AreAll(ps, keep, idx) && forall k :: 0 <= k < |idx| ==> idx[k] < |ps|
    ensures AreAll(ps + [p], keep, if keep(p) then idx + [|ps|] else idx)
  {
    var more := if keep(p) then idx + [|ps|] else idx;
    forall i | 0 <= i < |ps + [p]| ensures keep((ps + [p])[i]) <==> i in more {
      assert i < |ps| ==> (i in more <==> i in idx);
    }
  }

  lemma {:induction false} PicksLast<T>(xs: seq<T>, ps: seq<T>, keep: T -> bool, init: seq<T>, last: T)
    requires ps != [] && init == ps[..|ps| - 1] && last == ps[|ps| - 1] && Picks(xs, init, keep)
    ensures Picks(xs + (if keep(last) then [last] else []), ps, keep)
  {
    var idx :| PicksAt(xs, init, idx) && AreAll(init, keep, idx);
    var whole := init + [last];
    assert whole == ps;
    AtSnoc(xs, init, idx, last);
    AllSnoc(init, keep, idx, last);
    if keep(last) {
      assert PicksAt(xs + [last], whole, idx + [|init|]);
    } else {
      var same := xs + [];
      assert same == xs;
      assert PicksAt(same, whole, idx);
    }
  }

  lemma {:induction false} PicksIn<T>(xs: seq<T>, ps: seq<T>, keep: T -> bool, x: T)
    requires Picks(xs, ps, keep)
    ensures x in xs <==> x in ps && keep(x)
  {
    var idx :| PicksAt(xs, ps, idx) && AreAll(ps, keep, idx);
    if x in xs {
      var k :| 0 <= k < |xs| && xs[k] == x;
      assert idx[k] in idx;
    }
    if x in ps && keep(x) {
      var i :| 0 <= i < |ps| && ps[i] == x;
      var k :| 0 <= k < |idx| && idx[k] == i;
      assert xs[k] == x;
    }
  }
}
