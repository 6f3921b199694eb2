/** Sums and counts over sequences, with the laws for changing one element. */
module Sums {

  function Sum<T>(xs: seq<T>, f: T -> int): int {
    if xs == [] then 0 else f(xs[0]) + Sum(xs[1..], f)
  }

  function Count<T>(xs: seq<T>, p: T -> bool): nat {
    if xs == [] then 0 else (if p(xs[0]) then 1 else 0) + Count(xs[1..], p)
  }

  lemma {:induction false} SumUpdate<T>(xs: seq<T>, i: nat, x: T, f: T -> int)
    requires i < |xs|
    ensures Sum(xs[i := x], f) == Sum(xs, f) - f(xs[i]) + f(x)
  {
    if i == 0 {
      assert xs[0 := x][1..] == xs[1..];
    } else {
      SumUpdate(xs[1..], i - 1, x, f);
      assert xs[i := x][1..] == xs[1..][i - 1 := x];
    }
  }

  lemma {:induction false} CountUpdate<T>(xs: seq<T>, i: nat, x: T, p: T -> bool)
    requires i < |xs|
    ensures Count(xs[i := x], p) == Count(xs, p) - (if p(xs[i]) then 1 else 0) + (if p(x) then 1 else 0)
  {
    if i == 0 {
      assert xs[0 := x][1..] == xs[1..];
    } else {
      CountUpdate(xs[1..], i - 1, x, p);
      assert xs[i := x][1..] == xs[1..][i - 1 := x];
    }
  }

  /** A smaller count of p than of q names an element that has q but not p. */
  lemma {:induction false} CountFewer<T>(xs: seq<T>, p: T -> bool, q: T -> bool) returns (i: nat)
    requires Count(xs, p) < Count(xs, q)
    ensures i < |xs| && q(xs[i]) && !p(xs[i])
  {
    if q(xs[0]) && !p(xs[0]) {
      i := 0;
    } else {
      i := CountFewer(xs[1..], p, q);
      i := i + 1;
    }
  }

  lemma {:induction false} CountImplies<T>(xs: seq<T>, p: T -> bool, q: T -> bool)
    requires forall i :: 0 <= i < |xs| && p(xs[i]) ==> q(xs[i])
    ensures Count(xs, p) <= Count(xs, q)
  {
    if xs != [] {
      assert p(xs[0]) ==> q(xs[0]);
      forall i | 0 <= i < |xs[1..]| && p(xs[1..][i]) ensures q(xs[1..][i]) {
        assert xs[1..][i] == xs[i + 1];
      }
      CountImplies(xs[1..], p, q);
    }
  }

  /** An element that has q but not p makes the count of p strictly smaller. */
  lemma {:induction false} CountStrict<T>(xs: seq<T>, p: T -> bool, q: T -> bool, k: nat)
    requires forall i :: 0 <= i < |xs| && p(xs[i]) ==> q(xs[i])
    requires k < |xs| && q(xs[k]) && !p(xs[k])
    ensures Count(xs, p) < Count(xs, q)
  {
    forall i | 0 <= i < |xs[1..]| && p(xs[1..][i]) ensures q(xs[1..][i]) {
      assert xs[1..][i] == xs[i + 1];
    }
    if k == 0 {
      CountImplies(xs[1..], p, q);
    } else {
      CountStrict(xs[1..], p, q, k - 1);
    }
  }

  lemma {:induction false} CountPositive<T>(xs: seq<T>, p: T -> bool, k: nat)
    requires k < |xs| && p(xs[k])
    ensures Count(xs, p) > 0
  {
    if k > 0 {
      CountPositive(xs[1..], p, k - 1);
    }
  }

  lemma {:induction false} CountNone<T>(xs: seq<T>, p: T -> bool)
    requires forall i :: 0 <= i < |xs| ==> !p(xs[i])
    ensures Count(xs, p) == 0
  {
    if xs != [] {
      CountNone(xs[1..], p);
    }
  }

  lemma {:induction false} CountOnly<T>(xs: seq<T>, p: T -> bool, k: nat)
    requires k < |xs| && forall i :: 0 <= i < |xs| && i != k ==> !p(xs[i])
    ensures Count(xs, p) == if p(xs[k]) then 1 else 0
  {
    if k == 0 {
      CountNone(xs[1..], p);
    } else {
      CountOnly(xs[1..], p, k - 1);
    }
  }

  /** A positive count names an element counted. */
  lemma {:induction false} CountWitness<T>(xs: seq<T>, p: T -> bool) returns (i: nat)
    requires Count(xs, p) > 0
    ensures i < |xs| && p(xs[i])
  {
    if p(xs[0]) {
      i := 0;
    } else {
      i := CountWitness(xs[1..], p);
      i := i + 1;
    }
  }

  /** Sums of non-negative terms: each term is bounded by the sum. */
  lemma {:induction false} SumBounds<T>(xs: seq<T>, f: T -> int, k: nat)
    requires k < |xs| && forall i :: 0 <= i < |xs| ==> f(xs[i]) >= 0
    ensures Sum(xs, f) >= f(xs[k])
  {
    SumNonNegative(xs[1..], f);
    if k > 0 {
      SumBounds(xs[1..], f, k - 1);
    }
  }

  lemma {:induction false} SumNonNegative<T>(xs: seq<T>, f: T -> int)
    requires forall i :: 0 <= i < |xs| ==> f(xs[i]) >= 0
    ensures Sum(xs, f) >= 0
  {
    if xs != [] {
      SumNonNegative(xs[1..], f);
    }
  }

  /** A positive sum names a positive term. */
  lemma {:induction false} SumPositive<T>(xs: seq<T>, f: T -> int) returns (k: nat)
    requires Sum(xs, f) > 0
    ensures k < |xs| && f(xs[k]) > 0
  {
    if f(xs[0]) > 0 {
      k := 0;
    } else {
      k := SumPositive(xs[1..], f);
      k := k + 1;
    }
  }

  lemma {:induction false} SumAppend<T>(xs: seq<T>, ys: seq<T>, f: T -> int)
    ensures Sum(xs + ys, f) == Sum(xs, f) + Sum(ys, f)
  {
    if xs == [] {
      assert xs + ys == ys;
    } else {
      assert (xs + ys)[1..] == xs[1..] + ys;
      SumAppend(xs[1..], ys, f);
    }
  }

  lemma {:induction false} CountAppend<T>(xs: seq<T>, ys: seq<T>, p: T -> bool)
    ensures Count(xs + ys, p) == Count(xs, p) + Count(ys, p)
  {
    if xs == [] {
      assert xs + ys == ys;
    } else {
      assert (xs + ys)[1..] == xs[1..] + ys;
      CountAppend(xs[1..], ys, p);
    }
  }

  /** Counting elements that are all alike. */
  lemma {:induction false} CountOfSame<T>(xs: seq<T>, p: T -> bool, v: bool)
    requires forall i :: 0 <= i < |xs| ==> p(xs[i]) == v
    ensures Count(xs, p) == if v then |xs| else 0
  {
    if xs != [] {
      CountOfSame(xs[1..], p, v);
    }
  }

  lemma {:induction false} SumAllZero<T>(xs: seq<T>, f: T -> int)
    requires forall i :: 0 <= i < |xs| ==> f(xs[i]) == 0
    ensures Sum(xs, f) == 0
  {
    if xs != [] {
      SumAllZero(xs[1..], f);
    }
  }

  lemma {:induction false} SumOfSame<T>(xs: seq<T>, f: T -> int, v: int)
    requires forall i :: 0 <= i < |xs| ==> f(xs[i]) == v
    ensures Sum(xs, f) == |xs| * v
  {
    if xs != [] {
      SumOfSame(xs[1..], f, v);
      assert |xs| * v == |xs[1..]| * v + v;
    }
  }

  lemma {:induction false} SumSnoc<T>(xs: seq<T>, i: nat, f: T -> int)
    requires i < |xs|
    ensures Sum(xs[..i + 1], f) == Sum(xs[..i], f) + f(xs[i])
  {
    assert xs[..i + 1] == xs[..i] + [xs[i]];
    SumAppend(xs[..i], [xs[i]], f);
    assert [xs[i]][1..] == [];
  }

  lemma SumOfTwo<T>(x: T, y: T, f: T -> int)
    ensures Sum([x, y], f) == f(x) + f(y)
  {
    assert [x, y][1..] == [y] && [y][1..] == [];
    assert Sum([y], f) == f(y);
  }

  lemma CountOfTwo<T>(x: T, y: T, p: T -> bool)
    ensures Count([x, y], p) == (if p(x) then 1 else 0) + (if p(y) then 1 else 0)
  {
    assert [x, y][1..] == [y] && [y][1..] == [];
    assert Count([y], p) == if p(y) then 1 else 0;
  }

  /** How often a value occurs. */
  function Occurs(xs: seq<int>, v: int): nat {
    if xs == [] then 0 else Occurs(xs[..|xs| - 1], v) + (if xs[|xs| - 1] == v then 1 else 0)
  }

  lemma OccursSnoc(xs: seq<int>, x: int, v: int)
    ensures Occurs(xs + [x], v) == Occurs(xs, v) + (if x == v then 1 else 0)
  {
    assert (xs + [x])[..|xs + [x]| - 1] == xs;
  }

  lemma {:induction false} OccursFirst(xs: seq<int>, v: int)
    requires xs != []
    ensures Occurs(xs, v) == Occurs(xs[1..], v) + (if xs[0] == v then 1 else 0)
  {
    if |xs| == 1 {
      assert xs[..0] == [] && xs[1..] == [];
    } else {
      OccursFirst(xs[..|xs| - 1], v);
      assert xs[..|xs| - 1][1..] == xs[1..][..|xs[1..]| - 1];
    }
  }

  lemma {:induction false} OccursAt(xs: seq<int>, i: nat)
    requires i < |xs|
    ensures Occurs(xs, xs[i]) >= 1
  {
    if i < |xs| - 1 {
      OccursAt(xs[..|xs| - 1], i);
    }
  }

  /** A value at two positions occurs twice. */
  lemma {:induction false} OccursTwice(xs: seq<int>, i: nat, j: nat)
    requires i < j < |xs| && xs[i] == xs[j]
    ensures Occurs(xs, xs[i]) >= 2
  {
    if j == |xs| - 1 {
      OccursAt(xs[..j], i);
    } else {
      OccursTwice(xs[..|xs| - 1], i, j);
    }
  }
}
