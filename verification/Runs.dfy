/** Runs of a step system given by a relation on states.  Every protocol of this
    project states its whole-run properties through these definitions. */
module Runs {

  /** A run is a non-empty sequence of states, each one step after the one before. */
  ghost predicate IsRun<S(!new)>(step: (S, S) -> bool, run: seq<S>) {
    |run| > 0 && forall i :: 0 <= i < |run| - 1 ==> step(run[i], run[i + 1])
  }

  ghost predicate Reaches<S(!new)>(step: (S, S) -> bool, s: S, t: S) {
    exists run :: IsRun(step, run) && run[0] == s && run[|run| - 1] == t
  }

  ghost predicate Preserves<S(!new)>(step: (S, S) -> bool, inv: S -> bool) {
    forall s, t :: inv(s) && step(s, t) ==> inv(t)
  }

  lemma {:induction false} InvariantOfRun<S(!new)>(step: (S, S) -> bool, inv: S -> bool, run: seq<S>, i: nat)
    requires IsRun(step, run) && Preserves(step, inv) && inv(run[0]) && i < |run|
    ensures inv(run[i])
  {
    if i > 0 {
      InvariantOfRun(step, inv, run, i - 1);
      assert step(run[i - 1], run[i - 1 + 1]);
    }
  }

  lemma InvariantOfReach<S(!new)>(step: (S, S) -> bool, inv: S -> bool, s: S, t: S)
    requires Reaches(step, s, t) && Preserves(step, inv) && inv(s)
    ensures inv(t)
  {
    var run :| IsRun(step, run) && run[0] == s && run[|run| - 1] == t;
    InvariantOfRun(step, inv, run, |run| - 1);
  }

  lemma ReachesSelf<S(!new)>(step: (S, S) -> bool, s: S)
    ensures Reaches(step, s, s)
  {
    assert IsRun(step, [s]) && [s][0] == s && [s][|[s]| - 1] == s;
  }

  lemma ReachesJoin<S(!new)>(step: (S, S) -> bool, s: S, t: S, u: S)
    requires Reaches(step, s, t) && Reaches(step, t, u)
    ensures Reaches(step, s, u)
  {
    var p :| IsRun(step, p) && p[0] == s && p[|p| - 1] == t;
    var q :| IsRun(step, q) && q[0] == t && q[|q| - 1] == u;
    var r := p + q[1..];
    forall i | 0 <= i < |r| - 1 ensures step(r[i], r[i + 1]) {
      if i < |p| - 1 {
        assert step(p[i], p[i + 1]);
      } else {
        assert step(q[i - |p| + 1], q[i - |p| + 1 + 1]);
      }
    }
    assert IsRun(step, r) && r[0] == s && r[|r| - 1] == u;
  }

  lemma ReachesOne<S(!new)>(step: (S, S) -> bool, s: S, t: S)
    requires step(s, t)
    ensures Reaches(step, s, t)
  {
    assert IsRun(step, [s, t]) && [s, t][0] == s && [s, t][|[s, t]| - 1] == t;
  }

  lemma ReachesThen<S(!new)>(step: (S, S) -> bool, s: S, t: S, u: S)
    requires Reaches(step, s, t) && step(t, u)
    ensures Reaches(step, s, u)
  {
    ReachesOne(step, t, u);
    ReachesJoin(step, s, t, u);
  }

  /** A relation that allows more steps reaches at least as much. */
  lemma ReachesMore<S(!new)>(few: (S, S) -> bool, many: (S, S) -> bool, s: S, t: S)
    requires Reaches(few, s, t)
    requires forall x, y :: few(x, y) ==> many(x, y)
    ensures Reaches(many, s, t)
  {
    var run :| IsRun(few, run) && run[0] == s && run[|run| - 1] == t;
    assert IsRun(many, run);
  }

  lemma ReachesAlong<S(!new)>(step: (S, S) -> bool, run: seq<S>, i: nat, j: nat)
    requires IsRun(step, run) && i <= j < |run|
    ensures Reaches(step, run[i], run[j])
  {
    var part := run[i..j + 1];
    forall k | 0 <= k < |part| - 1 ensures step(part[k], part[k + 1]) {
      assert step(run[i + k], run[i + k + 1]);
    }
    assert IsRun(step, part) && part[0] == run[i] && part[|part| - 1] == run[j];
  }

  /** A flag that is down at first and up later was raised by some step. */
  lemma {:induction false} FirstSet<S>(run: seq<S>, flag: S -> bool, k: nat) returns (i: nat)
    requires k < |run| && !flag(run[0]) && flag(run[k])
    ensures i < k && !flag(run[i]) && flag(run[i + 1])
  {
    if flag(run[k - 1]) {
      i := FirstSet(run, flag, k - 1);
    } else {
      i := k - 1;
    }
  }

  /** When every step from an invariant state lowers a measure, the measure of
      the first state bounds the number of steps. */
  lemma {:induction false} RunIsBounded<S(!new)>(step: (S, S) -> bool, inv: S -> bool, measure: S -> nat, run: seq<S>)
    requires IsRun(step, run) && Preserves(step, inv) && inv(run[0])
    requires forall s, t :: inv(s) && step(s, t) ==> measure(t) < measure(s)
    ensures |run| - 1 + measure(run[|run| - 1]) <= measure(run[0])
    decreases |run|
  {
    if |run| > 1 {
      assert step(run[0], run[0 + 1]);
      var rest := run[1..];
      forall i | 0 <= i < |rest| - 1 ensures step(rest[i], rest[i + 1]) {
        assert step(run[i + 1], run[i + 1 + 1]);
      }
      assert IsRun(step, rest);
      RunIsBounded(step, inv, measure, rest);
    }
  }

  /** If from every invariant state that misses the goal some run lowers the
      measure, then from every invariant state some run meets the goal. */
  lemma {:induction false} GoalIsReachable<S(!new)>(step: (S, S) -> bool, inv: S -> bool, goal: S -> bool,
                                                    measure: S -> nat, s: S)
    requires inv(s)
    requires forall x :: inv(x) && !goal(x) ==> exists y :: Reaches(step, x, y) && inv(y) && measure(y) < measure(x)
    ensures exists t :: Reaches(step, s, t) && inv(t) && goal(t)
    decreases measure(s)
  {
    if goal(s) {
      ReachesSelf(step, s);
    } else {
      var y :| Reaches(step, s, y) && inv(y) && measure(y) < measure(s);
      GoalIsReachable(step, inv, goal, measure, y);
      var t :| Reaches(step, y, t) && inv(t) && goal(t);
      ReachesJoin(step, s, y, t);
    }
  }
}
