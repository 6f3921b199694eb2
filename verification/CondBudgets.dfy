/** For threads with budgets: exactly how many producers and consumers the stack of a given
    capacity always brings to an end. */
module CondBudgets {
  import opened Roles
  import opened CondStack
  import opened CondCompletion
  import opened BudgetBoards
  import opened BoardRuns
  import C = SleeperCounts
  import Runs

  // Two ways to strand threads.

  function Other(role: Role): Role {
    if role == Producer then Consumer else Producer
  }

  /** One thread on one side and 2K on the other, the last of them able to fill the stack. */
  predicate IsWide(b: Board, m: Role) {
    && b.K >= 1 && b.n == 0 && |b.seats| >= 2 * b.K + 1
    && b.seats[0] == Seat(Other(m), false, 3 * b.K)
    && (forall i :: 1 <= i < 2 * b.K ==> b.seats[i] == Seat(m, false, 1))
    && b.seats[2 * b.K] == Seat(m, false, b.K + 1)
    && (forall i :: 2 * b.K < i < |b.seats| ==> Idle(b.seats[i]))
  }

  /** When the 2K sleep at the end where producers sleep, the stack must be filled first. */
  lemma {:induction false} FillFirst(b: Board, t: nat, m: Role) returns (b': Board)
    requires t < |b.seats| && b.n == 0 && b.seats[t].role == m && b.seats[t].left >= b.K
    requires forall i :: 0 <= i < |b.seats| ==> !b.seats[i].asleep
    ensures Runs.Reaches(Move, b, b') && b'.K == b.K && Shut(b', m) && 0 <= b'.n <= b'.K
    ensures b'.n == (if m == Producer then b.K else 0)
    ensures b'.seats == b.seats[t := Less(b.seats[t], if m == Producer then b.K else 0)]
  {
    Runs.ReachesSelf(Move, b);
    if m == Producer {
      b' := ActAlone(b, b, t, b.K);
    } else {
      b' := b;
      assert b.seats == b.seats[t := Less(b.seats[t], 0)];
    }
  }

  /** All of the 2K sleep, the one thread wakes half of them and sleeps itself. */
  lemma {:induction false} WideHalf(b: Board, m: Role) returns (z: Board)
    requires IsWide(b, m)
    ensures Runs.Reaches(Move, b, z) && z.K == b.K && |z.seats| == |b.seats|
    ensures z.n == (if m == Producer then 0 else b.K)
    ensures z.seats[0].asleep
    ensures forall i :: 1 <= i < 2 * b.K + 1 ==>
              z.seats[i] == Seat(m, i > b.K, if i < 2 * b.K || m == Producer then 1 else b.K + 1)
    ensures forall i :: 2 * b.K < i < |b.seats| ==> Idle(z.seats[i])
  {
    var K := b.K;
    var b1 := FillFirst(b, 2 * K, m);
    var b2 := DozeAll(b, b1, 1, 2 * K + 1);
    var b3 := ActWaking(b, b2, 0, 1, K + 1);
    z := DozeAll(b, b3, 0, 1);
  }

  /** The half that is awake acts once each, wakes the other half, and is done. */
  lemma {:induction false} WideStrands(b: Board, m: Role) returns (z: Board)
    requires IsWide(b, m)
    ensures Runs.Reaches(Move, b, z) && Strands(z)
  {
    var K := b.K;
    var b4 := WideHalf(b, m);
    var b5 := Relay(b, b4, 1, K, K + 1, m);
    z := DozeAll(b, b5, K + 1, 2 * K + 1);
    assert z.seats[0].asleep;
  }

  /** Two threads on one side and K + 1 on the other, the last of them able to fill the
      stack. */
  predicate IsPair(b: Board, m: Role) {
    && b.K >= 1 && b.n == 0 && |b.seats| >= b.K + 3
    && b.seats[0] == Seat(Other(m), false, 1) && b.seats[1] == Seat(Other(m), false, 2 * b.K + 1)
    && (forall i :: 2 <= i < b.K + 2 ==> b.seats[i] == Seat(m, false, 1))
    && b.seats[b.K + 2] == Seat(m, false, b.K + 2)
    && (forall i :: b.K + 2 < i < |b.seats| ==> Idle(b.seats[i]))
  }

  /** All of the K + 1 sleep, one of the two wakes all but the last, and the two sleep.
      Then each of the K acts once: one of the two undoes it, its wakeup goes to the other,
      and both sleep again. */
  lemma {:induction false} PairStrands(b: Board, m: Role) returns (z: Board)
    requires IsPair(b, m)
    ensures Runs.Reaches(Move, b, z) && Strands(z)
  {
    var K := b.K;
    var b1 := FillFirst(b, K + 2, m);
    var b2 := DozeAll(b, b1, 2, K + 3);
    var b3 := ActWaking(b, b2, 1, 2, K + 2);
    var b4 := DozeAll(b, b3, 0, 2);
    z := Rounds(b, b4, 2, K + 2, 1, 0);
    assert z.seats[0].asleep;
  }

  // Fleets of any size: what the threads beyond these do is undone first.

  /** One thread against 2K + x, of which the last x only do something that is undone. */
  function WideSeats(K: nat, m: Role, x: nat): seq<Seat>
    requires K >= 1
  {
    [Seat(Other(m), false, 3 * K + x)] + (Many(m, 2 * K - 1, 1) + ([Seat(m, false, K + 1)] + Many(m, x, 1)))
  }

  /** The same for 2 + y against K + 1 + x. */
  function PairSeats(K: nat, m: Role, x: nat, y: nat): seq<Seat> {
    [Seat(Other(m), false, 1), Seat(Other(m), false, 2 * K + 1 + x)]
    + (Many(m, K, 1) + ([Seat(m, false, K + 2 + y)] + Extras(m, x, y)))
  }

  /** So many threads of role m and so many of the other role. */
  predicate IsFleetOf(seats: seq<Seat>, m: Role, many: nat, others: nat) {
    if m == Consumer then IsFleet(seats, others, many) else IsFleet(seats, many, others)
  }

  lemma {:induction false} WideFleet(K: nat, m: Role, x: nat)
    requires K >= 1
    ensures IsFleetOf(WideSeats(K, m, x), m, 2 * K + x, 1)
  {
    var last, more := Seat(m, false, K + 1), Many(m, x, 1);
    TotalsMany(m, x, 1);
    TotalsFirst(last, more);
    TotalsMany(m, 2 * K - 1, 1);
    TotalsAppend(Many(m, 2 * K - 1, 1), [last] + more);
    TotalsFirst(Seat(Other(m), false, 3 * K + x), Many(m, 2 * K - 1, 1) + ([last] + more));
  }

  function Extras(m: Role, x: nat, y: nat): seq<Seat> {
    Many(m, x, 1) + Many(Other(m), y, 1)
  }

  lemma {:induction false} ExtrasTotals(m: Role, x: nat, y: nat)
    ensures TotalsOf(Extras(m, x, y)) == if m == Consumer then Totals(y, x, y, x) else Totals(x, y, x, y)
  {
    TotalsMany(m, x, 1);
    TotalsMany(Other(m), y, 1);
    TotalsAppend(Many(m, x, 1), Many(Other(m), y, 1));
  }

  lemma {:induction false} PairTail(K: nat, m: Role, x: nat, y: nat) returns (tail: seq<Seat>)
    ensures tail == Many(m, K, 1) + ([Seat(m, false, K + 2 + y)] + Extras(m, x, y))
    ensures TotalsOf(tail)
            == if m == Consumer then Totals(y, K + 1 + x, y, 2 * K + 2 + y + x)
               else Totals(K + 1 + x, y, 2 * K + 2 + y + x, y)
  {
    var last, more := Seat(m, false, K + 2 + y), Extras(m, x, y);
    ExtrasTotals(m, x, y);
    TotalsFirst(last, more);
    TotalsMany(m, K, 1);
    TotalsAppend(Many(m, K, 1), [last] + more);
    tail := Many(m, K, 1) + ([last] + more);
  }

  lemma {:induction false} PairFleet(K: nat, m: Role, x: nat, y: nat)
    ensures IsFleetOf(PairSeats(K, m, x, y), m, K + 1 + x, 2 + y)
  {
    var u, v := Seat(Other(m), false, 1), Seat(Other(m), false, 2 * K + 1 + x);
    var tail := PairTail(K, m, x, y);
    TotalsFirst(v, tail);
    TotalsFirst(u, [v] + tail);
    assert PairSeats(K, m, x, y) == [u] + ([v] + tail);
  }

  lemma {:induction false} WideSeatsStrand(K: nat, m: Role, x: nat) returns (z: Board)
    requires K >= 1
    ensures Runs.Reaches(Move, Board(K, 0, WideSeats(K, m, x)), z) && Strands(z)
  {
    var seats := WideSeats(K, m, x);
    var b := Board(K, 0, seats);
    Runs.ReachesSelf(Move, b);
    var c := CancelAll(b, b, 2 * K + 1, |seats|, 0);
    z := WideStrands(c, m);
    Runs.ReachesJoin(Move, b, c, z);
  }

  lemma {:induction false} PairSeatsCancel(b: Board, K: nat, m: Role, x: nat, y: nat) returns (d: Board)
    requires K >= 1 && b == Board(K, 0, PairSeats(K, m, x, y))
    ensures Runs.Reaches(Move, b, d) && IsPair(d, m)
  {
    Runs.ReachesSelf(Move, b);
    var c := CancelAll(b, b, K + 3, K + 3 + x, 1);
    d := CancelAll(b, c, K + 3 + x, |b.seats|, K + 2);
  }

  lemma {:induction false} PairSeatsStrand(K: nat, m: Role, x: nat, y: nat) returns (z: Board)
    requires K >= 1
    ensures Runs.Reaches(Move, Board(K, 0, PairSeats(K, m, x, y)), z) && Strands(z)
  {
    var b := Board(K, 0, PairSeats(K, m, x, y));
    var d := PairSeatsCancel(b, K, m, x, y);
    z := PairStrands(d, m);
    Runs.ReachesJoin(Move, b, d, z);
  }

  /** Every thread has something to do. */
  predicate Busy(s: State) {
    forall t :: 0 <= t < |s.threads| ==> s.threads[t].left != Items(0)
  }

  lemma {:induction false} WideStart(K: nat, m: Role, x: nat) returns (s0: State, s: State)
    requires K >= 1
    ensures Starts(s0, if m == Consumer then C.Config(K, 1, 2 * K + x) else C.Config(K, 2 * K + x, 1))
    ensures Feasible(s0) && Busy(s0) && Runs.Reaches(Step, s0, s) && Stuck(s) && !AllFinished(s)
  {
    var seats := WideSeats(K, m, x);
    var z := WideSeatsStrand(K, m, x);
    WideFleet(K, m, x);
    s0, s := StrandedThreads(K, seats, z, TotalsOf(seats).p, TotalsOf(seats).c);
  }

  lemma {:induction false} PairStart(K: nat, m: Role, x: nat, y: nat) returns (s0: State, s: State)
    requires K >= 1
    ensures Starts(s0, if m == Consumer then C.Config(K, 2 + y, K + 1 + x) else C.Config(K, K + 1 + x, 2 + y))
    ensures Feasible(s0) && Busy(s0) && Runs.Reaches(Step, s0, s) && Stuck(s) && !AllFinished(s)
  {
    var seats := PairSeats(K, m, x, y);
    var z := PairSeatsStrand(K, m, x, y);
    PairFleet(K, m, x, y);
    s0, s := StrandedThreads(K, seats, z, TotalsOf(seats).p, TotalsOf(seats).c);
  }

  /** With any other number of threads some budgets strand them, with something to do for
      every thread. */
  lemma {:induction false} SomeBudgetsStrand(g: C.Config) returns (s0: State, s: State)
    requires g.K >= 1 && g.p >= 1 && g.c >= 1 && !Roomy(g)
    ensures Starts(s0, g) && Feasible(s0) && Busy(s0)
    ensures Runs.Reaches(Step, s0, s) && Stuck(s) && !AllFinished(s)
  {
    if g.p == 1 {
      s0, s := WideStart(g.K, Consumer, g.c - 2 * g.K);
    } else if g.c == 1 {
      s0, s := WideStart(g.K, Producer, g.p - 2 * g.K);
    } else if g.c > g.K {
      s0, s := PairStart(g.K, Consumer, g.c - g.K - 1, g.p - 2);
    } else {
      s0, s := PairStart(g.K, Producer, g.p - g.K - 1, g.c - 2);
    }
  }

  /** The exact bound for threads with budgets: whatever the budgets, as long as they can be
      spent, all threads finish if and only if there are at most K on each side, or one on a
      side and fewer than 2K on the other.  Threads without anything to do make no
      difference to it. */
  lemma AlwaysFinishIff(g: C.Config)
    requires g.K >= 1 && g.p >= 1 && g.c >= 1
    ensures (forall s0, s :: Starts(s0, g) && Feasible(s0) && Runs.Reaches(Step, s0, s) && Stuck(s) ==> AllFinished(s))
            <==> Roomy(g)
    ensures (forall s0, s :: Starts(s0, g) && Feasible(s0) && Busy(s0) && Runs.Reaches(Step, s0, s) && Stuck(s)
                             ==> AllFinished(s))
            <==> Roomy(g)
  {
    if Roomy(g) {
      forall s0, s | Starts(s0, g) && Feasible(s0) && Runs.Reaches(Step, s0, s) && Stuck(s) ensures AllFinished(s) {
        StuckOnlyWhenDone(s0, g, s);
      }
    } else {
      var s0, s := SomeBudgetsStrand(g);
    }
  }

  /** The bound for looping threads is another one: with 2 producers and 4 consumers on a
      stack of 3 looping threads never all sleep, but some budgets strand them. */
  lemma SixThreadsStrand() returns (s0: State, s: State)
    ensures Starts(s0, C.Config(3, 2, 4)) && Feasible(s0) && Busy(s0)
    ensures Runs.Reaches(Step, s0, s) && Stuck(s) && !AllFinished(s)
  {
    s0, s := SomeBudgetsStrand(C.Config(3, 2, 4));
  }
}
