/** The condition-variable stack between operations, for threads with budgets: what is
    stored, who sleeps and what each thread has left.  A move is one whole operation with
    its wakeup, or one thread going to sleep. */
module BudgetBoards {
  import opened Options
  import opened Roles
  import Runs

  datatype Seat = Seat(role: Role, asleep: bool, left: nat)

  datatype Board = Board(K: nat, n: int, seats: seq<Seat>)

  predicate Ready(x: Seat) { !x.asleep && x.left > 0 }

  predicate Shut(b: Board, role: Role) {
    if role == Producer then b.n == b.K else b.n == 0
  }

  function Delta(role: Role): int {
    if role == Producer then 1 else -1
  }

  predicate CanWake(seats: seq<Seat>, woken: Option<nat>) {
    match woken
    case Some(w) => w < |seats| && seats[w].asleep
    case None => forall i :: 0 <= i < |seats| ==> !seats[i].asleep
  }

  function Dozed(b: Board, t: nat): Board
    requires t < |b.seats|
  {
    b.(seats := b.seats[t := b.seats[t].(asleep := true)])
  }

  function Acted(b: Board, t: nat, woken: Option<nat>): Board
    requires t < |b.seats| && b.seats[t].left > 0 && CanWake(b.seats, woken)
  {
    var x := b.seats[t];
    var seats := b.seats[t := x.(left := x.left - 1)];
    Board(b.K, b.n + Delta(x.role),
          if woken.Some? then seats[woken.value := seats[woken.value].(asleep := false)] else seats)
  }

  ghost predicate DozeMove(b: Board, t: nat, b': Board) {
    t < |b.seats| && Ready(b.seats[t]) && Shut(b, b.seats[t].role) && b' == Dozed(b, t)
  }

  ghost predicate ActMove(b: Board, t: nat, woken: Option<nat>, b': Board) {
    && t < |b.seats| && Ready(b.seats[t]) && !Shut(b, b.seats[t].role)
    && CanWake(b.seats, woken) && b' == Acted(b, t, woken)
  }

  ghost predicate Move(b: Board, b': Board) {
    (exists t :: DozeMove(b, t, b')) || (exists t, woken :: ActMove(b, t, woken, b'))
  }

  lemma {:induction false} ThenDoze(b0: Board, b: Board, t: nat) returns (b': Board)
    requires Runs.Reaches(Move, b0, b) && t < |b.seats| && Ready(b.seats[t]) && Shut(b, b.seats[t].role)
    ensures b' == Dozed(b, t) && Runs.Reaches(Move, b0, b')
  {
    b' := Dozed(b, t);
    assert DozeMove(b, t, b');
    Runs.ReachesThen(Move, b0, b, b');
  }

  lemma {:induction false} ThenAct(b0: Board, b: Board, t: nat, woken: Option<nat>) returns (b': Board)
    requires Runs.Reaches(Move, b0, b) && t < |b.seats| && Ready(b.seats[t]) && !Shut(b, b.seats[t].role)
    requires CanWake(b.seats, woken)
    ensures b' == Acted(b, t, woken) && Runs.Reaches(Move, b0, b')
  {
    b' := Acted(b, t, woken);
    assert ActMove(b, t, woken, b');
    Runs.ReachesThen(Move, b0, b, b');
  }

  // The same change for a range of seats, or of one seat by several operations.

  function Slept(seats: seq<Seat>, lo: int, hi: int, asleep: bool): seq<Seat> {
    seq(|seats|, i requires 0 <= i < |seats| => if lo <= i < hi then seats[i].(asleep := asleep) else seats[i])
  }

  function Less(x: Seat, d: nat): Seat {
    x.(left := if x.left >= d then x.left - d else 0)
  }

  function Paid(seats: seq<Seat>, lo: int, hi: int): seq<Seat> {
    seq(|seats|, i requires 0 <= i < |seats| => if lo <= i < hi then Less(seats[i], 1) else seats[i])
  }

  /** All of a range find the stack blocked. */
  lemma {:induction false} DozeAll(b0: Board, b: Board, lo: nat, hi: nat) returns (b': Board)
    requires Runs.Reaches(Move, b0, b) && lo <= hi <= |b.seats|
    requires forall i :: lo <= i < hi ==> Ready(b.seats[i]) && Shut(b, b.seats[i].role)
    ensures Runs.Reaches(Move, b0, b') && b' == b.(seats := Slept(b.seats, lo, hi, true))
    decreases hi - lo
  {
    if lo == hi {
      b' := b;
      assert Slept(b.seats, lo, hi, true) == b.seats;
    } else {
      var c := DozeAll(b0, b, lo, hi - 1);
      b' := ThenDoze(b0, c, hi - 1);
      assert b'.seats == Slept(b.seats, lo, hi, true);
    }
  }

  /** One thread acts once for each sleeper of a range, and wakes it. */
  lemma {:induction false} ActWaking(b0: Board, b: Board, t: nat, lo: nat, hi: nat) returns (b': Board)
    requires Runs.Reaches(Move, b0, b) && lo <= hi <= |b.seats| && t < |b.seats| && !(lo <= t < hi)
    requires !b.seats[t].asleep && b.seats[t].left >= hi - lo && forall i :: lo <= i < hi ==> b.seats[i].asleep
    requires if b.seats[t].role == Producer then 0 <= b.n <= b.K - (hi - lo) else hi - lo <= b.n <= b.K
    ensures Runs.Reaches(Move, b0, b') && b'.K == b.K
    ensures b'.n == (if b.seats[t].role == Producer then b.n + (hi - lo) else b.n - (hi - lo))
    ensures b'.seats == Slept(b.seats, lo, hi, false)[t := Less(b.seats[t], hi - lo)]
    decreases hi - lo
  {
    if lo == hi {
      b' := b;
      assert Slept(b.seats, lo, hi, false)[t := Less(b.seats[t], 0)] == b.seats;
    } else {
      var c := ActWaking(b0, b, t, lo, hi - 1);
      b' := ThenAct(b0, c, t, Some(hi - 1));
      assert b'.seats == Slept(b.seats, lo, hi, false)[t := Less(b.seats[t], hi - lo)];
    }
  }

  /** With nobody asleep one thread acts d times. */
  lemma {:induction false} ActAlone(b0: Board, b: Board, t: nat, d: nat) returns (b': Board)
    requires Runs.Reaches(Move, b0, b) && t < |b.seats| && b.seats[t].left >= d
    requires forall i :: 0 <= i < |b.seats| ==> !b.seats[i].asleep
    requires b.seats[t].role == Producer && 0 <= b.n <= b.K - d
    ensures Runs.Reaches(Move, b0, b') && b' == Board(b.K, b.n + d, b.seats[t := Less(b.seats[t], d)])
    decreases d
  {
    if d == 0 {
      b' := b;
      assert b.seats[t := Less(b.seats[t], 0)] == b.seats;
    } else {
      var c := ActAlone(b0, b, t, d - 1);
      b' := ThenAct(b0, c, t, None);
      assert b'.seats == b.seats[t := Less(b.seats[t], d)];
    }
  }

  /** With nobody asleep each producer of a range acts once. */
  lemma {:induction false} ActEach(b0: Board, b: Board, lo: nat, hi: nat) returns (b': Board)
    requires Runs.Reaches(Move, b0, b) && lo <= hi <= |b.seats| && 0 <= b.n <= b.K - (hi - lo)
    requires forall i :: 0 <= i < |b.seats| ==> !b.seats[i].asleep
    requires forall i :: lo <= i < hi ==> b.seats[i].role == Producer && b.seats[i].left > 0
    ensures Runs.Reaches(Move, b0, b') && b' == Board(b.K, b.n + (hi - lo), Paid(b.seats, lo, hi))
    decreases hi - lo
  {
    if lo == hi {
      b' := b;
      assert Paid(b.seats, lo, hi) == b.seats;
    } else {
      var c := ActEach(b0, b, lo, hi - 1);
      b' := ThenAct(b0, c, hi - 1, None);
      assert b'.seats == Paid(b.seats, lo, hi);
    }
  }

  /** What one more thread of a relay changes. */
  lemma {:induction false} RelayStep(seats: seq<Seat>, cs: seq<Seat>, lo: nat, k: nat, to: nat, i: nat, w: nat)
    requires i == lo + k - 1 < |seats| && w == to + k - 1 < |seats| && (lo + k <= to || to + k <= lo) && k > 0
    requires seats[i].left > 0 && cs == Slept(Paid(seats, lo, i), to, w, false)
    ensures cs[i] == seats[i] && cs[w] == seats[w]
    ensures var paid := cs[i := cs[i].(left := cs[i].left - 1)];
            paid[w := paid[w].(asleep := false)] == Slept(Paid(seats, lo, lo + k), to, to + k, false)
  {
  }

  lemma {:induction false} RelayLast(b0: Board, c: Board, x: Seat, i: nat, w: nat) returns (b': Board)
    requires Runs.Reaches(Move, b0, c) && i < |c.seats| && w < |c.seats| && i != w
    requires c.seats[i] == x && Ready(x) && c.seats[w].asleep && !Shut(c, x.role)
    ensures Runs.Reaches(Move, b0, b') && b'.K == c.K && b'.n == c.n + Delta(x.role)
    ensures var paid := c.seats[i := c.seats[i].(left := c.seats[i].left - 1)];
            b'.seats == paid[w := paid[w].(asleep := false)]
  {
    b' := ThenAct(b0, c, i, Some(w));
  }

  /** Each of the k threads from lo on acts once, and wakes its counterpart from to on. */
  lemma {:induction false} Relay(b0: Board, b: Board, lo: nat, k: nat, to: nat, role: Role) returns (b': Board)
    requires Runs.Reaches(Move, b0, b) && lo + k <= |b.seats| && to + k <= |b.seats| && (lo + k <= to || to + k <= lo)
    requires forall i :: lo <= i < lo + k ==> Ready(b.seats[i]) && b.seats[i].role == role
    requires forall i :: to <= i < to + k ==> b.seats[i].asleep
    requires if role == Producer then 0 <= b.n <= b.K - k else k <= b.n <= b.K
    ensures Runs.Reaches(Move, b0, b') && b'.K == b.K && b'.n == (if role == Producer then b.n + k else b.n - k)
    ensures b'.seats == Slept(Paid(b.seats, lo, lo + k), to, to + k, false)
    decreases k
  {
    if k == 0 {
      b' := b;
      assert Slept(Paid(b.seats, lo, lo), to, to, false) == b.seats;
    } else {
      var c := Relay(b0, b, lo, k - 1, to, role);
      var i, w := lo + k - 1, to + k - 1;
      RelayStep(b.seats, c.seats, lo, k, to, i, w);
      b' := RelayLast(b0, c, b.seats[i], i, w);
    }
  }

  /** Two threads of different roles undo each other on an empty stack. */
  lemma {:induction false} Cancel(b0: Board, b: Board, i: nat, u: nat) returns (b': Board)
    requires Runs.Reaches(Move, b0, b) && b.n == 0 && b.K >= 1
    requires i < |b.seats| && u < |b.seats| && b.seats[i].role != b.seats[u].role
    requires forall j :: 0 <= j < |b.seats| ==> !b.seats[j].asleep
    requires b.seats[i].left > 0 && b.seats[u].left > 0
    ensures Runs.Reaches(Move, b0, b')
    ensures b' == b.(seats := b.seats[i := Less(b.seats[i], 1)][u := Less(b.seats[u], 1)])
  {
    var first, second := if b.seats[i].role == Producer then i else u, if b.seats[i].role == Producer then u else i;
    var c := ThenAct(b0, b, first, None);
    b' := ThenAct(b0, c, second, None);
    assert b'.seats == b.seats[i := Less(b.seats[i], 1)][u := Less(b.seats[u], 1)];
  }

  /** The same d times over. */
  lemma {:induction false} CancelPair(b0: Board, b: Board, i: nat, u: nat, d: nat) returns (b': Board)
    requires Runs.Reaches(Move, b0, b) && b.n == 0 && b.K >= 1
    requires i < |b.seats| && u < |b.seats| && b.seats[i].role != b.seats[u].role
    requires forall j :: 0 <= j < |b.seats| ==> !b.seats[j].asleep
    requires b.seats[i].left >= d && b.seats[u].left >= d
    ensures Runs.Reaches(Move, b0, b')
    ensures b' == b.(seats := b.seats[i := Less(b.seats[i], d)][u := Less(b.seats[u], d)])
    decreases d
  {
    if d == 0 {
      b' := b;
      assert b.seats == b.seats[i := Less(b.seats[i], 0)][u := Less(b.seats[u], 0)];
    } else {
      var c := CancelPair(b0, b, i, u, d - 1);
      b' := Cancel(b0, c, i, u);
      assert b'.seats == b.seats[i := Less(b.seats[i], d)][u := Less(b.seats[u], d)];
    }
  }

  /** One thread undoes what each thread of a range does once. */
  lemma {:induction false} CancelAll(b0: Board, b: Board, lo: nat, hi: nat, u: nat) returns (b': Board)
    requires Runs.Reaches(Move, b0, b) && b.n == 0 && b.K >= 1 && lo <= hi <= |b.seats| && u < |b.seats|
    requires forall i :: lo <= i < hi ==> b.seats[i].role != b.seats[u].role && b.seats[i].left > 0
    requires forall j :: 0 <= j < |b.seats| ==> !b.seats[j].asleep
    requires b.seats[u].left >= hi - lo
    ensures Runs.Reaches(Move, b0, b') && b' == b.(seats := Paid(b.seats, lo, hi)[u := Less(b.seats[u], hi - lo)])
    decreases hi - lo
  {
    if lo == hi {
      b' := b;
      assert Paid(b.seats, lo, hi)[u := Less(b.seats[u], 0)] == b.seats;
    } else {
      var c := CancelAll(b0, b, lo, hi - 1, u);
      b' := Cancel(b0, c, hi - 1, u);
      assert b'.seats == Paid(b.seats, lo, hi)[u := Less(b.seats[u], hi - lo)];
    }
  }

  /** Thread i wakes u, which undoes what i did and wakes v; v finds the stack as it was
      and goes back to sleep. */
  lemma {:induction false} Spend(b0: Board, b: Board, i: nat, u: nat, v: nat) returns (b': Board)
    requires Runs.Reaches(Move, b0, b) && i < |b.seats| && u < |b.seats| && v < |b.seats| && u != v
    requires Ready(b.seats[i]) && b.seats[u].asleep && b.seats[v].asleep && b.seats[u].left >= 1 && b.seats[v].left >= 1
    requires b.seats[u].role == b.seats[v].role != b.seats[i].role && Shut(b, b.seats[u].role) && b.K >= 1
    ensures Runs.Reaches(Move, b0, b')
    ensures b' == b.(seats := b.seats[i := Less(b.seats[i], 1)][u := Less(b.seats[u], 1).(asleep := false)])
  {
    var c := ThenAct(b0, b, i, Some(u));
    var d := ThenAct(b0, c, u, Some(v));
    b' := ThenDoze(b0, d, v);
    assert b'.seats == b.seats[i := Less(b.seats[i], 1)][u := Less(b.seats[u], 1).(asleep := false)];
  }

  /** Each of the k threads from lo on has its wakeup spent in this way on its counterpart
      from to on, and on v. */
  lemma {:induction false} Spends(b0: Board, b: Board, lo: nat, k: nat, to: nat, v: nat) returns (b': Board)
    requires Runs.Reaches(Move, b0, b) && lo + k <= to && to + k <= v < |b.seats| && b.K >= 1
    requires b.seats[v].asleep && b.seats[v].left >= 1 && Shut(b, b.seats[v].role)
    requires forall i :: lo <= i < lo + k ==> Ready(b.seats[i]) && b.seats[i].role != b.seats[v].role
    requires forall i :: to <= i < to + k ==>
               b.seats[i].asleep && b.seats[i].left >= 1 && b.seats[i].role == b.seats[v].role
    ensures Runs.Reaches(Move, b0, b')
    ensures b' == b.(seats := Slept(Paid(Paid(b.seats, lo, lo + k), to, to + k), to, to + k, false))
    decreases k
  {
    if k == 0 {
      b' := b;
      assert b.seats == Slept(Paid(Paid(b.seats, lo, lo), to, to), to, to, false);
    } else {
      var c := Spends(b0, b, lo, k - 1, to, v);
      b' := Spend(b0, c, lo + k - 1, to + k - 1, v);
      assert b'.seats == Slept(Paid(Paid(b.seats, lo, lo + k), to, to + k), to, to + k, false);
    }
  }

  /** The same with a thread u that goes back to sleep as well. */
  lemma {:induction false} Rounds(b0: Board, b: Board, lo: nat, hi: nat, u: nat, v: nat) returns (b': Board)
    requires Runs.Reaches(Move, b0, b) && v < u < lo <= hi <= |b.seats| && b.K >= 1
    requires b.seats[u].asleep && b.seats[v].asleep && b.seats[u].left > hi - lo && b.seats[v].left >= 1
    requires b.seats[u].role == b.seats[v].role && Shut(b, b.seats[u].role)
    requires forall i :: lo <= i < hi ==> Ready(b.seats[i]) && b.seats[i].role != b.seats[u].role
    ensures Runs.Reaches(Move, b0, b') && b' == b.(seats := Paid(b.seats, lo, hi)[u := Less(b.seats[u], hi - lo)])
    decreases hi - lo
  {
    if lo == hi {
      b' := b;
      assert Paid(b.seats, lo, hi)[u := Less(b.seats[u], 0)] == b.seats;
    } else {
      var c := Rounds(b0, b, lo, hi - 1, u, v);
      var d := Spend(b0, c, hi - 1, u, v);
      b' := ThenDoze(b0, d, u);
      assert b'.seats == Paid(b.seats, lo, hi)[u := Less(b.seats[u], hi - lo)];
    }
  }
}
