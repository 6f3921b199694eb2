/** Moves of the board are runs of the threads, and a board that strands gives threads that
    get stuck. */
module BoardRuns {
  import opened Options
  import opened Roles
  import opened StackMemory
  import opened Sums
  import opened CondStack
  import opened CondLift
  import opened CondCompletion
  import opened BudgetBoards
  import C = SleeperCounts
  import D = CondDeadlock
  import Runs

  function SeatOf(th: Thread): Seat {
    Seat(th.role, th.pc == Asleep, match th.left case Forever => 0 case Items(n) => n)
  }

  function SeatsOf(ts: seq<Thread>): seq<Seat> {
    seq(|ts|, i requires 0 <= i < |ts| => SeatOf(ts[i]))
  }

  function BoardOf(s: State): Board {
    Board(|s.mem.buffer|, s.mem.index, SeatsOf(s.threads))
  }

  ghost predicate Resting(s: State) {
    Quiescent(s) && forall t :: 0 <= t < |s.threads| ==> s.threads[t].left.Items?
  }

  lemma {:induction false} ReadyCanRun(s: State, t: nat)
    requires Resting(s) && t < |s.threads| && Ready(SeatOf(s.threads[t]))
    ensures CanRun(s.threads[t])
  {
    assert Budgeted(s.threads[t]);
  }

  lemma {:induction false} LiftDoze(s0: State, s: State, t: nat) returns (s': State)
    requires Runs.Reaches(Quiet, s0, s) && Resting(s) && t < |s.threads|
    requires Ready(SeatOf(s.threads[t])) && Shut(BoardOf(s), s.threads[t].role)
    ensures Runs.Reaches(Quiet, s0, s') && Resting(s') && BoardOf(s') == Dozed(BoardOf(s), t)
  {
    ReadyCanRun(s, t);
    s' := GoesToSleep(s0, s, t);
    assert SeatsOf(s'.threads) == Dozed(BoardOf(s), t).seats;
  }

  lemma {:induction false} ActedSeats(ts: seq<Thread>, t: nat, woken: Option<nat>)
    requires t < |ts| && CanRun(ts[t]) && ts[t].left.Items? && ts[t].left.n > 0 && WakesOne(ts, woken)
    ensures var seats := SeatsOf(ts);
            var paid := seats[t := seats[t].(left := seats[t].left - 1)];
            SeatsOf(Wake(ts[t := After(ts[t])], woken))
            == if woken.Some? then paid[woken.value := paid[woken.value].(asleep := false)] else paid
  {
  }

  lemma {:induction false} LiftAct(s0: State, s: State, t: nat, woken: Option<nat>) returns (s': State)
    requires Runs.Reaches(Quiet, s0, s) && Resting(s) && t < |s.threads|
    requires Ready(SeatOf(s.threads[t])) && !Shut(BoardOf(s), s.threads[t].role)
    requires CanWake(SeatsOf(s.threads), woken)
    ensures Runs.Reaches(Quiet, s0, s') && Resting(s') && BoardOf(s') == Acted(BoardOf(s), t, woken)
  {
    ReadyCanRun(s, t);
    assert WakesOne(s.threads, woken) by {
      if woken.None? {
        forall w | 0 <= w < |s.threads| ensures !IsAsleep(s.threads[w]) {
          assert !SeatsOf(s.threads)[w].asleep;
        }
      }
    }
    s' := Completes(s0, s, t, woken);
    ActedSeats(s.threads, t, woken);
  }

  lemma {:induction false} LiftMove(s0: State, s: State, b: Board) returns (s': State)
    requires Runs.Reaches(Quiet, s0, s) && Resting(s) && Move(BoardOf(s), b)
    ensures Runs.Reaches(Quiet, s0, s') && Resting(s') && BoardOf(s') == b
  {
    var before := BoardOf(s);
    if t :| DozeMove(before, t, b) {
      s' := LiftDoze(s0, s, t);
    } else {
      var t, woken :| ActMove(before, t, woken, b);
      s' := LiftAct(s0, s, t, woken);
    }
  }

  lemma {:induction false} LiftBoards(s0: State, run: seq<Board>, i: nat) returns (s: State)
    requires Resting(s0) && i < |run| && Runs.IsRun(Move, run) && run[0] == BoardOf(s0)
    ensures Runs.Reaches(Quiet, s0, s) && Resting(s) && BoardOf(s) == run[i]
  {
    if i == 0 {
      s := s0;
      Runs.ReachesSelf(Quiet, s0);
    } else {
      var r := LiftBoards(s0, run, i - 1);
      assert Move(run[i - 1], run[i - 1 + 1]);
      s := LiftMove(s0, r, run[i]);
    }
  }

  predicate Idle(x: Seat) { !x.asleep && x.left == 0 }

  /** Somebody sleeps, and nobody awake has anything left to do. */
  ghost predicate Strands(b: Board) {
    && (forall i :: 0 <= i < |b.seats| ==> b.seats[i].asleep || b.seats[i].left == 0)
    && exists i :: 0 <= i < |b.seats| && b.seats[i].asleep
  }

  // Starting from a board.

  function ThreadOf(x: Seat): Thread {
    Thread(x.role, if x.left == 0 then Finished else Outside, Items(x.left))
  }

  function ThreadsOf(seats: seq<Seat>): seq<Thread> {
    seq(|seats|, i requires 0 <= i < |seats| => ThreadOf(seats[i]))
  }

  function StartOf(K: nat, seats: seq<Seat>): State {
    State(Memory(seq(K, _ => 'x'), 0), None, ThreadsOf(seats), [])
  }

  /** How many threads of each role, and how many operations they have. */
  datatype Totals = Totals(p: int, c: int, pushes: int, pops: int)

  predicate AddsUp(t: Totals, a: Totals, b: Totals) {
    t.p == a.p + b.p && t.c == a.c + b.c && t.pushes == a.pushes + b.pushes && t.pops == a.pops + b.pops
  }

  function OneOf(role: Role, left: int): Totals {
    if role == Producer then Totals(1, 0, left, 0) else Totals(0, 1, 0, left)
  }

  predicate Produces(x: Seat) { x.role == Producer }
  predicate Consumes(x: Seat) { x.role == Consumer }
  function SeatPushes(x: Seat): int { Pushes(x.role, x.left) }
  function SeatPops(x: Seat): int { Pops(x.role, x.left) }

  function TotalsOf(seats: seq<Seat>): Totals {
    Totals(Count(seats, Produces), Count(seats, Consumes), Sum(seats, SeatPushes), Sum(seats, SeatPops))
  }

  lemma {:induction false} TotalsAppend(a: seq<Seat>, b: seq<Seat>)
    ensures AddsUp(TotalsOf(a + b), TotalsOf(a), TotalsOf(b))
  {
    CountAppend(a, b, Produces);
    CountAppend(a, b, Consumes);
    SumAppend(a, b, SeatPushes);
    SumAppend(a, b, SeatPops);
  }

  function Many(role: Role, n: nat, left: nat): seq<Seat> {
    seq(n, _ => Seat(role, false, left))
  }

  lemma {:induction false} TotalsMany(role: Role, n: nat, left: nat)
    ensures TotalsOf(Many(role, n, left))
            == if role == Producer then Totals(n, 0, n * left, 0) else Totals(0, n, 0, n * left)
  {
    var xs := Many(role, n, left);
    CountOfSame(xs, Produces, role == Producer);
    CountOfSame(xs, Consumes, role == Consumer);
    SumOfSame(xs, SeatPushes, Pushes(role, left));
    SumOfSame(xs, SeatPops, Pops(role, left));
  }

  lemma {:induction false} TotalsOne(x: Seat)
    ensures TotalsOf([x]) == OneOf(x.role, x.left)
  {
    CountOfSame([x], Produces, x.role == Producer);
    CountOfSame([x], Consumes, x.role == Consumer);
    SumOfSame([x], SeatPushes, SeatPushes(x));
    SumOfSame([x], SeatPops, SeatPops(x));
  }

  lemma {:induction false} TotalsFirst(x: Seat, rest: seq<Seat>)
    ensures AddsUp(TotalsOf([x] + rest), OneOf(x.role, x.left), TotalsOf(rest))
  {
    TotalsOne(x);
    TotalsAppend([x], rest);
  }

  lemma {:induction false} CountsOfThreads(seats: seq<Seat>)
    ensures Count(ThreadsOf(seats), D.IsProducer) == Count(seats, Produces)
    ensures Count(ThreadsOf(seats), D.IsConsumer) == Count(seats, Consumes)
  {
    if seats != [] {
      assert ThreadsOf(seats)[1..] == ThreadsOf(seats[1..]);
      CountsOfThreads(seats[1..]);
    }
  }

  lemma {:induction false} SumsOfThreads(seats: seq<Seat>)
    ensures Sum(ThreadsOf(seats), PushesLeft) == Sum(seats, SeatPushes)
    ensures Sum(ThreadsOf(seats), PopsLeft) == Sum(seats, SeatPops)
  {
    if seats != [] {
      assert ThreadsOf(seats)[1..] == ThreadsOf(seats[1..]);
      SumsOfThreads(seats[1..]);
    }
  }

  /** The seats of so many producers and consumers, nobody asleep, pushes and pops alike. */
  predicate IsFleet(seats: seq<Seat>, p: nat, c: nat) {
    && (forall i :: 0 <= i < |seats| ==> !seats[i].asleep)
    && TotalsOf(seats).p == p && TotalsOf(seats).c == c && TotalsOf(seats).pushes == TotalsOf(seats).pops
  }

  lemma {:induction false} StartIs(K: nat, seats: seq<Seat>, p: nat, c: nat)
    requires K >= 1 && IsFleet(seats, p, c)
    ensures Starts(StartOf(K, seats), C.Config(K, p, c)) && Feasible(StartOf(K, seats))
  {
    CountsOfThreads(seats);
    SumsOfThreads(seats);
  }

  lemma {:induction false} StartBoard(K: nat, seats: seq<Seat>)
    requires forall i :: 0 <= i < |seats| ==> !seats[i].asleep
    ensures Resting(StartOf(K, seats)) && BoardOf(StartOf(K, seats)) == Board(K, 0, seats)
  {
    InitialInv(StartOf(K, seats));
    assert SeatsOf(ThreadsOf(seats)) == seats;
  }

  lemma {:induction false} LiftBoard(K: nat, seats: seq<Seat>, z: Board) returns (s0: State, s: State)
    requires (forall i :: 0 <= i < |seats| ==> !seats[i].asleep) && Runs.Reaches(Move, Board(K, 0, seats), z)
    ensures s0 == StartOf(K, seats) && Runs.Reaches(Step, s0, s) && Resting(s) && BoardOf(s) == z
  {
    s0 := StartOf(K, seats);
    StartBoard(K, seats);
    var run :| Runs.IsRun(Move, run) && run[0] == Board(K, 0, seats) && run[|run| - 1] == z;
    s := LiftBoards(s0, run, |run| - 1);
    Runs.ReachesMore(Quiet, Step, s0, s);
  }

  lemma {:induction false} StrandsIsStuck(s: State)
    requires Resting(s) && Strands(BoardOf(s))
    ensures Stuck(s) && !AllFinished(s)
  {
    var seats := SeatsOf(s.threads);
    StuckIffAllAsleep(s);
    forall t | 0 <= t < |s.threads| ensures IsAsleep(s.threads[t]) || s.threads[t].pc == Finished {
      assert seats[t].asleep || seats[t].left == 0;
      assert Budgeted(s.threads[t]);
    }
    var t :| 0 <= t < |seats| && seats[t].asleep;
    assert IsAsleep(s.threads[t]);
  }

  /** A board that strands gives threads that get stuck before they have finished. */
  lemma {:induction false} StrandedThreads(K: nat, seats: seq<Seat>, z: Board, p: nat, c: nat)
    returns (s0: State, s: State)
    requires K >= 1 && IsFleet(seats, p, c) && Runs.Reaches(Move, Board(K, 0, seats), z) && Strands(z)
    ensures s0 == StartOf(K, seats) && Starts(s0, C.Config(K, p, c)) && Feasible(s0)
    ensures Runs.Reaches(Step, s0, s) && Stuck(s) && !AllFinished(s)
  {
    StartIs(K, seats, p, c);
    s0, s := LiftBoard(K, seats, z);
    StrandsIsStuck(s);
  }
}
