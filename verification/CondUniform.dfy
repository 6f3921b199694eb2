/** As many producers as consumers with m items each, as the test program starts them:
    exactly when all of them finish on every run. */
module CondUniform {
  import opened Options
  import opened Roles
  import opened Sums
  import opened CondStack
  import opened CondCompletion
  import opened BudgetBoards
  import opened BoardRuns
  import C = SleeperCounts
  import D = CondDeadlock
  import Runs

  /** N producers and N consumers of m items each, on a stack of K cells. */
  ghost predicate Uniform(s: State, K: nat, N: nat, m: nat) {
    Starts(s, C.Config(K, N, N)) && forall t :: 0 <= t < |s.threads| ==> s.threads[t].left == Items(m)
  }

  lemma {:induction false} UniformSums(ts: seq<Thread>, m: nat)
    requires forall t :: 0 <= t < |ts| ==> ts[t].left == Items(m)
    ensures Sum(ts, PushesLeft) == Count(ts, D.IsProducer) * m
    ensures Sum(ts, PopsLeft) == Count(ts, D.IsConsumer) * m
  {
    if ts != [] {
      UniformSums(ts[1..], m);
      assert (1 + Count(ts[1..], D.IsProducer)) * m == m + Count(ts[1..], D.IsProducer) * m;
      assert (1 + Count(ts[1..], D.IsConsumer)) * m == m + Count(ts[1..], D.IsConsumer) * m;
    }
  }

  lemma {:induction false} UniformIsFeasible(s: State, K: nat, N: nat, m: nat)
    requires Uniform(s, K, N, m)
    ensures Leftover(s) == 0 && Feasible(s)
  {
    UniformSums(s.threads, m);
  }

  // One item each: what the sleepers have to do with what is stored.

  /** Each producer still to come stands for a consumer that outlasts the items stored. */
  predicate Level(N: nat, v: Fleet) {
    v.n + v.lp == v.lc && v.lc <= N
  }

  /** While producers sleep, every sleeper has a stored item whose pop will wake it, and the
      consumers asleep are among those that K pushes did not wake.  A whole side of
      consumers asleep means an empty stack. */
  predicate Once(K: nat, N: nat, v: Fleet) {
    && InBounds(K, v)
    && (v.wp == 0 && v.wc > 0 ==> v.wc + v.n <= N)
    && (v.wp > 0 ==> v.wp + v.wc <= v.n && v.wc + K <= N)
    && (v.lc > 0 && v.wc == v.lc ==> v.n == 0)
  }

  lemma OnceStays(K: nat, N: nat, v: Fleet, w: Fleet)
    requires K >= 1 && 2 * N <= 3 * K
    requires Once(K, N, v) && Level(N, v) && Level(N, w) && FleetStep(K, v, w)
    ensures Once(K, N, w)
  {
  }

  /** At most one item is left, and none between the operation and its signal. */
  predicate OneLeft(th: Thread) {
    th.left == Items(0) || (th.left == Items(1) && th.pc != Signalling)
  }

  predicate Announcing(th: Thread, role: Role) { th.role == role && th.pc == Signalling }

  lemma {:induction false} LiveIsLeft(ts: seq<Thread>)
    requires forall t :: 0 <= t < |ts| ==> OneLeft(ts[t])
    ensures Count(ts, LiveProducer) == Sum(ts, PushesLeft) + Count(ts, th => Announcing(th, Producer))
    ensures Count(ts, LiveConsumer) == Sum(ts, PopsLeft) + Count(ts, th => Announcing(th, Consumer))
  {
    if ts != [] {
      assert OneLeft(ts[0]);
      LiveIsLeft(ts[1..]);
    }
  }

  /** Only the owner of the mutex can be about to signal. */
  lemma {:induction false} OwnerAnnounces(s: State)
    requires Inv(s)
    ensures Count(s.threads, th => Announcing(th, Producer)) - Count(s.threads, th => Announcing(th, Consumer))
            == s.mem.index - D.Counted(s).n
  {
    var ts := s.threads;
    if s.owner == None {
      CountNone(ts, th => Announcing(th, Producer));
      CountNone(ts, th => Announcing(th, Consumer));
    } else {
      CountOnly(ts, th => Announcing(th, Producer), s.owner.value);
      CountOnly(ts, th => Announcing(th, Consumer), s.owner.value);
    }
  }

  ghost predicate OnceState(s: State, K: nat, N: nat) {
    && Itemised(s) && D.Setting(s) == C.Config(K, N, N) && Leftover(s) == 0
    && forall t :: 0 <= t < |s.threads| ==> OneLeft(s.threads[t])
  }

  lemma {:induction false} IsLevel(s: State, K: nat, N: nat)
    requires OnceState(s, K, N)
    ensures Level(N, FleetOf(s))
  {
    LiveIsLeft(s.threads);
    OwnerAnnounces(s);
    CountImplies(s.threads, LiveConsumer, D.IsConsumer);
  }

  lemma {:induction false} StepKeepsOneLeft(s: State, a: Action)
    requires s.mem.Valid() && Enabled(s, a) && forall t :: 0 <= t < |s.threads| ==> OneLeft(s.threads[t])
    ensures forall t :: 0 <= t < |Next(s, a).threads| ==> OneLeft(Next(s, a).threads[t])
  {
  }

  lemma {:induction false} StepKeepsOnceState(s: State, K: nat, N: nat, a: Action)
    requires OnceState(s, K, N) && Enabled(s, a)
    ensures OnceState(Next(s, a), K, N)
  {
    StepKeepsInv(s, a);
    StepKeepsBudgets(s, a);
    StepKeepsLeftover(s, a);
    StepKeepsOneLeft(s, a);
    D.StepSimulated(s, a);
  }

  lemma {:induction false} StepKeepsOnce(s: State, K: nat, N: nat, a: Action)
    requires OnceState(s, K, N) && Once(K, N, FleetOf(s)) && Enabled(s, a) && 2 * N <= 3 * K
    ensures OnceState(Next(s, a), K, N) && Once(K, N, FleetOf(Next(s, a)))
  {
    StepKeepsOnceState(s, K, N, a);
    IsLevel(s, K, N);
    IsLevel(Next(s, a), K, N);
    StepSimulated(s, a);
    if FleetOf(s) != FleetOf(Next(s, a)) {
      OnceStays(K, N, FleetOf(s), FleetOf(Next(s, a)));
    }
  }

  lemma {:induction false} OnceStuckIsFinished(s: State, K: nat, N: nat)
    requires OnceState(s, K, N) && Once(K, N, FleetOf(s)) && Stuck(s)
    ensures AllFinished(s)
  {
    StuckIffAllAsleep(s);
    var ts := s.threads;
    assert forall t :: 0 <= t < |ts| ==> Stopped(ts[t]);
    assert s.owner == None;
    StoppedCounts(ts);
    IsLevel(s, K, N);
    if t :| 0 <= t < |ts| && IsAsleep(ts[t]) {
      D.AwakeOrAsleepCounts(ts, t);
    }
  }

  lemma {:induction false} NobodySleepsYet(s: State, K: nat, N: nat)
    requires Initial(s) && |s.mem.buffer| == K && Level(N, FleetOf(s))
    ensures Once(K, N, FleetOf(s))
  {
    D.NobodyAsleep(s.threads);
  }

  lemma {:induction false} OnceAtStart(s: State, K: nat, N: nat)
    requires Uniform(s, K, N, 1)
    ensures OnceState(s, K, N) && Once(K, N, FleetOf(s))
  {
    InitialInv(s);
    UniformIsFeasible(s, K, N, 1);
    IsLevel(s, K, N);
    NobodySleepsYet(s, K, N);
  }

  /** One item each, and at most half as many threads again on a side as there are cells:
      nobody is stranded. */
  lemma {:induction false} OneItemFinishes(s0: State, K: nat, N: nat, s: State)
    requires Uniform(s0, K, N, 1) && 2 * N <= 3 * K && Runs.Reaches(Step, s0, s) && Stuck(s)
    ensures AllFinished(s)
  {
    OnceAtStart(s0, K, N);
    var once := x => OnceState(x, K, N) && Once(K, N, FleetOf(x));
    forall x, y | once(x) && Step(x, y) ensures once(y) {
      var a :| Enabled(x, a) && y == Next(x, a);
      StepKeepsOnce(x, K, N, a);
    }
    Runs.InvariantOfReach(Step, once, s0, s);
    OnceStuckIsFinished(s, K, N);
  }

  // Stranding: pairs of threads that undo each other leave as many threads and items as
  // are needed.

  /** The first k producers and consumers have been cut down: q items for those before keep,
      none for the others. */
  function LeftAt(i: int, k: nat, keep: nat, q: nat, m: nat): nat {
    if i >= k then m else if i < keep then q else 0
  }

  function Trimmed(N: nat, k: nat, keep: nat, q: nat, m: nat): seq<Seat> {
    seq(2 * N, i => if i < N then Seat(Producer, false, LeftAt(i, k, keep, q, m))
                    else Seat(Consumer, false, LeftAt(i - N, k, keep, q, m)))
  }

  lemma {:induction false} Trims(K: nat, N: nat, k: nat, keep: nat, q: nat, m: nat)
    requires K >= 1 && k <= N && q <= m
    ensures Runs.Reaches(Move, Board(K, 0, Trimmed(N, 0, keep, q, m)), Board(K, 0, Trimmed(N, k, keep, q, m)))
  {
    var b0 := Board(K, 0, Trimmed(N, 0, keep, q, m));
    if k == 0 {
      Runs.ReachesSelf(Move, b0);
    } else {
      Trims(K, N, k - 1, keep, q, m);
      var b := Board(K, 0, Trimmed(N, k - 1, keep, q, m));
      var c := CancelPair(b0, b, k - 1, N + k - 1, m - LeftAt(k - 1, k, keep, q, m));
      assert c.seats == Trimmed(N, k, keep, q, m);
    }
  }

  /** Two rows of seats: N producers and N consumers, of which the first few have q items. */
  predicate Rows(b: Board, N: nat, keep: nat, q: nat) {
    && b.K >= 1 && b.n == 0 && |b.seats| == 2 * N && keep <= N
    && (forall i :: 0 <= i < N ==> b.seats[i] == Seat(Producer, false, if i < keep then q else 0))
    && (forall i :: N <= i < 2 * N ==> b.seats[i] == Seat(Consumer, false, if i < N + keep then q else 0))
  }

  /** K of K + 1 producers fill the stack and all of them sleep; K consumers empty it, waking
      those K, and all consumers sleep. */
  lemma {:induction false} TwoHalf(b: Board, N: nat) returns (z: Board)
    requires Rows(b, N, b.K + 1, 2)
    ensures Runs.Reaches(Move, b, z) && z.K == b.K && z.n == 0 && |z.seats| == 2 * N
    ensures forall i :: 0 <= i < N ==>
              z.seats[i] == Seat(Producer, i == b.K, if i < b.K then 1 else if i == b.K then 2 else 0)
    ensures forall i :: N <= i < 2 * N ==>
              z.seats[i] == Seat(Consumer, i <= N + b.K, if i < N + b.K then 1 else if i == N + b.K then 2 else 0)
  {
    var K := b.K;
    Runs.ReachesSelf(Move, b);
    var b1 := ActEach(b, b, 0, K);
    var b2 := DozeAll(b, b1, 0, K + 1);
    var b3 := Relay(b, b2, N, K, 0, Consumer);
    z := DozeAll(b, b3, N, N + K + 1);
  }

  /** The K producers have their wakeups spent; the last one of each side sleeps for good. */
  lemma {:induction false} TwoStrands(b: Board, N: nat) returns (z: Board)
    requires Rows(b, N, b.K + 1, 2)
    ensures Runs.Reaches(Move, b, z) && Strands(z)
  {
    var K := b.K;
    var c := TwoHalf(b, N);
    z := Spends(b, c, 0, K, N, N + K);
    assert z.seats[K].asleep;
  }

  /** All consumers sleep, K producers fill the stack and wake K of them, and the other
      producers sleep. */
  lemma {:induction false} OneFilled(b: Board, N: nat, keep: nat) returns (z: Board)
    requires Rows(b, N, keep, 1) && b.K <= keep
    ensures Runs.Reaches(Move, b, z) && z.K == b.K && z.n == b.K && |z.seats| == 2 * N
    ensures forall i :: 0 <= i < N ==> z.seats[i] == Seat(Producer, b.K <= i < keep, if b.K <= i < keep then 1 else 0)
    ensures forall i :: N <= i < 2 * N ==>
              z.seats[i] == Seat(Consumer, N + b.K <= i < N + keep, if i < N + keep then 1 else 0)
  {
    var K := b.K;
    Runs.ReachesSelf(Move, b);
    var b1 := DozeAll(b, b, N, N + keep);
    var b2 := Relay(b, b1, 0, K, N, Producer);
    z := DozeAll(b, b2, K, keep);
  }

  /** The K consumers empty the stack: they wake the other consumers, which go back to sleep,
      and as many producers as they have wakeups to spare. */
  lemma {:induction false} OneEmptied(b: Board, c: Board, N: nat, keep: nat) returns (z: Board)
    requires Runs.Reaches(Move, b, c) && c.K >= 1 && c.n == c.K && |c.seats| == 2 * N
    requires 3 * c.K < 2 * keep && c.K <= keep <= 2 * c.K && keep <= N
    requires forall i :: 0 <= i < N ==> c.seats[i] == Seat(Producer, c.K <= i < keep, if c.K <= i < keep then 1 else 0)
    requires forall i :: N <= i < 2 * N ==>
               c.seats[i] == Seat(Consumer, N + c.K <= i < N + keep, if i < N + keep then 1 else 0)
    ensures Runs.Reaches(Move, b, z) && z.K == c.K && z.n == 0 && |z.seats| == 2 * N
    ensures forall i :: 0 <= i < N ==>
              z.seats[i] == Seat(Producer, 3 * c.K - keep <= i < keep, if c.K <= i < keep then 1 else 0)
    ensures forall i :: N <= i < 2 * N ==>
              z.seats[i] == Seat(Consumer, N + c.K <= i < N + keep, if N + c.K <= i < N + keep then 1 else 0)
  {
    var K := c.K;
    var d := Relay(b, c, N, keep - K, N + K, Consumer);
    var e := Relay(b, d, N + keep - K, 2 * K - keep, K, Consumer);
    z := DozeAll(b, e, N + K, N + keep);
  }

  /** The producers woken have their wakeups spent; the other producers and as many consumers
      sleep for good. */
  lemma {:induction false} OneStrands(b: Board, N: nat, keep: nat) returns (z: Board)
    requires Rows(b, N, keep, 1) && 3 * b.K < 2 * keep && keep <= 2 * b.K
    ensures Runs.Reaches(Move, b, z) && Strands(z)
  {
    var K := b.K;
    var c := OneFilled(b, N, keep);
    var d := OneEmptied(b, c, N, keep);
    z := Spends(b, d, K, 2 * K - keep, N + K, N + keep - 1);
    assert z.seats[N + keep - 1].asleep;
  }

  lemma {:induction false} RowsStrand(K: nat, N: nat, m: nat) returns (z: Board)
    requires K >= 1 && N > K && m >= 1 && (m >= 2 || 2 * N > 3 * K)
    ensures exists keep, q ::
              Runs.Reaches(Move, Board(K, 0, Trimmed(N, 0, keep, q, m)), z) && Strands(z)
  {
    var keep := if m >= 2 then K + 1 else if N <= 2 * K then N else 2 * K;
    var q := if m >= 2 then 2 else 1;
    Trims(K, N, N, keep, q, m);
    var b := Board(K, 0, Trimmed(N, N, keep, q, m));
    assert Rows(b, N, keep, q);
    if m >= 2 {
      z := TwoStrands(b, N);
    } else {
      z := OneStrands(b, N, keep);
    }
    Runs.ReachesJoin(Move, Board(K, 0, Trimmed(N, 0, keep, q, m)), b, z);
  }

  /** The fleet at its start. */
  function Ranks(N: nat, m: nat): seq<Seat> {
    Many(Producer, N, m) + Many(Consumer, N, m)
  }

  lemma {:induction false} RanksAreFleet(N: nat, m: nat)
    ensures IsFleet(Ranks(N, m), N, N)
  {
    TotalsMany(Producer, N, m);
    TotalsMany(Consumer, N, m);
    TotalsAppend(Many(Producer, N, m), Many(Consumer, N, m));
  }

  lemma {:induction false} UniformStrands(K: nat, N: nat, m: nat) returns (s0: State, s: State)
    requires K >= 1 && N > K && m >= 1 && (m >= 2 || 2 * N > 3 * K)
    ensures Uniform(s0, K, N, m) && Runs.Reaches(Step, s0, s) && Stuck(s) && !AllFinished(s)
  {
    var z := RowsStrand(K, N, m);
    var keep, q :| Runs.Reaches(Move, Board(K, 0, Trimmed(N, 0, keep, q, m)), z) && Strands(z);
    assert Trimmed(N, 0, keep, q, m) == Ranks(N, m);
    RanksAreFleet(N, m);
    s0, s := StrandedThreads(K, Ranks(N, m), z, N, N);
  }

  /** Exactly when N producers and N consumers of m items each always finish on a stack of K
      cells: when there are no more than K on each side, when there is nothing to do, or
      when there is one item each and at most 3K threads in all. */
  lemma UniformFinishIff(K: nat, N: nat, m: nat)
    requires K >= 1
    ensures (forall s0, s :: Uniform(s0, K, N, m) && Runs.Reaches(Step, s0, s) && Stuck(s) ==> AllFinished(s))
            <==> N <= K || m == 0 || (m == 1 && 2 * N <= 3 * K)
  {
    if N > K && m >= 1 && (m >= 2 || 2 * N > 3 * K) {
      var s0, s := UniformStrands(K, N, m);
    } else {
      forall s0, s | Uniform(s0, K, N, m) && Runs.Reaches(Step, s0, s) && Stuck(s) ensures AllFinished(s) {
        if N <= K {
          UniformIsFeasible(s0, K, N, m);
          StuckOnlyWhenDone(s0, C.Config(K, N, N), s);
        } else if m == 0 {
          NothingToDo(s0, K, N, s);
        } else {
          OneItemFinishes(s0, K, N, s);
        }
      }
    }
  }

  lemma {:induction false} NothingToDo(s0: State, K: nat, N: nat, s: State)
    requires Uniform(s0, K, N, 0) && Runs.Reaches(Step, s0, s)
    ensures AllFinished(s)
  {
    var idle := x => AllFinished(x) && x.owner == None && x.mem.Valid();
    Runs.InvariantOfReach(Step, idle, s0, s);
  }

  /** However many items there are for each: N and N always finish if and only if N is at
      most K. */
  lemma AnyItemsFinishIff(K: nat, N: nat)
    requires K >= 1
    ensures (forall m, s0, s :: Uniform(s0, K, N, m) && Runs.Reaches(Step, s0, s) && Stuck(s) ==> AllFinished(s))
            <==> N <= K
  {
    if N > K {
      var s0, s := UniformStrands(K, N, 2);
    } else {
      forall m, s0, s | Uniform(s0, K, N, m) && Runs.Reaches(Step, s0, s) && Stuck(s) ensures AllFinished(s) {
        UniformIsFeasible(s0, K, N, m);
        StuckOnlyWhenDone(s0, C.Config(K, N, N), s);
      }
    }
  }
}
