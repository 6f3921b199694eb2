/** The condition-variable stack seen through three numbers: stored items, sleeping
    producers and sleeping consumers.  One step here is one whole push or pop
    together with the wakeup it causes, one thread going to sleep, or one spurious
    wakeup. */
module SleeperCounts {
  import Runs

  /** Capacity and thread counts; every thread loops for ever. */
  datatype Config = Config(K: nat, p: nat, c: nat)

  datatype Counts = Counts(n: int, wp: int, wc: int)

  predicate WakesAny(v: Counts, w: Counts) {
    || (v.wp > 0 && w.wp == v.wp - 1 && w.wc == v.wc)
    || (v.wc > 0 && w.wc == v.wc - 1 && w.wp == v.wp)
    || (v.wp == 0 && v.wc == 0 && w.wp == 0 && w.wc == 0)
  }

  predicate PushStep(g: Config, v: Counts, w: Counts) {
    v.n < g.K && v.wp < g.p && w.n == v.n + 1 && WakesAny(v, w)
  }

  predicate PopStep(g: Config, v: Counts, w: Counts) {
    v.n > 0 && v.wc < g.c && w.n == v.n - 1 && WakesAny(v, w)
  }

  predicate ProducerSleeps(g: Config, v: Counts, w: Counts) {
    v.n == g.K && v.wp < g.p && w == v.(wp := v.wp + 1)
  }

  predicate ConsumerSleeps(g: Config, v: Counts, w: Counts) {
    v.n == 0 && v.wc < g.c && w == v.(wc := v.wc + 1)
  }

  predicate SpuriousWake(v: Counts, w: Counts) {
    (v.wp > 0 && w == v.(wp := v.wp - 1)) || (v.wc > 0 && w == v.(wc := v.wc - 1))
  }

  predicate QuietStep(g: Config, v: Counts, w: Counts) {
    PushStep(g, v, w) || PopStep(g, v, w) || ProducerSleeps(g, v, w) || ConsumerSleeps(g, v, w)
  }

  /** The invariant behind the bound: threads fall asleep on one side only while the
      other side and the free room leave a wakeup to come. */
  predicate Safe(g: Config, v: Counts) {
    && 0 <= v.n <= g.K && 0 <= v.wp <= g.p && 0 <= v.wc <= g.c
    && (v.wc < g.K || v.wc + v.wp + v.n < 2 * g.K)
    && (v.wp < g.K || v.wp + v.wc + g.K - v.n < 2 * g.K)
    && (v.wp == g.p ==> v.wc < v.n)
    && (v.wc == g.c ==> v.wp < g.K - v.n)
    && !(v.wp == g.p && v.wc == g.c)
  }

  predicate Small(g: Config) {
    g.K >= 1 && g.p >= 1 && g.c >= 1 && g.p + g.c <= 2 * g.K
  }

  lemma StepKeepsSafe(g: Config, v: Counts, w: Counts)
    requires Small(g) && Safe(g, v)
    requires QuietStep(g, v, w) || SpuriousWake(v, w)
    ensures Safe(g, w)
  {
  }

  // The other direction: with more than 2K threads some run puts all of them to sleep.

  ghost predicate CanReach(g: Config, v: Counts, w: Counts) {
    Runs.Reaches((x, y) => QuietStep(g, x, y), v, w)
  }

  lemma Extend(g: Config, v: Counts, w: Counts, x: Counts)
    requires CanReach(g, v, w) && QuietStep(g, w, x)
    ensures CanReach(g, v, x)
  {
    Runs.ReachesThen((x, y) => QuietStep(g, x, y), v, w, x);
  }

  lemma Self(g: Config, v: Counts)
    ensures CanReach(g, v, v)
  {
    Runs.ReachesSelf((x, y) => QuietStep(g, x, y), v);
  }

  lemma {:induction false} SleepAll(g: Config, from: Counts, v: Counts, producers: bool)
    requires CanReach(g, from, v)
    requires if producers then v.n == g.K && 0 <= v.wp <= g.p else v.n == 0 && 0 <= v.wc <= g.c
    ensures CanReach(g, from, if producers then v.(wp := g.p) else v.(wc := g.c))
    decreases g.p - v.wp, g.c - v.wc
  {
    if producers && v.wp < g.p {
      var w := v.(wp := v.wp + 1);
      Extend(g, from, v, w);
      SleepAll(g, from, w, true);
    } else if !producers && v.wc < g.c {
      var w := v.(wc := v.wc + 1);
      Extend(g, from, v, w);
      SleepAll(g, from, w, false);
    }
  }

  /** j pushes that wake a producers first and then b consumers; with nobody left
      asleep the remaining pushes wake nobody. */
  lemma {:induction false} Pushes(g: Config, from: Counts, v: Counts, j: nat, a: nat, b: nat)
    requires CanReach(g, from, v)
    requires 0 <= v.wp < g.p && v.wc >= 0 && v.n + j <= g.K && a <= v.wp && b <= v.wc
    requires a + b == j || (a == v.wp && b == v.wc && a + b < j)
    ensures CanReach(g, from, Counts(v.n + j, v.wp - a, v.wc - b))
    decreases j
  {
    if j > 0 {
      if a > 0 {
        var w := Counts(v.n + 1, v.wp - 1, v.wc);
        Extend(g, from, v, w);
        Pushes(g, from, w, j - 1, a - 1, b);
      } else if b > 0 {
        var w := Counts(v.n + 1, v.wp, v.wc - 1);
        Extend(g, from, v, w);
        Pushes(g, from, w, j - 1, a, b - 1);
      } else {
        var w := Counts(v.n + 1, v.wp, v.wc);
        Extend(g, from, v, w);
        Pushes(g, from, w, j - 1, a, b);
      }
    }
  }

  /** The same for j pops, which wake b consumers first and then a producers. */
  lemma {:induction false} Pops(g: Config, from: Counts, v: Counts, j: nat, a: nat, b: nat)
    requires CanReach(g, from, v)
    requires v.wp >= 0 && 0 <= v.wc < g.c && j <= v.n && a <= v.wp && b <= v.wc
    requires a + b == j || (a == v.wp && b == v.wc && a + b < j)
    ensures CanReach(g, from, Counts(v.n - j, v.wp - a, v.wc - b))
    decreases j
  {
    if j > 0 {
      if b > 0 {
        var w := Counts(v.n - 1, v.wp, v.wc - 1);
        Extend(g, from, v, w);
        Pops(g, from, w, j - 1, a, b - 1);
      } else if a > 0 {
        var w := Counts(v.n - 1, v.wp - 1, v.wc);
        Extend(g, from, v, w);
        Pops(g, from, w, j - 1, a - 1, b);
      } else {
        var w := Counts(v.n - 1, v.wp, v.wc);
        Extend(g, from, v, w);
        Pops(g, from, w, j - 1, a, b);
      }
    }
  }

  /** With a full stack and all producers asleep, one full round of K pops and K
      pushes leaves more consumers asleep than before. */
  lemma {:induction false} RoundsToDeadlock(g: Config, from: Counts, x: nat) returns (n: int)
    requires g.K >= 1 && g.p >= 1 && g.c >= 1 && g.p + g.c > 2 * g.K && x <= g.c
    requires CanReach(g, from, Counts(g.K, g.p, x))
    ensures CanReach(g, from, Counts(n, g.p, g.c))
    decreases g.c - x
  {
    if x == g.c {
      n := g.K;
    } else if x >= g.K {
      Pops(g, from, Counts(g.K, g.p, x), g.K, 0, g.K);
      SleepAll(g, from, Counts(0, g.p, x - g.K), false);
      n := 0;
    } else {
      var a := if g.K - x <= g.p then g.K - x else g.p;
      Pops(g, from, Counts(g.K, g.p, x), g.K, a, x);
      SleepAll(g, from, Counts(0, g.p - a, 0), false);
      var y := g.p - a;
      if y > g.K {
        Pushes(g, from, Counts(0, y, g.c), g.K, g.K, 0);
        SleepAll(g, from, Counts(g.K, y - g.K, g.c), true);
        n := g.K;
      } else {
        Pushes(g, from, Counts(0, y, g.c), g.K, y, g.K - y);
        SleepAll(g, from, Counts(g.K, 0, g.c - (g.K - y)), true);
        n := RoundsToDeadlock(g, from, g.c - (g.K - y));
      }
    }
  }

  /** With p + c > 2K, everybody can be asleep, without a single spurious wakeup. */
  lemma DeadlockReachable(g: Config) returns (n: int)
    requires g.K >= 1 && g.p >= 1 && g.c >= 1 && g.p + g.c > 2 * g.K
    ensures CanReach(g, Counts(0, 0, 0), Counts(n, g.p, g.c))
  {
    var from := Counts(0, 0, 0);
    Self(g, from);
    SleepAll(g, from, from, false);
    var b := if g.c <= g.K then g.c else g.K;
    Pushes(g, from, Counts(0, 0, g.c), g.K, 0, b);
    SleepAll(g, from, Counts(g.K, 0, g.c - b), true);
    n := RoundsToDeadlock(g, from, g.c - b);
  }
}
