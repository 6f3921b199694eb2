/** One call on a shared stack, seen from inside: what other threads complete while the
    caller is without the mutex comes in windows, one for each time it lets the mutex go. */
module Windows {
  /** What another thread does to the stack; it has no effect when there is no room
      for a push or no item for a pop. */
  datatype Deed<T> = PushDeed(item: T) | PopDeed

  function Done<T>(K: nat, xs: seq<T>, deed: Deed<T>): seq<T> {
    match deed
    case PushDeed(c) => if |xs| < K then xs + [c] else xs
    case PopDeed => if |xs| > 0 then xs[..|xs| - 1] else xs
  }

  function AfterWindow<T>(K: nat, xs: seq<T>, deeds: seq<Deed<T>>): seq<T> {
    if deeds == [] then xs
    else Done(K, AfterWindow(K, xs, deeds[..|deeds| - 1]), deeds[|deeds| - 1])
  }

  /** The contents after the first k windows. */
  function After<T>(K: nat, xs: seq<T>, windows: seq<seq<Deed<T>>>, k: nat): seq<T>
    requires k <= |windows|
  {
    if k == 0 then xs else AfterWindow(K, After(K, xs, windows, k - 1), windows[k - 1])
  }

  /** The thread let the mutex go once for each time it found the stack blocked, and
      completed its operation at the first time it did not; `ready` says which
      contents let it proceed and `result` what they become. */
  ghost predicate Outcome<T>(K: nat, xs: seq<T>, windows: seq<seq<Deed<T>>>,
                          ready: seq<T> -> bool, result: seq<T> -> seq<T>,
                          waits: nat, done: bool, ys: seq<T>)
  {
    && waits <= |windows|
    && (forall k :: 0 <= k < waits ==> !ready(After(K, xs, windows, k)))
    && var now := After(K, xs, windows, waits);
       if done then ready(now) && ys == result(now)
       else !ready(now) && waits == |windows| && ys == now
  }

  /** An outcome is determined by the start and the windows, so implementations that
      promise it cannot be told apart. */
  lemma OutcomeIsUnique<T>(K: nat, xs: seq<T>, windows: seq<seq<Deed<T>>>,
                        ready: seq<T> -> bool, result: seq<T> -> seq<T>,
                        w1: nat, d1: bool, y1: seq<T>, w2: nat, d2: bool, y2: seq<T>)
    requires Outcome(K, xs, windows, ready, result, w1, d1, y1)
    requires Outcome(K, xs, windows, ready, result, w2, d2, y2)
    ensures w1 == w2 && d1 == d2 && y1 == y2
  {
  }
}
