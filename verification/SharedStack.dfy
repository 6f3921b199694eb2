/** push, pop, my_push and my_pop as they run in one thread, over the shared buffer
    and index.  What other threads complete while this one is without the mutex is
    given as a list of windows, one for each time the mutex is let go. */
module SharedStack {
  import opened LifoStack
  import opened Options
  import opened StackMemory
  import opened Windows

  /** What other threads do is what the abstract stack allows, and nothing otherwise. */
  lemma DeedsAreOperations(K: nat, xs: seq<char>, c: char)
    ensures Done(K, xs, PushDeed(c)) == match Apply(K, xs, Push(c)) case Some(ys) => ys case None => xs
    ensures xs != [] ==> Apply(K, xs, Pop(xs[|xs| - 1])) == Some(Done(K, xs, PopDeed))
    ensures xs == [] ==> Done(K, xs, PopDeed) == xs
  {
  }

  class Stack {
    const buffer: array<char>
    var index: int

    ghost predicate Valid()
      reads this, buffer
    {
      0 <= index <= buffer.Length
    }

    ghost function Contents(): seq<char>
      requires Valid()
      reads this, buffer
    {
      buffer[..index]
    }

    constructor (size: nat)
      ensures Valid() && Contents() == [] && buffer.Length == size && fresh(buffer)
    {
      buffer := new char[size];
      index := 0;
    }

    method Store(c: char)
      requires Valid() && index < buffer.Length
      modifies this, buffer
      ensures Valid() && Contents() == old(Contents()) + [c]
      ensures Memory(buffer[..], index) == old(Memory(buffer[..], index)).Store(c)
    {
      buffer[index] := c;
      index := index + 1;
    }

    method Take() returns (c: char)
      requires Valid() && index > 0
      modifies this
      ensures Valid() && old(Contents()) == Contents() + [c]
      ensures Memory(buffer[..], index) == old(Memory(buffer[..], index)).Take()
      ensures c == old(Memory(buffer[..], index)).Top()
    {
      index := index - 1;
      c := buffer[index];
    }

    /** One window: other threads use the stack. */
    method Others(deeds: seq<Deed<char>>)
      requires Valid()
      modifies this, buffer
      ensures Valid() && Contents() == AfterWindow(buffer.Length, old(Contents()), deeds)
    {
      var i := 0;
      while i < |deeds|
        invariant 0 <= i <= |deeds| && Valid()
        invariant Contents() == AfterWindow(buffer.Length, old(Contents()), deeds[..i])
      {
        assert deeds[..i + 1][..i] == deeds[..i];
        match deeds[i] {
          case PushDeed(c) => if index < buffer.Length { Store(c); }
          case PopDeed => if index > 0 { var _ := Take(); }
        }
        i := i + 1;
      }
      assert deeds[..i] == deeds;
    }

    /** push: wait on the condition variable while the stack is full.  The call is
        still asleep when the windows end before there is room. */
    method Push(oneChar: char, windows: seq<seq<Deed<char>>>) returns (waits: nat, done: bool)
      requires Valid()
      modifies this, buffer
      ensures Valid()
      ensures Outcome(buffer.Length, old(Contents()), windows, xs => |xs| < buffer.Length,
                      xs => xs + [oneChar], waits, done, Contents())
    {
      waits := 0;
      while index == buffer.Length && waits < |windows|
        invariant Valid() && waits <= |windows|
        invariant Contents() == After(buffer.Length, old(Contents()), windows, waits)
        invariant forall k :: 0 <= k < waits ==> |After(buffer.Length, old(Contents()), windows, k)| == buffer.Length
        decreases |windows| - waits
      {
        Others(windows[waits]);
        waits := waits + 1;
      }
      done := index < buffer.Length;
      if done {
        Store(oneChar);
      }
    }

    /** pop: wait on the condition variable while the stack is empty. */
    method Pop(windows: seq<seq<Deed<char>>>) returns (waits: nat, done: bool, toReturn: char)
      requires Valid()
      modifies this, buffer
      ensures Valid()
      ensures Outcome(buffer.Length, old(Contents()), windows, xs => |xs| > 0,
                      xs => if |xs| > 0 then xs[..|xs| - 1] else xs, waits, done, Contents())
      ensures done ==> After(buffer.Length, old(Contents()), windows, waits) == Contents() + [toReturn]
    {
      waits := 0;
      toReturn := ' ';
      while index == 0 && waits < |windows|
        invariant Valid() && waits <= |windows|
        invariant Contents() == After(buffer.Length, old(Contents()), windows, waits)
        invariant forall k :: 0 <= k < waits ==> |After(buffer.Length, old(Contents()), windows, k)| == 0
        decreases |windows| - waits
      {
        Others(windows[waits]);
        waits := waits + 1;
      }
      done := index > 0;
      if done {
        toReturn := Take();
      }
    }

    /** my_push: test under the mutex, release it and test again. */
    method MyPush(oneChar: char, windows: seq<seq<Deed<char>>>) returns (waits: nat, done: bool)
      requires Valid()
      modifies this, buffer
      ensures Valid()
      ensures Outcome(buffer.Length, old(Contents()), windows, xs => |xs| < buffer.Length,
                      xs => xs + [oneChar], waits, done, Contents())
    {
      waits := 0;
      done := false;
      while true
        invariant Valid() && waits <= |windows| && !done
        invariant Contents() == After(buffer.Length, old(Contents()), windows, waits)
        invariant forall k :: 0 <= k < waits ==> |After(buffer.Length, old(Contents()), windows, k)| == buffer.Length
        decreases |windows| - waits
      {
        if index < buffer.Length {
          Store(oneChar);
          done := true;
          break;
        }
        if waits == |windows| {
          break;
        }
        Others(windows[waits]);
        waits := waits + 1;
      }
    }

    /** my_pop: test under the mutex, release it and test again. */
    method MyPop(windows: seq<seq<Deed<char>>>) returns (waits: nat, done: bool, toReturn: char)
      requires Valid()
      modifies this, buffer
      ensures Valid()
      ensures Outcome(buffer.Length, old(Contents()), windows, xs => |xs| > 0,
                      xs => if |xs| > 0 then xs[..|xs| - 1] else xs, waits, done, Contents())
      ensures done ==> After(buffer.Length, old(Contents()), windows, waits) == Contents() + [toReturn]
    {
      waits := 0;
      done := false;
      toReturn := ' ';
      while true
        invariant Valid() && waits <= |windows| && !done
        invariant Contents() == After(buffer.Length, old(Contents()), windows, waits)
        invariant forall k :: 0 <= k < waits ==> |After(buffer.Length, old(Contents()), windows, k)| == 0
        decreases |windows| - waits
      {
        if index > 0 {
          toReturn := Take();
          done := true;
          break;
        }
        if waits == |windows| {
          break;
        }
        Others(windows[waits]);
        waits := waits + 1;
      }
    }
  }
}
