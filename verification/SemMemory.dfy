/** push and pop of the semaphore program as they run in one process, over the array and
    the index in shared memory.  The array is never filled beyond all but one cell. */
module SemMemory {
  import opened Windows

  class Segment {
    const data: array<(int, int)>
    var shared_index: int

    ghost predicate Valid()
      reads this, data
    {
      0 <= shared_index < data.Length
    }

    ghost function Contents(): seq<(int, int)>
      requires Valid()
      reads this, data
    {
      data[..shared_index]
    }

    /** How many items fit: one cell less than there are. */
    ghost function Room(): nat {
      if data.Length > 0 then data.Length - 1 else 0
    }

    constructor (max_size: nat)
      requires max_size > 0
      ensures Valid() && Contents() == [] && data.Length == max_size && fresh(data)
    {
      data := new (int, int)[max_size];
      shared_index := 0;
    }

    /** Other processes use the stack. */
    method Others(deeds: seq<Deed<(int, int)>>)
      requires Valid()
      modifies this, data
      ensures Valid() && Contents() == AfterWindow(Room(), old(Contents()), deeds)
    {
      var i := 0;
      while i < |deeds|
        invariant 0 <= i <= |deeds| && Valid()
        invariant Contents() == AfterWindow(Room(), old(Contents()), deeds[..i])
      {
        assert deeds[..i + 1][..i] == deeds[..i];
        match deeds[i] {
          case PushDeed(pair) =>
            if shared_index < data.Length - 1 {
              data[shared_index] := pair;
              shared_index := shared_index + 1;
            }
          case PopDeed =>
            if shared_index > 0 {
              shared_index := shared_index - 1;
            }
        }
        i := i + 1;
      }
      assert deeds[..i] == deeds;
    }

    /** push: while the stack is full, release the mutex, sleep and take it again.  The
        call is still trying when the windows end before there is room. */
    method Push(pid: int, random_num: int, windows: seq<seq<Deed<(int, int)>>>) returns (waits: nat, done: bool)
      requires Valid()
      modifies this, data
      ensures Valid()
      ensures Outcome(Room(), old(Contents()), windows, xs => |xs| < Room(),
                      xs => xs + [(pid, random_num)], waits, done, Contents())
    {
      waits := 0;
      while shared_index == data.Length - 1 && waits < |windows|
        invariant Valid() && waits <= |windows|
        invariant Contents() == After(Room(), old(Contents()), windows, waits)
        invariant forall k :: 0 <= k < waits ==> |After(Room(), old(Contents()), windows, k)| == Room()
        decreases |windows| - waits
      {
        Others(windows[waits]);
        waits := waits + 1;
      }
      done := shared_index < data.Length - 1;
      if done {
        data[shared_index] := (pid, random_num);
        shared_index := shared_index + 1;
      }
    }

    /** The loop of pop: while the stack is empty, release the mutex, sleep and take it
        again. */
    method AwaitItem(windows: seq<seq<Deed<(int, int)>>>) returns (waits: nat)
      requires Valid()
      modifies this, data
      ensures Valid() && waits <= |windows|
      ensures Contents() == After(Room(), old(Contents()), windows, waits)
      ensures forall k :: 0 <= k < waits ==> After(Room(), old(Contents()), windows, k) == []
      ensures shared_index == 0 ==> waits == |windows|
    {
      waits := 0;
      while shared_index == 0 && waits < |windows|
        invariant Valid() && waits <= |windows|
        invariant Contents() == After(Room(), old(Contents()), windows, waits)
        invariant forall k :: 0 <= k < waits ==> After(Room(), old(Contents()), windows, k) == []
        decreases |windows| - waits
      {
        Others(windows[waits]);
        waits := waits + 1;
      }
    }

    /** pop: wait for an item, lower the index, release the mutex, and only then read the
        cell the index names.  `late` is what producers push between that release and the
        read. */
    method Pop(windows: seq<seq<Deed<(int, int)>>>, late: seq<(int, int)>)
      returns (waits: nat, done: bool, item: (int, int))
      requires Valid()
      modifies this, data
      ensures Valid() && waits <= |windows| && item == data[shared_index]
      ensures Outcome(Room(), old(Contents()), windows, xs => |xs| > 0,
                      xs => if |xs| > 0 then AfterPushes(Room(), xs[..|xs| - 1], late) else xs, waits, done, Contents())
      ensures done && late == [] ==> After(Room(), old(Contents()), windows, waits) == Contents() + [item]
    {
      waits := AwaitItem(windows);
      done := shared_index > 0;
      if done {
        ghost var now := Contents();
        shared_index := shared_index - 1;
        assert Contents() == now[..|now| - 1];
        PushLate(late);
      }
      item := data[shared_index];
    }

    method PushLate(late: seq<(int, int)>)
      requires Valid()
      modifies this, data
      ensures Valid() && Contents() == AfterPushes(Room(), old(Contents()), late)
      ensures late == [] ==> data[..] == old(data[..])
    {
      var i := 0;
      while i < |late|
        invariant 0 <= i <= |late| && Valid()
        invariant Contents() == AfterPushes(Room(), old(Contents()), late[..i])
        invariant i == 0 ==> data[..] == old(data[..])
      {
        assert late[..i + 1][..i] == late[..i];
        if shared_index < data.Length - 1 {
          data[shared_index] := late[i];
          shared_index := shared_index + 1;
        }
        i := i + 1;
      }
      assert late[..i] == late;
    }
  }

  function AfterPushes(K: nat, xs: seq<(int, int)>, late: seq<(int, int)>): seq<(int, int)> {
    if late == [] then xs else Done(K, AfterPushes(K, xs, late[..|late| - 1]), PushDeed(late[|late| - 1]))
  }
}
