/** The linked queue the broker uses twice, through a head and a tail pointer. */
module LinkedQueue {

  class Node {
    var worker_id: int
    var next: Node?

    constructor (worker_id: int)
      ensures this.worker_id == worker_id && next == null
    {
      this.worker_id := worker_id;
      next := null;
    }
  }

  class Queue {
    var head: Node?
    var tail: Node?
    ghost var spine: seq<Node>

    /** The nodes from head to tail, all different, each pointing to the one after. */
    ghost predicate Valid()
      reads this, spine
    {
      && (head == null <==> tail == null)
      && (head == null <==> spine == [])
      && (spine != [] ==> head == spine[0] && tail == spine[|spine| - 1] && spine[|spine| - 1].next == null)
      && (forall i :: 0 <= i < |spine| - 1 ==> spine[i].next == spine[i + 1])
      && (forall i, j :: 0 <= i < j < |spine| ==> spine[i] != spine[j])
    }

    ghost function Contents(): seq<int>
      reads this, spine
    {
      seq(|spine|, i requires 0 <= i < |spine| reads this, spine => spine[i].worker_id)
    }

    constructor ()
      ensures Valid() && spine == [] && Contents() == []
    {
      head := null;
      tail := null;
      spine := [];
    }

    method Enqueue(worker_id: int)
      requires Valid()
      modifies this, spine
      ensures Valid() && Contents() == old(Contents()) + [worker_id]
      ensures |spine| == |old(spine)| + 1 && spine[..|old(spine)|] == old(spine) && fresh(spine[|old(spine)|])
      ensures forall n :: n in spine ==> n in old(spine) || fresh(n)
    {
      var new_node := new Node(worker_id);
      if tail == null {
        head := new_node;
        tail := new_node;
      } else {
        tail.next := new_node;
        tail := new_node;
      }
      spine := spine + [new_node];
    }

    /** -1 when the queue is empty, as the caller cannot tell from a stored -1. */
    method Dequeue() returns (worker_id: int)
      requires Valid()
      modifies this
      ensures Valid()
      ensures old(Contents()) == [] ==> worker_id == -1 && Contents() == [] && spine == []
      ensures old(Contents()) != [] ==> old(Contents()) == [worker_id] + Contents() && spine == old(spine)[1..]
    {
      if head == null {
        return -1;
      }
      worker_id := head.worker_id;
      ghost var before := spine;
      assert |before| > 1 ==> before[0].next == before[0 + 1];
      head := head.next;
      if head == null {
        tail := null;
      }
      spine := spine[1..];
      forall i | 0 <= i < |spine| - 1 ensures spine[i].next == spine[i + 1] {
        assert before[i + 1].next == before[i + 1 + 1];
      }
    }
  }
}
