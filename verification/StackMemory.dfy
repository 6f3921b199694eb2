/** The buffer and index both stack modules share, and the two updates made to
    them inside the critical section. */
module StackMemory {
  import opened Options
  import opened LifoStack

  datatype Memory = Memory(buffer: seq<char>, index: int) {
    predicate Valid() {
      0 <= index <= |buffer|
    }

    function Contents(): seq<char>
      requires Valid()
    {
      buffer[..index]
    }

    function Store(c: char): Memory
      requires 0 <= index < |buffer|
    {
      Memory(buffer[index := c], index + 1)
    }

    function Top(): char
      requires 0 < index <= |buffer|
    {
      buffer[index - 1]
    }

    function Take(): Memory {
      Memory(buffer, index - 1)
    }
  }

  /** Storing at the index is the abstract push. */
  lemma StoreIsPush(m: Memory, c: char)
    requires 0 <= m.index < |m.buffer|
    ensures m.Store(c).Valid() && |m.Store(c).buffer| == |m.buffer|
    ensures Apply(|m.buffer|, m.Contents(), Push(c)) == Some(m.Store(c).Contents())
  {
    assert m.Store(c).buffer[..m.index + 1] == m.buffer[..m.index] + [c];
  }

  /** Lowering the index and reading the cell there is the abstract pop. */
  lemma TakeIsPop(m: Memory)
    requires 0 < m.index <= |m.buffer|
    ensures m.Take().Valid()
    ensures Apply(|m.buffer|, m.Contents(), Pop(m.Top())) == Some(m.Take().Contents())
  {
    assert m.buffer[..m.index][..m.index - 1] == m.buffer[..m.index - 1];
  }
}
