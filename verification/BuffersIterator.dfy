/** The random access iterator over the bytes of a buffer list
    (asio/buffers_iterator.hpp).

    `CursorAt` says where an iterator at a given flat position must stand;
    `Incremented` and `Decremented` say what one step does to the buffer index
    and the offset. The lemmas tie the two together; the class is proved
    against them. */
module BuffersIterator {
  import opened Buffers

  /** What a caller can tell of an iterator: the cached buffer is not part of it. */
  datatype Cursor = Cursor(current: nat, offset: nat, position: nat)

  /** The only place an iterator at flat position p may stand. */
  ghost function CursorAt(bs: seq<Buffer>, p: nat): Cursor
    requires p <= TotalSize(bs)
  {
    if p == TotalSize(bs) then
      Cursor(|bs|, 0, p)
    else
      var i := IndexOf(bs, p, |bs|);
      Cursor(i, p - Before(bs, i), p)
  }

  /** The position is the bytes before the current buffer plus the offset, and
      the current buffer holds a byte at the offset unless this is the end. */
  ghost predicate Canonical(bs: seq<Buffer>, c: Cursor) {
    && c.current <= |bs|
    && c.position == Before(bs, c.current) + c.offset
    && if c.current < |bs| then c.offset < bs[c.current].size else c.offset == 0
  }

  /** The position alone determines where an iterator stands. */
  lemma CanonicalIffCursorAt(bs: seq<Buffer>, c: Cursor)
    ensures Canonical(bs, c) <==> c.position <= TotalSize(bs) && c == CursorAt(bs, c.position)
  {
    if c.current < |bs| && Canonical(bs, c) {
      IndexUnique(bs, c.position, |bs|, c.current);
    }
  }

  // ------------------------------------------------ single steps

  /** First buffer at or after i that is not empty, or the end. */
  ghost function FirstNonEmpty(bs: seq<Buffer>, i: nat): (j: nat)
    requires i <= |bs|
    ensures i <= j <= |bs| && Before(bs, j) == Before(bs, i)
    ensures forall k :: i <= k < j ==> bs[k].size == 0
    ensures j < |bs| ==> bs[j].size > 0
    decreases |bs| - i
  {
    if i == |bs| || bs[i].size > 0 then i else
      assert Before(bs, i + 1) == Before(bs, i);
      FirstNonEmpty(bs, i + 1)
  }

  /** Last buffer before i that is not empty. */
  ghost function LastNonEmpty(bs: seq<Buffer>, i: nat): (j: nat)
    requires i <= |bs| && Before(bs, i) > 0
    ensures j < i && bs[j].size > 0 && Before(bs, j) + bs[j].size == Before(bs, i)
  {
    if bs[i - 1].size > 0 then i - 1 else LastNonEmpty(bs, i - 1)
  }

  ghost function Incremented(bs: seq<Buffer>, c: Cursor): Cursor
    requires Canonical(bs, c) && c.current < |bs|
  {
    if c.offset + 1 < bs[c.current].size then
      Cursor(c.current, c.offset + 1, c.position + 1)
    else
      Cursor(FirstNonEmpty(bs, c.current + 1), 0, c.position + 1)
  }

  ghost function Decremented(bs: seq<Buffer>, c: Cursor): Cursor
    requires Canonical(bs, c) && c.position > 0
  {
    if c.offset > 0 then
      Cursor(c.current, c.offset - 1, c.position - 1)
    else
      var j := LastNonEmpty(bs, c.current);
      Cursor(j, bs[j].size - 1, c.position - 1)
  }

  /** One step forward stands where the next position demands. */
  lemma IncrementedIsNext(bs: seq<Buffer>, c: Cursor)
    requires Canonical(bs, c) && c.current < |bs|
    ensures c.position < TotalSize(bs)
    ensures Canonical(bs, Incremented(bs, c))
    ensures Incremented(bs, c) == CursorAt(bs, c.position + 1)
  {
    BeforeMonotone(bs, c.current + 1, |bs|);
    CanonicalIffCursorAt(bs, Incremented(bs, c));
  }

  /** One step back stands where the previous position demands. */
  lemma DecrementedIsPrevious(bs: seq<Buffer>, c: Cursor)
    requires Canonical(bs, c) && c.position > 0
    ensures Canonical(bs, Decremented(bs, c))
    ensures c.position <= TotalSize(bs) && Decremented(bs, c) == CursorAt(bs, c.position - 1)
  {
    CanonicalIffCursorAt(bs, c);
    CanonicalIffCursorAt(bs, Decremented(bs, c));
  }

  /** `--` undoes `++` and `++` undoes `--`, wherever the iterator stands. */
  lemma StepsUndoEachOther(bs: seq<Buffer>, c: Cursor)
    requires Canonical(bs, c)
    ensures c.current < |bs| ==>
              Canonical(bs, Incremented(bs, c)) && Decremented(bs, Incremented(bs, c)) == c
    ensures c.position > 0 ==>
              var d := Decremented(bs, c);
              Canonical(bs, d) && d.current < |bs| && Incremented(bs, d) == c
  {
    CanonicalIffCursorAt(bs, c);
    if c.current < |bs| {
      IncrementedIsNext(bs, c);
      DecrementedIsPrevious(bs, Incremented(bs, c));
    }
    if c.position > 0 {
      DecrementedIsPrevious(bs, c);
      IncrementedIsNext(bs, Decremented(bs, c));
    }
  }

  // ------------------------------------------------ many steps

  /** n steps forward. */
  ghost function IncrementedBy(bs: seq<Buffer>, c: Cursor, n: nat): (d: Cursor)
    requires Canonical(bs, c) && c.position + n <= TotalSize(bs)
    ensures Canonical(bs, d) && d.position == c.position + n
  {
    if n == 0 then c else
      var d := IncrementedBy(bs, c, n - 1);
      assert d.current < |bs|;
      IncrementedIsNext(bs, d);
      Incremented(bs, d)
  }

  /** n steps back. */
  ghost function DecrementedBy(bs: seq<Buffer>, c: Cursor, n: nat): (d: Cursor)
    requires Canonical(bs, c) && n <= c.position
    ensures Canonical(bs, d) && d.position == c.position - n
  {
    if n == 0 then c else
      var d := DecrementedBy(bs, c, n - 1);
      DecrementedIsPrevious(bs, d);
      Decremented(bs, d)
  }

  /** `advance(n)` ends where n increments end, `advance(-n)` where n decrements end. */
  lemma AdvanceIsRepeatedSteps(bs: seq<Buffer>, c: Cursor, n: nat)
    requires Canonical(bs, c)
    ensures c.position + n <= TotalSize(bs) ==>
              IncrementedBy(bs, c, n) == CursorAt(bs, c.position + n)
    ensures n <= c.position ==>
              c.position <= TotalSize(bs) && DecrementedBy(bs, c, n) == CursorAt(bs, c.position - n)
  {
    CanonicalIffCursorAt(bs, c);
    if c.position + n <= TotalSize(bs) {
      CanonicalIffCursorAt(bs, IncrementedBy(bs, c, n));
    }
    if n <= c.position {
      CanonicalIffCursorAt(bs, DecrementedBy(bs, c, n));
    }
  }

  /** Going n bytes one way and n bytes back restores index, offset and position. */
  lemma BackwardUndoesForward(bs: seq<Buffer>, c: Cursor, n: nat)
    requires Canonical(bs, c)
    ensures c.position + n <= TotalSize(bs) ==> DecrementedBy(bs, IncrementedBy(bs, c, n), n) == c
    ensures n <= c.position <= TotalSize(bs) ==> IncrementedBy(bs, DecrementedBy(bs, c, n), n) == c
  {
    CanonicalIffCursorAt(bs, c);
    if c.position + n <= TotalSize(bs) {
      AdvanceIsRepeatedSteps(bs, IncrementedBy(bs, c, n), n);
    }
    if n <= c.position <= TotalSize(bs) {
      AdvanceIsRepeatedSteps(bs, DecrementedBy(bs, c, n), n);
    }
  }

  // ------------------------------------------------ the iterator

  class Iterator {
    const memory: array<byte>
    const buffers: seq<Buffer>
    var currentBuffer: Buffer
    var currentBufferPosition: nat
    var current: nat
    var position: nat

    ghost function View(): Cursor
      reads this
    {
      Cursor(current, currentBufferPosition, position)
    }

    /** Says nothing of the cached buffer at the end, where it may be stale. */
    ghost predicate Valid()
      reads this
    {
      && InMemory(memory.Length, buffers)
      && Canonical(buffers, View())
      && (current < |buffers| ==> currentBuffer == buffers[current])
    }

    /** Start of the data: the first buffer that is not empty. */
    constructor Begin(memory: array<byte>, buffers: seq<Buffer>)
      requires InMemory(memory.Length, buffers)
      ensures this.memory == memory && this.buffers == buffers
      ensures Valid() && View() == CursorAt(buffers, 0)
    {
      this.memory, this.buffers := memory, buffers;
      currentBuffer, currentBufferPosition, current, position := NULL_BUFFER, 0, 0, 0;
      new;
      while current != |buffers|
        invariant current <= |buffers| && Before(buffers, current) == 0
        invariant currentBufferPosition == 0 && position == 0
        decreases |buffers| - current
      {
        currentBuffer := buffers[current];
        if currentBuffer.size > 0 {
          break;
        }
        current := current + 1;
      }
      CanonicalIffCursorAt(buffers, View());
    }

    /** End of the data: past the last buffer, with all sizes summed. */
    constructor End(memory: array<byte>, buffers: seq<Buffer>)
      requires InMemory(memory.Length, buffers)
      ensures this.memory == memory && this.buffers == buffers
      ensures Valid() && View() == CursorAt(buffers, TotalSize(buffers))
    {
      this.memory, this.buffers := memory, buffers;
      currentBuffer, currentBufferPosition, current, position := NULL_BUFFER, 0, 0, 0;
      new;
      while current != |buffers|
        invariant current <= |buffers| && position == Before(buffers, current)
        invariant currentBufferPosition == 0
        decreases |buffers| - current
      {
        position := position + buffers[current].size;
        current := current + 1;
      }
    }

    constructor Copy(other: Iterator)
      requires other.Valid()
      ensures memory == other.memory && buffers == other.buffers
      ensures Valid() && View() == other.View()
    {
      memory, buffers, currentBuffer := other.memory, other.buffers, other.currentBuffer;
      currentBufferPosition, current, position := other.currentBufferPosition, other.current, other.position;
    }

    method Dereference() returns (b: byte)
      requires Valid() && position < TotalSize(buffers)
      ensures b == Gather(memory[..], buffers)[position]
    {
      CanonicalIffCursorAt(buffers, View());
      b := memory[currentBuffer.data + currentBufferPosition];
    }

    method Increment()
      requires Valid() && current != |buffers|
      modifies this
      ensures Valid() && View() == Incremented(buffers, old(View()))
      ensures old(position) < TotalSize(buffers) && View() == CursorAt(buffers, old(position) + 1)
    {
      IncrementedIsNext(buffers, View());
      position := position + 1;
      currentBufferPosition := currentBufferPosition + 1;
      if currentBufferPosition != currentBuffer.size {
        return;
      }
      current := current + 1;
      currentBufferPosition := 0;
      while current != |buffers|
        invariant old(current) < current <= |buffers|
        invariant FirstNonEmpty(buffers, old(current) + 1) == FirstNonEmpty(buffers, current)
        invariant currentBufferPosition == 0 && position == old(position) + 1
        decreases |buffers| - current
      {
        currentBuffer := buffers[current];
        if currentBuffer.size > 0 {
          return;
        }
        current := current + 1;
      }
    }

    method Decrement()
      requires Valid() && position > 0
      modifies this
      ensures Valid() && View() == Decremented(buffers, old(View()))
      ensures old(position) <= TotalSize(buffers) && View() == CursorAt(buffers, old(position) - 1)
    {
      DecrementedIsPrevious(buffers, View());
      position := position - 1;
      if currentBufferPosition != 0 {
        currentBufferPosition := currentBufferPosition - 1;
        return;
      }
      var iter := current;
      while iter != 0
        invariant 0 <= iter <= current == old(current)
        invariant Before(buffers, iter) == Before(buffers, current) == old(position)
        invariant LastNonEmpty(buffers, iter) == LastNonEmpty(buffers, current)
        invariant currentBufferPosition == 0 && position == old(position) - 1
        decreases iter
      {
        iter := iter - 1;
        var buffer := buffers[iter];
        if buffer.size > 0 {
          current, currentBuffer, currentBufferPosition := iter, buffer, buffer.size - 1;
          return;
        }
      }
    }

    /** Moves by n bytes either way. The target must lie in the sequence, as the
        source's own assertions demand. */
    method Advance(n: int)
      requires Valid() && 0 <= position + n <= TotalSize(buffers)
      modifies this
      ensures Valid() && View() == CursorAt(buffers, old(position) + n)
    {
      CanonicalIffCursorAt(buffers, View());
      if n > 0 {
        AdvanceForward(n);
      } else if n < 0 {
        AdvanceBackward(-n);
      }
    }

    method AdvanceForward(distance: nat)
      requires Valid() && distance > 0 && position + distance <= TotalSize(buffers)
      modifies this
      ensures Valid() && View() == CursorAt(buffers, old(position) + distance)
    {
      var n := distance;
      while true
        invariant current < |buffers| && currentBuffer == buffers[current]
        invariant currentBufferPosition <= currentBuffer.size
        invariant position == Before(buffers, current) + currentBufferPosition
        invariant 0 <= n && position + n == old(position) + distance
        decreases |buffers| - current
      {
        var balance := currentBuffer.size - currentBufferPosition;
        if balance > n {
          position := position + n;
          currentBufferPosition := currentBufferPosition + n;
          CanonicalIffCursorAt(buffers, View());
          return;
        }
        BeforeMonotone(buffers, current + 1, |buffers|);
        n := n - balance;
        position := position + balance;
        current := current + 1;
        if current == |buffers| {
          currentBuffer, currentBufferPosition := NULL_BUFFER, 0;
          CanonicalIffCursorAt(buffers, View());
          return;
        }
        currentBuffer, currentBufferPosition := buffers[current], 0;
      }
    }

    method AdvanceBackward(distance: nat)
      requires Valid() && 0 < distance <= position
      modifies this
      ensures old(position) <= TotalSize(buffers)
      ensures Valid() && View() == CursorAt(buffers, old(position) - distance)
    {
      CanonicalIffCursorAt(buffers, View());
      var absN := distance;
      while true
        invariant current <= |buffers| && 0 < absN <= position
        invariant if current < |buffers| then
                    currentBuffer == buffers[current] && currentBufferPosition <= currentBuffer.size
                  else currentBufferPosition == 0
        invariant position == Before(buffers, current) + currentBufferPosition
        invariant position - absN == old(position) - distance
        decreases current
      {
        if currentBufferPosition >= absN {
          position := position - absN;
          currentBufferPosition := currentBufferPosition - absN;
          CanonicalIffCursorAt(buffers, View());
          return;
        }
        absN := absN - currentBufferPosition;
        position := position - currentBufferPosition;
        if current == 0 {
          // Bytes remain to be skipped and they all lie before `current`.
          assert false;
        }
        ghost var at := LastNonEmpty(buffers, current);
        var iter := current;
        while iter != 0
          invariant at < iter <= current && Before(buffers, iter) > 0
          invariant current < |buffers| ==> currentBuffer == buffers[current]
          invariant position == Before(buffers, current)
          invariant LastNonEmpty(buffers, iter) == at
          decreases iter
        {
          iter := iter - 1;
          var buffer := buffers[iter];
          if buffer.size > 0 {
            current, currentBuffer, currentBufferPosition := iter, buffer, buffer.size;
            break;
          }
        }
      }
    }

    /** `iter[n]` reads the byte n places away. */
    method At(n: int) returns (b: byte)
      requires Valid() && 0 <= position + n < TotalSize(buffers)
      ensures b == Gather(memory[..], buffers)[position + n]
    {
      var tmp := new Iterator.Copy(this);
      tmp.Advance(n);
      b := tmp.Dereference();
    }

    /** `other - this`: how far `Advance` must go to reach the other iterator. */
    method DistanceTo(other: Iterator) returns (d: int)
      requires Valid() && other.Valid() && buffers == other.buffers
      ensures 0 <= position + d <= TotalSize(buffers) && CursorAt(buffers, position + d) == other.View()
    {
      CanonicalIffCursorAt(buffers, View());
      CanonicalIffCursorAt(buffers, other.View());
      d := other.position - position;
    }

    /** Comparing positions decides whether two iterators stand at the same place. */
    method Equal(other: Iterator) returns (same: bool)
      requires Valid() && other.Valid() && buffers == other.buffers
      ensures same <==> View() == other.View()
    {
      CanonicalIffCursorAt(buffers, View());
      CanonicalIffCursorAt(buffers, other.View());
      same := position == other.position;
    }

    /** `<` holds exactly when some steps forward lead to the other iterator. */
    method Less(other: Iterator) returns (less: bool)
      requires Valid() && other.Valid() && buffers == other.buffers
      ensures less <==> exists n: nat :: 0 < n && position + n <= TotalSize(buffers) &&
                                         IncrementedBy(buffers, View(), n) == other.View()
    {
      CanonicalIffCursorAt(buffers, other.View());
      var d := DistanceTo(other);
      less := d > 0;
      if less {
        AdvanceIsRepeatedSteps(buffers, View(), d);
      }
    }
  }
}
