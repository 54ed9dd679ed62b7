/** `dynamic_string_buffer` and `dynamic_vector_buffer` (asio/buffer.hpp), whose
    member functions have the same bodies over a string and over a vector, and
    the proof that they and `basic_streambuf` cannot be told apart. */
module DynamicBuffers {
  import opened Buffers
  import opened Fifo
  import opened Numbers
  import opened Streambuf

  class DynamicBuffer {
    var storage: seq<byte>
    var size: nat
    const maxSize: nat

    ghost predicate Valid()
      reads this
    {
      size <= |storage|
    }

    ghost function Contents(): seq<byte>
      reads this
      requires Valid()
    {
      storage[..size]
    }

    ghost function Spare(): seq<byte>
      reads this
      requires Valid()
    {
      storage[size..]
    }

    /** Existing bytes of the string or vector are the input sequence. */
    constructor (existing: seq<byte>, maximumSize: nat)
      ensures Valid() && maxSize == maximumSize && Contents() == existing && Spare() == []
    {
      storage, size, maxSize := existing, |existing|, maximumSize;
    }

    /** The `resize` of the string or vector. */
    method Resize(n: nat)
      modifies this`storage
      ensures |storage| == n
      ensures forall i :: 0 <= i < n ==> storage[i] == if i < |old(storage)| then old(storage)[i] else 0
    {
      var was := storage;
      storage := seq(n, i requires 0 <= i => if i < |was| then was[i] else 0);
    }

    method Prepare(n: nat) returns (ok: bool, region: Buffer)
      requires Valid()
      modifies this`storage
      ensures Valid()
      ensures ok <==> old(|Contents()|) + n <= maxSize
      ensures ok ==> Contents() == old(Contents()) && |Spare()| == n && region == Buffer(size, n)
      ensures ok ==> forall i :: 0 <= i < n ==> Spare()[i] == if i < |old(Spare())| then old(Spare())[i] else 0
      ensures !ok ==> storage == old(storage)
    {
      if size > maxSize || maxSize - size < n {
        return false, NULL_BUFFER;
      }
      Resize(size + n);
      return true, Clamp(Plus(Buffer(0, |storage|), size), n);
    }

    /** The caller writes through a region that `Prepare` returned, wherever that
        region lies by now. */
    method WriteThrough(region: Buffer, bytes: seq<byte>)
      requires |bytes| <= region.size && region.data + |bytes| <= |storage|
      modifies this`storage
      ensures storage == old(storage)[..region.data] + bytes + old(storage)[region.data + |bytes|..]
    {
      storage := storage[..region.data] + bytes + storage[region.data + |bytes|..];
    }

    /** Appends the start of the output sequence and discards the rest of it. */
    method Commit(n: nat)
      requires Valid()
      modifies this`storage, this`size
      ensures Valid() && Spare() == []
      ensures Contents() == old(Contents()) + old(Spare())[..Min(n, old(|Spare()|))]
    {
      size := size + if n < |storage| - size then n else |storage| - size;
      Resize(size);
    }

    method Consume(n: nat)
      requires Valid()
      modifies this`storage, this`size
      ensures Valid() && Spare() == old(Spare())
      ensures Contents() == old(Contents())[Min(n, old(|Contents()|))..]
    {
      var consumeLength := if n < size then n else size;
      storage := storage[consumeLength..];
      size := size - consumeLength;
    }
  }

  // ------------------------------------------------ observations of whole traces

  /** The implementation holds what the queue holds, and behind it what the
      caller wrote to the region it prepared. */
  ghost predicate Stands(q: Queue, contents: seq<byte>, spare: seq<byte>) {
    && Agrees(contents, q.contents)
    && |q.pending| <= q.prepared <= |spare|
    && q.pending == spare[..|q.pending|]
  }

  /** A commit of n prepared bytes appends what was written and whatever lies behind it. */
  lemma CommitStands(q: Queue, contents: seq<byte>, spare: seq<byte>, n: nat)
    requires Legal(q, Commit(n)) && Stands(q, contents, spare)
    ensures n <= |spare| && Stands(Step(q, Commit(n)).0, contents + spare[..n], spare[n..])
    ensures Meets(Shows(contents + spare[..n]), Step(q, Commit(n)).1)
  {
    var k := Min(n, |q.pending|);
    assert forall i :: 0 <= i < k ==> q.pending[i] == spare[i];
  }

  /** Where the last prepared region lies, given where the output sequence starts. */
  ghost predicate LiesAt(q: Queue, region: Buffer, start: nat) {
    q.prepared > 0 ==> region == Buffer(start, q.prepared)
  }

  /** Bytes written at the start of the output sequence are what a commit appends. */
  lemma WrittenInPlace(q: Queue, bytes: seq<byte>, was: seq<byte>, now: seq<byte>, from: nat, start: nat, end: nat)
    requires from <= start <= end <= |was| && |bytes| <= q.prepared
    requires Stands(q, was[from..start], was[start..end])
    requires now == was[..start] + bytes + was[start + |bytes|..]
    ensures |now| == |was| && Stands(Step(q, Write(bytes)).0, now[from..start], now[start..end])
  {
    Spliced(bytes, was, now, from, start, end);
  }

  lemma Spliced(bytes: seq<byte>, was: seq<byte>, now: seq<byte>, from: nat, start: nat, end: nat)
    requires from <= start <= end <= |was| && start + |bytes| <= end
    requires now == was[..start] + bytes + was[start + |bytes|..]
    ensures |now| == |was| && now[from..start] == was[from..start] && now[start..end][..|bytes|] == bytes
  {
    forall i | from <= i < start ensures now[i] == was[i] {
    }
    forall i | 0 <= i < |bytes| ensures now[start + i] == bytes[i] {
    }
  }

  /** The caller writes to the region of the last prepare. */
  method StreambufWrite(sb: BasicStreambuf, bytes: seq<byte>, region: Buffer, ghost q: Queue)
    requires sb.Valid() && Legal(q, Write(bytes))
    requires Stands(q, sb.Contents(), sb.Spare()) && LiesAt(q, region, sb.pptr)
    modifies sb.buffer
    ensures Stands(Step(q, Write(bytes)).0, sb.Contents(), sb.Spare())
  {
    if bytes != [] {
      ghost var was := sb.buffer[..];
      sb.WriteThrough(region, bytes);
      hide Stands, Step;
      WrittenInPlace(q, bytes, was, sb.buffer[..], sb.gptr, sb.pptr, sb.epptr);
    }
  }

  /** One character through std::streambuf, in or out. */
  method StreambufCharacter(sb: BasicStreambuf, op: Op, ghost region: Buffer, ghost q: Queue) returns (seen: Sight)
    requires sb.Valid() && q.maxSize == sb.maxSize && (op.Put? || op.Get?)
    requires Stands(q, sb.Contents(), sb.Spare()) && LiesAt(q, region, sb.pptr)
    modifies sb, sb.buffer
    ensures sb.Valid() && (sb.buffer == old(sb.buffer) || fresh(sb.buffer))
    ensures Meets(seen, Step(q, op).1)
    ensures var after := Step(q, op).0;
            seen != Fails ==> Stands(after, sb.Contents(), sb.Spare()) && LiesAt(after, region, sb.pptr)
  {
    if op.Put? {
      var ok := sb.Sputc(op.c);
      seen := if ok then Shows(sb.buffer[sb.gptr..sb.pptr]) else Fails;
    } else {
      var c := sb.Sbumpc();
      seen := Reads(c, sb.buffer[sb.gptr..sb.pptr]);
    }
  }

  /** One call on a `basic_streambuf`. The region of the last prepare stays the start
      of the output sequence, whatever is consumed. */
  method StreambufStep(sb: BasicStreambuf, op: Op, region: Buffer, ghost q: Queue)
    returns (seen: Sight, next: Buffer)
    requires sb.Valid() && q.maxSize == sb.maxSize && Legal(q, op)
    requires Stands(q, sb.Contents(), sb.Spare()) && LiesAt(q, region, sb.pptr)
    modifies sb, sb.buffer
    ensures sb.Valid() && (sb.buffer == old(sb.buffer) || fresh(sb.buffer))
    ensures Meets(seen, Step(q, op).1)
    ensures seen != Fails ==> Stands(Step(q, op).0, sb.Contents(), sb.Spare()) && LiesAt(Step(q, op).0, next, sb.pptr)
  {
    next := region;
    match op
    case Prepare(n) =>
      var ok;
      ok, next := sb.Prepare(n);
      if !ok { return Fails, next; }
      seen := Shows(sb.buffer[sb.gptr..sb.pptr]);
    case Write(bytes) =>
      StreambufWrite(sb, bytes, region, q);
      seen := Shows(sb.buffer[sb.gptr..sb.pptr]);
    case Commit(n) =>
      CommitStands(q, sb.Contents(), sb.Spare(), n);
      sb.Commit(n);
      seen := Shows(sb.buffer[sb.gptr..sb.pptr]);
    case Consume(n) =>
      sb.Consume(n);
      seen := Shows(sb.buffer[sb.gptr..sb.pptr]);
    case _ =>
      seen := StreambufCharacter(sb, op, region, q);
  }

  /** One call on a string or vector buffer. Its last prepared region lies behind the
      start of the output sequence by as many bytes as were taken since. */
  method DynamicStep(db: DynamicBuffer, op: Op, region: Buffer, ghost q: Queue)
    returns (seen: Sight, next: Buffer)
    requires db.Valid() && q.maxSize == db.maxSize && LegalDynamic(q, op)
    requires Stands(q, db.Contents(), db.Spare()) && LiesAt(q, region, db.size + q.taken)
    modifies db
    ensures db.Valid() && Meets(seen, Step(q, op).1)
    ensures var after := Step(q, op).0;
            seen != Fails ==> Stands(after, db.Contents(), db.Spare()) && LiesAt(after, next, db.size + after.taken)
  {
    next := region;
    match op
    case Prepare(n) =>
      var ok;
      ok, next := db.Prepare(n);
      if !ok { return Fails, next; }
      seen := Shows(db.storage[..db.size]);
    case Write(bytes) =>
      if bytes != [] {
        ghost var was := db.storage;
        db.WriteThrough(region, bytes);
        WrittenInPlace(q, bytes, was, db.storage, 0, db.size, |db.storage|);
      }
      seen := Shows(db.storage[..db.size]);
    case Commit(n) =>
      CommitStands(q, db.Contents(), db.Spare(), n);
      db.Commit(n);
      seen := Shows(db.storage[..db.size]);
    case Consume(n) =>
      db.Consume(n);
      seen := Shows(db.storage[..db.size]);
  }

  /** Every legal trace of a new `basic_streambuf` shows what the queue shows. */
  method ObserveStreambuf(maxSize: nat, ops: seq<Op>) returns (seen: seq<Sight>)
    requires LegalTrace(Empty(maxSize), ops)
    ensures AllMeet(seen, Observe(Empty(maxSize), ops))
  {
    var sb := new BasicStreambuf(maxSize);
    var region := NULL_BUFFER;
    ghost var q := Empty(maxSize);
    ghost var met: seq<Observation> := [];
    seen := [];
    var i := 0;
    while i < |ops|
      invariant 0 <= i <= |ops| && sb.Valid() && fresh(sb) && fresh(sb.buffer)
      invariant q.maxSize == sb.maxSize && Stands(q, sb.Contents(), sb.Spare()) && LiesAt(q, region, sb.pptr)
      invariant LegalTrace(q, ops[i..])
      invariant Observe(Empty(maxSize), ops) == met + Observe(q, ops[i..]) && AllMeet(seen, met)
    {
      assert ops[i..][0] == ops[i] && ops[i..][1..] == ops[i + 1..];
      var one;
      one, region := StreambufStep(sb, ops[i], region, q);
      ghost var shown := Step(q, ops[i]).1;
      OneMoreMeets(seen, met, one, shown);
      if one == Fails {
        return seen + [one];
      }
      q := Step(q, ops[i]).0;
      Associate(met, [shown], Observe(q, ops[i + 1..]));
      seen, met := seen + [one], met + [shown];
      i := i + 1;
    }
  }

  /** Every legal trace of a string or vector buffer that starts empty shows what the
      queue shows: on these traces no caller can tell the three apart. */
  method ObserveDynamic(maxSize: nat, ops: seq<Op>) returns (seen: seq<Sight>)
    requires LegalDynamicTrace(Empty(maxSize), ops)
    ensures AllMeet(seen, Observe(Empty(maxSize), ops))
  {
    var db := new DynamicBuffer([], maxSize);
    var region := NULL_BUFFER;
    ghost var q := Empty(maxSize);
    ghost var met: seq<Observation> := [];
    seen := [];
    var i := 0;
    while i < |ops|
      invariant 0 <= i <= |ops| && db.Valid() && fresh(db)
      invariant q.maxSize == db.maxSize && Stands(q, db.Contents(), db.Spare())
      invariant LiesAt(q, region, db.size + q.taken)
      invariant LegalDynamicTrace(q, ops[i..])
      invariant Observe(Empty(maxSize), ops) == met + Observe(q, ops[i..]) && AllMeet(seen, met)
    {
      assert ops[i..][0] == ops[i] && ops[i..][1..] == ops[i + 1..];
      var one;
      one, region := DynamicStep(db, ops[i], region, q);
      ghost var shown := Step(q, ops[i]).1;
      OneMoreMeets(seen, met, one, shown);
      if one == Fails {
        return seen + [one];
      }
      q := Step(q, ops[i]).0;
      Associate(met, [shown], Observe(q, ops[i + 1..]));
      seen, met := seen + [one], met + [shown];
      i := i + 1;
    }
  }

  /** The same calls on a new streambuf and on a new string or vector buffer: sizes and
      throws are the same, and the contents but for committed bytes that nobody
      wrote. If every commit keeps to what was written, all is the same. */
  method ShowTheSame(maxSize: nat, ops: seq<Op>) returns (xs: seq<Sight>, ys: seq<Sight>)
    requires LegalDynamicTrace(Empty(maxSize), ops)
    ensures var seen := Observe(Empty(maxSize), ops);
            |xs| == |ys| == |seen| && forall i :: 0 <= i < |seen| ==> SameButUnwritten(xs[i], ys[i], seen[i])
    ensures CommitsWritten(Empty(maxSize), ops) ==> xs == ys
  {
    xs := ObserveStreambuf(maxSize, ops);
    ys := ObserveDynamic(maxSize, ops);
    ghost var seen := Observe(Empty(maxSize), ops);
    MeetingIsAgreeing(xs, ys, seen);
    if CommitsWritten(Empty(maxSize), ops) {
      hide Observe, CommitsWritten, LegalTrace, LegalDynamicTrace, Meets, IsWritten, SameButUnwritten;
      forall i | 0 <= i < |seen| ensures xs[i] == ys[i] {
        WrittenTraceIsWritten(Empty(maxSize), ops, i);
        WrittenIsDetermined(xs[i], ys[i], seen[i]);
      }
    }
  }

  // ------------------------------------------------ where the buffers can be told apart

  /** A region that bytes were taken in front of is no longer where a commit looks:
      writing through it, inside the storage, shows up in the output sequence as many
      bytes late as were taken. */
  method WriteAfterConsume(db: DynamicBuffer, region: Buffer, bytes: seq<byte>, ghost q: Queue)
    requires db.Valid() && Stands(q, db.Contents(), db.Spare()) && LiesAt(q, region, db.size + q.taken)
    requires |bytes| <= q.prepared && region.data + |bytes| <= |db.storage|
    modifies db`storage
    ensures db.Valid() && db.Contents() == old(db.Contents())
    ensures bytes != [] ==>
              db.Spare() == old(db.Spare())[..q.taken] + bytes + old(db.Spare())[q.taken + |bytes|..]
  {
    if bytes != [] {
      ghost var was, spare := db.storage, db.Spare();
      db.WriteThrough(region, bytes);
      assert db.storage[..db.size] == was[..db.size];
      assert was[..region.data][db.size..] == spare[..q.taken];
      assert was[region.data + |bytes|..] == spare[q.taken + |bytes|..];
    }
  }

  /** i modulo n, by subtraction. */
  function Remainder(i: nat, n: nat): (r: nat)
    requires n > 0
    ensures r < n
  {
    if i < n then i else Remainder(i - n, n)
  }

  /** What lies `taken` places in front of byte i. */
  function InFront(spare: seq<byte>, bytes: seq<byte>, taken: nat, i: nat): byte
    requires taken <= |spare| && i < |bytes|
  {
    if i < taken then spare[i] else bytes[i - taken]
  }

  ghost predicate Follows(spare: seq<byte>, bytes: seq<byte>, taken: nat)
    requires taken <= |spare|
  {
    forall i :: 0 <= i < |bytes| ==> bytes[i] == InFront(spare, bytes, taken, i)
  }

  /** A commit appends such a write as it was written if and only if nothing was taken or
      the written bytes repeat the old ones, over and over at the length taken. */
  lemma LateBytesIff(spare: seq<byte>, bytes: seq<byte>, taken: nat)
    requires taken + |bytes| <= |spare|
    ensures (spare[..taken] + bytes + spare[taken + |bytes|..])[..|bytes|] == bytes <==>
            taken == 0 || forall i :: 0 <= i < |bytes| ==> bytes[i] == spare[Remainder(i, taken)]
  {
    var late := (spare[..taken] + bytes + spare[taken + |bytes|..])[..|bytes|];
    forall i | 0 <= i < |bytes| ensures late[i] == InFront(spare, bytes, taken, i) {
    }
    if Follows(spare, bytes, taken) {
      assert late == bytes;
    }
    if taken > 0 {
      FollowsIsRepeating(spare, bytes, taken);
    }
  }

  lemma FollowsIsRepeating(spare: seq<byte>, bytes: seq<byte>, taken: nat)
    requires 0 < taken <= |spare|
    ensures Follows(spare, bytes, taken) <==> forall i :: 0 <= i < |bytes| ==> bytes[i] == spare[Remainder(i, taken)]
  {
    if Follows(spare, bytes, taken) {
      forall i | 0 <= i < |bytes| ensures bytes[i] == spare[Remainder(i, taken)] {
        LateBytesRepeat(spare, bytes, taken, i);
      }
    } else {
      var i :| 0 <= i < |bytes| && bytes[i] != InFront(spare, bytes, taken, i);
        if i >= taken {
        assert bytes[i] != spare[Remainder(i, taken)] || bytes[i - taken] != spare[Remainder(i - taken, taken)];
      } else {
        assert bytes[i] != spare[Remainder(i, taken)];
      }
    }
  }

  lemma {:induction false} LateBytesRepeat(spare: seq<byte>, bytes: seq<byte>, taken: nat, i: nat)
    requires 0 < taken <= |spare| && i < |bytes| && Follows(spare, bytes, taken)
    ensures bytes[i] == spare[Remainder(i, taken)]
  {
    assert bytes[i] == InFront(spare, bytes, taken, i);
    if i >= taken {
      LateBytesRepeat(spare, bytes, taken, i - taken);
    }
  }

  /** One byte written after one was consumed: the streambuf commits it ... */
  method StreambufAfterConsume() returns (sb: BasicStreambuf)
    ensures sb.Valid() && sb.Contents() == [7]
  {
    sb := new BasicStreambuf(10);
    var ok := sb.Sputc(9);
    var region;
    ok, region := sb.Prepare(3);
    sb.Consume(1);
    assert sb.Contents() == [];
    StreambufWrite(sb, [7], region, Queue(10, [], [], 3, 1));
    assert sb.Spare()[..1] == [7];
    sb.Commit(1);
  }

  /** ... and a string buffer, in the same calls, commits the byte in front of it. */
  method StringBufferAfterConsume() returns (db: DynamicBuffer)
    ensures db.Valid() && db.Contents() == [0]
  {
    db := new DynamicBuffer([], 10);
    var ok, region := db.Prepare(1);
    db.WriteThrough(region, [9]);
    db.Commit(1);
    ok, region := db.Prepare(3);
    assert db.Spare()[0] == db.storage[1] == 0;
    db.Consume(1);
    assert db.storage[0] == 0;
    db.WriteThrough(region, [7]);
    db.Commit(1);
  }

  /** Of two buffers with the same contents, in the same state of the queue, the contents
      stay the same at a commit of n bytes if and only if what lies behind the
      written bytes, up to n, is the same in both. */
  lemma CommitsAgreeIff(q: Queue, contents: seq<byte>, spare: seq<byte>, other: seq<byte>, n: nat)
    requires Legal(q, Commit(n)) && Stands(q, contents, spare) && Stands(q, contents, other)
    ensures contents + spare[..n] == contents + other[..n] <==>
            forall i :: |q.pending| <= i < n ==> spare[i] == other[i]
  {
    var a, b := contents + spare[..n], contents + other[..n];
    forall i | 0 <= i < n ensures a[|contents| + i] == spare[i] && b[|contents| + i] == other[i] {
    }
    forall i | 0 <= i < |q.pending| ensures spare[i] == other[i] {
      assert spare[i] == q.pending[i] == other[i];
    }
    if forall i :: |q.pending| <= i < n ==> spare[i] == other[i] {
      assert spare[..n] == other[..n];
    }
  }

  /** A byte prepared and committed but not written: the streambuf shows what its vector
      held there ... */
  method StreambufUnwritten() returns (sb: BasicStreambuf)
    ensures sb.Valid() && sb.Contents() == [9]
  {
    sb := new BasicStreambuf(1);
    var ok, region := sb.Prepare(1);
    sb.WriteThrough(region, [9]);
    assert sb.Spare() == [9];
    sb.Commit(1);
    assert sb.Contents() == [9];
    sb.Consume(1);
    assert sb.pptr == 1 && sb.buffer[0] == 9;
    ok, region := sb.Prepare(1);
    assert sb.Spare()[0] == 9;
    sb.Commit(1);
  }

  /** ... and a string buffer, in the same calls, shows a zero. */
  method StringBufferUnwritten() returns (db: DynamicBuffer)
    ensures db.Valid() && db.Contents() == [0]
  {
    db := new DynamicBuffer([], 1);
    var ok, region := db.Prepare(1);
    db.WriteThrough(region, [9]);
    db.Commit(1);
    db.Consume(1);
    ok, region := db.Prepare(1);
    assert db.Spare()[0] == 0;
    db.Commit(1);
  }
}
