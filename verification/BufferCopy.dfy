/** `buffer_copy`: scatter/gather copying between lists of buffers
    (asio/buffer.hpp).

    The specification is flat: gather the source, keep the first `CopyCount`
    bytes, write them over the flat view of the target one byte at a time.
    Every overload is proved against it, so that all of them agree. */
module BufferCopy {
  import opened Buffers
  import opened Numbers
  import opened Sets

  /** No byte of memory appears twice in the list. */
  ghost predicate NoOverlap(bs: seq<Buffer>) {
    forall p: nat, q: nat :: p < q < TotalSize(bs) ==> AddressOf(bs, p) != AddressOf(bs, q)
  }

  /** The lists share no byte: what `memcpy` asks of its callers. */
  ghost predicate Apart(target: seq<Buffer>, source: seq<Buffer>) {
    forall p: nat, q: nat :: p < TotalSize(target) && q < TotalSize(source) ==>
                               AddressOf(target, p) != AddressOf(source, q)
  }

  ghost function CopyCount(target: seq<Buffer>, source: seq<Buffer>, limit: nat): nat {
    Min(Min(TotalSize(target), TotalSize(source)), limit)
  }

  /** Memory after writing the first n bytes of `flat` over the flat view of `target`. */
  ghost function Scatter(memory: seq<byte>, target: seq<Buffer>, flat: seq<byte>, n: nat): (m: seq<byte>)
    requires InMemory(|memory|, target) && n <= |flat| && n <= TotalSize(target)
    ensures |m| == |memory|
  {
    if n == 0 then memory else
      AddressFits(|memory|, target, n - 1);
      Scatter(memory, target, flat, n - 1)[AddressOf(target, n - 1) := flat[n - 1]]
  }

  /** Memory after copying at most `limit` bytes of `source` to `target`. */
  ghost function Copied(memory: seq<byte>, target: seq<Buffer>, source: seq<Buffer>, limit: nat): (m: seq<byte>)
    requires InMemory(|memory|, target) && InMemory(|memory|, source)
    ensures |m| == |memory|
  {
    Scatter(memory, target, Gather(memory, source), CopyCount(target, source, limit))
  }

  // ------------------------------------------------ what a copy does

  lemma {:induction false} ScatterAt(memory: seq<byte>, target: seq<Buffer>, flat: seq<byte>, n: nat, p: nat)
    requires InMemory(|memory|, target) && NoOverlap(target)
    requires n <= |flat| && n <= TotalSize(target) && p < TotalSize(target)
    ensures AddressOf(target, p) < |memory|
    ensures Scatter(memory, target, flat, n)[AddressOf(target, p)] ==
            if p < n then flat[p] else memory[AddressOf(target, p)]
  {
    AddressFits(|memory|, target, p);
    if n > 0 {
      ScatterAt(memory, target, flat, n - 1, p);
    }
  }

  /** An address outside the target is not written. */
  lemma {:induction false} ScatterOutside(memory: seq<byte>, target: seq<Buffer>, flat: seq<byte>, n: nat, a: nat)
    requires InMemory(|memory|, target) && n <= |flat| && n <= TotalSize(target) && a < |memory|
    requires forall p: nat :: p < n ==> AddressOf(target, p) != a
    ensures Scatter(memory, target, flat, n)[a] == memory[a]
  {
    if n > 0 {
      ScatterOutside(memory, target, flat, n - 1, a);
    }
  }

  /** One of the first n bytes of the target lies at the address. */
  ghost predicate Overwritten(target: seq<Buffer>, n: nat, a: nat)
    requires n <= TotalSize(target)
  {
    exists p: nat :: p < n && AddressOf(target, p) == a
  }

  /** The flat target is the copied prefix of the flat source followed by its own old tail. */
  lemma CopyFillsTarget(memory: seq<byte>, target: seq<Buffer>, source: seq<Buffer>, limit: nat)
    requires InMemory(|memory|, target) && InMemory(|memory|, source) && NoOverlap(target)
    ensures var n := CopyCount(target, source, limit);
            Gather(Copied(memory, target, source, limit), target) ==
            Gather(memory, source)[..n] + Gather(memory, target)[n..]
  {
    var n := CopyCount(target, source, limit);
    var flat, was := Gather(memory, source), Gather(memory, target);
    var after := Gather(Copied(memory, target, source, limit), target);
    forall p: nat | p < TotalSize(target) ensures after[p] == if p < n then flat[p] else was[p] {
      ScatterAt(memory, target, flat, n, p);
    }
    assert after[..n] == flat[..n];
    assert after[n..] == was[n..];
  }

  /** The source keeps its bytes, and nothing outside the copied part of the target changes. */
  lemma CopyTouchesOnlyTarget(memory: seq<byte>, target: seq<Buffer>, source: seq<Buffer>, limit: nat)
    requires InMemory(|memory|, target) && InMemory(|memory|, source) && Apart(target, source)
    ensures Gather(Copied(memory, target, source, limit), source) == Gather(memory, source)
    ensures forall a: nat :: a < |memory| && !Overwritten(target, CopyCount(target, source, limit), a)
                             ==> Copied(memory, target, source, limit)[a] == memory[a]
  {
    var n := CopyCount(target, source, limit);
    var flat := Gather(memory, source);
    var m := Copied(memory, target, source, limit);
    forall p: nat | p < TotalSize(source) ensures Gather(m, source)[p] == flat[p] {
      ScatterOutside(memory, target, flat, n, AddressOf(source, p));
    }
    forall a: nat | a < |memory| && !Overwritten(target, n, a) ensures m[a] == memory[a] {
      ScatterOutside(memory, target, flat, n, a);
    }
  }

  // ------------------------------------------------ an absent limit

  ghost function AddressesOf(bs: seq<Buffer>, n: nat): set<nat>
    requires n <= TotalSize(bs)
  {
    if n == 0 then {} else AddressesOf(bs, n - 1) + {AddressOf(bs, n - 1)}
  }

  lemma {:induction false} AddressNotRepeated(bs: seq<Buffer>, n: nat, q: nat)
    requires NoOverlap(bs) && n <= q < TotalSize(bs)
    ensures AddressOf(bs, q) !in AddressesOf(bs, n)
  {
    if n > 0 {
      AddressNotRepeated(bs, n - 1, q);
    }
  }

  lemma {:induction false} AddressCount(memorySize: nat, bs: seq<Buffer>, n: nat)
    requires InMemory(memorySize, bs) && NoOverlap(bs) && n <= TotalSize(bs)
    ensures |AddressesOf(bs, n)| == n && forall a :: a in AddressesOf(bs, n) ==> a < memorySize
  {
    if n > 0 {
      AddressCount(memorySize, bs, n - 1);
      AddressNotRepeated(bs, n - 1, n - 1);
      AddressFits(memorySize, bs, n - 1);
    }
  }

  ghost function AllAddresses(n: nat): (r: set<nat>)
    ensures |r| == n && forall a: nat :: a in r <==> a < n
  {
    if n == 0 then {} else AllAddresses(n - 1) + {n - 1}
  }

  /** Buffers that do not overlap hold no more bytes than memory does, so that a
      `size_t` counts them without wrapping. */
  lemma TotalFits(memorySize: nat, bs: seq<Buffer>)
    requires InMemory(memorySize, bs) && NoOverlap(bs)
    ensures TotalSize(bs) <= memorySize
  {
    AddressCount(memorySize, bs, TotalSize(bs));
    SubsetSize(AddressesOf(bs, TotalSize(bs)), AllAddresses(memorySize));
  }

  /** For a target that does not overlap itself, leaving the limit out is the same as
      passing the largest `size_t`. */
  lemma NoLimitIsSizeMax(memorySize: nat, target: seq<Buffer>, source: seq<Buffer>)
    requires InMemory(memorySize, target) && NoOverlap(target) && memorySize <= SIZE_MAX
    ensures CopyCount(target, source, SIZE_MAX) == Min(TotalSize(target), TotalSize(source))
  {
    TotalFits(memorySize, target);
  }

  // ------------------------------------------------ one step of a copy

  /** `now` is `was` with n bytes moved from one place to another. */
  ghost predicate Moved(was: seq<byte>, now: seq<byte>, to: nat, from: nat, n: nat)
    requires n > 0 ==> from + n <= |was|
  {
    && |now| == |was|
    && (forall a: nat :: to <= a < to + n && a < |now| ==> now[a] == was[from + (a - to)])
    && (forall a: nat :: (a < to || to + n <= a) && a < |now| ==> now[a] == was[a])
  }

  /** Writing k more bytes inside buffer i writes a run of consecutive addresses. */
  lemma {:induction false} ScatterRun(memory: seq<byte>, target: seq<Buffer>, flat: seq<byte>,
                                      i: nat, offset: nat, k: nat, a: nat)
    requires InMemory(|memory|, target) && i < |target| && a < |memory|
    requires offset + k <= target[i].size
    requires Before(target, i) + offset + k <= |flat| && Before(target, i) + offset + k <= TotalSize(target)
    ensures var total, at := Before(target, i) + offset, target[i].data + offset;
            Scatter(memory, target, flat, total + k)[a] ==
            if at <= a < at + k then flat[total + (a - at)] else Scatter(memory, target, flat, total)[a]
    decreases k
  {
    if k > 0 {
      ScatterRun(memory, target, flat, i, offset, k - 1, a);
      AddressIn(target, i, offset + k - 1);
    }
  }

  /** What is read at matching cursors is the next stretch of the flat source. */
  lemma SourceRun(memory: seq<byte>, target: seq<Buffer>, source: seq<Buffer>, n: nat, i: nat, offset: nat)
    requires InMemory(|memory|, target) && InMemory(|memory|, source) && Apart(target, source)
    requires n <= TotalSize(source) && n <= TotalSize(target)
    requires i < |source| && offset < source[i].size
    ensures Before(source, i) + offset < TotalSize(source) && source[i].data + offset < |memory|
    ensures Scatter(memory, target, Gather(memory, source), n)[source[i].data + offset] ==
            Gather(memory, source)[Before(source, i) + offset]
  {
    AddressIn(source, i, offset);
    AddressFits(|memory|, source, Before(source, i) + offset);
    ScatterOutside(memory, target, Gather(memory, source), n, source[i].data + offset);
  }

  lemma CopyStepAt(before: seq<byte>, was: seq<byte>, now: seq<byte>, target: seq<Buffer>, source: seq<Buffer>,
                   ti: nat, toff: nat, si: nat, soff: nat, k: nat, a: nat)
    requires InMemory(|before|, target) && InMemory(|before|, source) && Apart(target, source)
    requires ti < |target| && toff + k <= target[ti].size
    requires si < |source| && soff + k <= source[si].size
    requires Before(target, ti) + toff == Before(source, si) + soff
    requires Before(target, ti) + toff + k <= TotalSize(target) && Before(source, si) + soff + k <= TotalSize(source)
    requires was == Scatter(before, target, Gather(before, source), Before(target, ti) + toff)
    requires k > 0 ==> source[si].data + soff + k <= |was|
    requires Moved(was, now, target[ti].data + toff, source[si].data + soff, k)
    requires a < |before|
    ensures now[a] == Scatter(before, target, Gather(before, source), Before(target, ti) + toff + k)[a]
  {
    hide Scatter, Gather, Apart, Before, TotalSize;
    var at := target[ti].data + toff;
    ScatterRun(before, target, Gather(before, source), ti, toff, k, a);
    if at <= a < at + k {
      var j: nat := a - at;
      SourceRun(before, target, source, Before(target, ti) + toff, si, soff + j);
      assert now[a] == was[source[si].data + soff + j];
    } else {
      assert now[a] == was[a];
    }
  }

  /** A cursor in a list of buffers, `total` bytes from the start: inside buffer i,
      or with nothing left of it. */
  ghost predicate CursorIn(bs: seq<Buffer>, i: nat, offset: nat, total: nat) {
    && i <= |bs| && offset <= (if i < |bs| then bs[i].size else 0)
    && total == Before(bs, i) + offset <= TotalSize(bs)
  }

  /** The first `total` bytes are in place. */
  ghost predicate Placed(before: seq<byte>, now: seq<byte>, target: seq<Buffer>, source: seq<Buffer>, total: nat)
    requires InMemory(|before|, target) && InMemory(|before|, source)
  {
    && total <= TotalSize(target) && total <= TotalSize(source)
    && now == Scatter(before, target, Gather(before, source), total)
  }

  lemma CursorMoves(bs: seq<Buffer>, i: nat, offset: nat, total: nat, k: nat)
    requires i < |bs| && CursorIn(bs, i, offset, total) && offset + k <= bs[i].size
    ensures CursorIn(bs, i, offset + k, total + k)
    ensures offset + k == bs[i].size ==> CursorIn(bs, i + 1, 0, total + k)
  {
    BeforeMonotone(bs, i + 1, |bs|);
  }

  /** Moving k bytes at matching cursors puts k more bytes in place. */
  lemma CopyStep(before: seq<byte>, was: seq<byte>, now: seq<byte>, target: seq<Buffer>, source: seq<Buffer>,
                 ti: nat, toff: nat, si: nat, soff: nat, total: nat, k: nat)
    requires InMemory(|before|, target) && InMemory(|before|, source) && Apart(target, source)
    requires Placed(before, was, target, source, total)
    requires ti < |target| && CursorIn(target, ti, toff, total) && toff + k <= target[ti].size
    requires si < |source| && CursorIn(source, si, soff, total) && soff + k <= source[si].size
    requires k > 0 ==> source[si].data + soff + k <= |was|
    requires Moved(was, now, target[ti].data + toff, source[si].data + soff, k)
    ensures Placed(before, now, target, source, total + k)
  {
    CursorMoves(target, ti, toff, total, k);
    CursorMoves(source, si, soff, total, k);
    var after := Scatter(before, target, Gather(before, source), total + k);
    forall a: nat | a < |before| ensures now[a] == after[a] {
      CopyStepAt(before, was, now, target, source, ti, toff, si, soff, k, a);
    }
    assert now == after;
  }

  /** Runs of bytes inside lists that share none lie on either side of each other. */
  lemma RunsApart(target: seq<Buffer>, source: seq<Buffer>, ti: nat, toff: nat, si: nat, soff: nat, k: nat)
    requires Apart(target, source)
    requires ti < |target| && toff + k <= target[ti].size
    requires si < |source| && soff + k <= source[si].size
    ensures var to, from := target[ti].data + toff, source[si].data + soff;
            k == 0 || to + k <= from || from + k <= to
  {
    var to, from := target[ti].data + toff, source[si].data + soff;
    if from <= to < from + k {
      AddressIn(target, ti, toff);
      AddressIn(source, si, soff + (to - from));
    } else if to <= from < to + k {
      AddressIn(target, ti, toff + (from - to));
      AddressIn(source, si, soff);
    }
  }

  /** An iterator into a list of buffers and the offset in the buffer it points to. */
  datatype Place = Place(iter: nat, offset: nat) {
    /** The place n bytes on: past the buffer once that is used up. */
    function Past(n: nat, bs: seq<Buffer>): Place
      requires iter < |bs|
    {
      if offset + n == bs[iter].size then Place(iter + 1, 0) else Place(iter, offset + n)
    }

    predicate Inside(bs: seq<Buffer>) {
      iter < |bs| ==> offset <= bs[iter].size
    }

    lemma Moves(n: nat, bs: seq<Buffer>)
      requires iter < |bs| && Inside(bs) && n <= Plus(bs[iter], offset).size
      ensures Past(n, bs).Inside(bs)
      ensures Past(n, bs) == if n == Plus(bs[iter], offset).size then Place(iter + 1, 0) else Place(iter, offset + n)
    {
    }

    predicate UsedUp(bs: seq<Buffer>) {
      iter == |bs| || (iter + 1 == |bs| && offset == bs[iter].size)
    }
  }

  /** A copy under way: memory before it, and the two lists. */
  datatype Job = Job(before: seq<byte>, target: seq<Buffer>, source: seq<Buffer>) {
    ghost predicate Ready() {
      InMemory(|before|, target) && InMemory(|before|, source) && Apart(target, source)
    }

    /** Both places lie `total` bytes in, and those bytes have been copied. */
    ghost predicate Reached(now: seq<byte>, t: Place, s: Place, total: nat) {
      && Ready() && CursorIn(target, t.iter, t.offset, total) && CursorIn(source, s.iter, s.offset, total)
      && Placed(before, now, target, source, total)
    }

    lemma Begins()
      requires Ready()
      ensures Reached(before, Place(0, 0), Place(0, 0), 0)
    {
    }

    /** Runs at the places lie in memory and share no byte. */
    lemma Within(now: seq<byte>, t: Place, s: Place, total: nat, to: Buffer, from: Buffer)
      requires t.iter < |target| && s.iter < |source| && Reached(now, t, s, total)
      requires to.data == target[t.iter].data + t.offset && t.offset + to.size <= target[t.iter].size
      requires from.data == source[s.iter].data + s.offset && s.offset + from.size <= source[s.iter].size
      ensures |now| == |before| && Fits(|now|, to) && Fits(|now|, from)
      ensures var n := Min(to.size, from.size); n == 0 || to.data + n <= from.data || from.data + n <= to.data
    {
      RunsApart(target, source, t.iter, t.offset, s.iter, s.offset, Min(to.size, from.size));
      assert Fits(|before|, target[t.iter]) && Fits(|before|, source[s.iter]);
    }

    /** Moving the bytes moves both places. */
    lemma Advances(was: seq<byte>, now: seq<byte>, t: Place, s: Place, total: nat, n: nat)
      requires t.iter < |target| && s.iter < |source| && Reached(was, t, s, total)
      requires t.offset + n <= target[t.iter].size && s.offset + n <= source[s.iter].size
      requires n > 0 ==> source[s.iter].data + s.offset + n <= |was|
      requires Moved(was, now, target[t.iter].data + t.offset, source[s.iter].data + s.offset, n)
      ensures Reached(now, t.Past(n, target), s.Past(n, source), total + n)
    {
      hide Apart, Moved;
      CopyStep(before, was, now, target, source, t.iter, t.offset, s.iter, s.offset, total, n);
      CursorMoves(target, t.iter, t.offset, total, n);
      CursorMoves(source, s.iter, s.offset, total, n);
    }

    /** A copy is over when a list is used up or the limit is reached. */
    lemma Ends(now: seq<byte>, t: Place, s: Place, total: nat, limit: nat)
      requires Reached(now, t, s, total)
      requires total <= limit || limit >= Min(TotalSize(target), TotalSize(source))
      requires t.UsedUp(target) || s.UsedUp(source) || total == limit
      ensures Ready() && total == CopyCount(target, source, limit) && now == Copied(before, target, source, limit)
    {
    }
  }

  // ------------------------------------------------ the overloads

  method Memcpy(memory: array<byte>, to: nat, from: nat, n: nat)
    requires to + n <= memory.Length && from + n <= memory.Length
    requires to + n <= from || from + n <= to
    modifies memory
    ensures Moved(old(memory[..]), memory[..], to, from, n)
  {
    forall i | 0 <= i < n {
      memory[to + i] := memory[from + i];
    }
  }

  /** `buffer_copy_1`: one buffer to one buffer. */
  method BufferCopy1(memory: array<byte>, target: Buffer, source: Buffer) returns (n: nat)
    requires Fits(memory.Length, target) && Fits(memory.Length, source)
    requires var n := Min(target.size, source.size);
             n == 0 || target.data + n <= source.data || source.data + n <= target.data
    modifies memory
    ensures n == Min(target.size, source.size)
    ensures Moved(old(memory[..]), memory[..], target.data, source.data, n)
  {
    n := if target.size < source.size then target.size else source.size;
    if n > 0 {
      Memcpy(memory, target.data, source.data, n);
    }
  }

  /** `buffer_copy_1` at matching places of two lists, as every overload calls it. */
  method CopyRun(memory: array<byte>, targetBuffer: Buffer, sourceBuffer: Buffer,
                 ghost job: Job, ghost t: Place, ghost s: Place, ghost total: nat)
    returns (n: nat)
    requires t.iter < |job.target| && s.iter < |job.source| && job.Reached(memory[..], t, s, total)
    requires && targetBuffer.data == job.target[t.iter].data + t.offset
             && t.offset + targetBuffer.size <= job.target[t.iter].size
    requires && sourceBuffer.data == job.source[s.iter].data + s.offset
             && s.offset + sourceBuffer.size <= job.source[s.iter].size
    modifies memory
    ensures n == Min(targetBuffer.size, sourceBuffer.size)
    ensures job.Reached(memory[..], t.Past(n, job.target), s.Past(n, job.source), total + n)
  {
    hide Job.Reached, Apart, Moved;
    job.Within(memory[..], t, s, total, targetBuffer, sourceBuffer);
    n := BufferCopy1(memory, targetBuffer, sourceBuffer);
    job.Advances(old(memory[..]), memory[..], t, s, total, n);
  }

  method CopyOneOne(memory: array<byte>, target: Buffer, source: Buffer) returns (total: nat)
    requires Fits(memory.Length, target) && Fits(memory.Length, source)
    requires Apart([target], [source])
    modifies memory
    ensures total == CopyCount([target], [source], TotalSize([target]))
    ensures memory[..] == Copied(old(memory[..]), [target], [source], TotalSize([target]))
  {
    ghost var job := Job(memory[..], [target], [source]);
    total := CopyRun(memory, target, source, job, Place(0, 0), Place(0, 0), 0);
  }

  method CopyOneOneLimited(memory: array<byte>, target: Buffer, source: Buffer, limit: nat) returns (total: nat)
    requires Fits(memory.Length, target) && Fits(memory.Length, source)
    requires Apart([target], [source])
    modifies memory
    ensures total == CopyCount([target], [source], limit)
    ensures memory[..] == Copied(old(memory[..]), [target], [source], limit)
  {
    ghost var job := Job(memory[..], [target], [source]);
    total := CopyRun(memory, target, Clamp(source, limit), job, Place(0, 0), Place(0, 0), 0);
  }

  /** On the side of the single buffer: what is left of it, clamped, after `total`
      bytes, and the place that is reached. */
  ghost predicate RestAt(b: Buffer, limit: nat, total: nat, rest: Buffer, p: Place) {
    && total <= Clamp(b, limit).size && rest == Plus(Clamp(b, limit), total)
    && (p == Place(0, total) || (total == b.size && p == Place(1, 0)))
  }

  lemma RestStarts(b: Buffer, limit: nat, total: nat, rest: Buffer, p: Place)
    requires RestAt(b, limit, total, rest, p) && rest.size != 0
    ensures p == Place(0, total) && rest.data == b.data + total && total + rest.size <= b.size
  {
  }

  /** One round against buffer i of the other list. */
  lemma RestMoves(b: Buffer, limit: nat, total: nat, rest: Buffer, p: Place,
                  other: seq<Buffer>, i: nat, q: Place, n: nat)
    requires RestAt(b, limit, total, rest, p) && rest.size != 0
    requires i < |other| && q == Place(i, 0) && n == Min(other[i].size, rest.size)
    ensures p.iter == 0 && RestAt(b, limit, total + n, Plus(rest, n), p.Past(n, [b]))
    ensures Plus(rest, n).size != 0 ==> q.Past(n, other) == Place(i + 1, 0)
  {
  }

  lemma RestBegins(b: Buffer, limit: nat)
    ensures RestAt(b, limit, 0, Clamp(b, limit), Place(0, 0))
  {
  }

  lemma RestEnds(b: Buffer, limit: nat, total: nat, rest: Buffer, p: Place)
    requires RestAt(b, limit, total, rest, p)
    ensures total <= limit && (rest.size == 0 ==> total == limit || p.UsedUp([b]))
  {
  }

  /** One round of one to many: from source buffer i into what is left of the target. */
  method FillFrom(memory: array<byte>, targetBuffer: Buffer, sourceBuffer: Buffer, ghost i: nat, ghost job: Job,
                  ghost target: Buffer, ghost limit: nat, ghost t: Place, ghost s: Place, ghost total: nat)
    returns (n: nat, ghost nextT: Place, ghost nextS: Place)
    requires job.target == [target] && i < |job.source| && s == Place(i, 0) && sourceBuffer == job.source[i]
    requires targetBuffer.size != 0 && RestAt(target, limit, total, targetBuffer, t)
    requires job.Reached(memory[..], t, s, total)
    modifies memory
    ensures job.Reached(memory[..], nextT, nextS, total + n)
    ensures n <= targetBuffer.size && RestAt(target, limit, total + n, Plus(targetBuffer, n), nextT)
    ensures Plus(targetBuffer, n).size != 0 ==> nextS == Place(i + 1, 0)
  {
    RestStarts(target, limit, total, targetBuffer, t);
    hide Job.Reached, RestAt, Plus, Place.Past;
    n := CopyRun(memory, targetBuffer, sourceBuffer, job, t, s, total);
    RestMoves(target, limit, total, targetBuffer, t, job.source, i, s, n);
    nextT, nextS := t.Past(n, [target]), s.Past(n, job.source);
  }

  /** One round of many to one: from what is left of the source into target buffer i. */
  method DrainInto(memory: array<byte>, targetBuffer: Buffer, sourceBuffer: Buffer, ghost i: nat, ghost job: Job,
                   ghost source: Buffer, ghost limit: nat, ghost t: Place, ghost s: Place, ghost total: nat)
    returns (n: nat, ghost nextT: Place, ghost nextS: Place)
    requires job.source == [source] && i < |job.target| && t == Place(i, 0) && targetBuffer == job.target[i]
    requires sourceBuffer.size != 0 && RestAt(source, limit, total, sourceBuffer, s)
    requires job.Reached(memory[..], t, s, total)
    modifies memory
    ensures job.Reached(memory[..], nextT, nextS, total + n)
    ensures n <= sourceBuffer.size && RestAt(source, limit, total + n, Plus(sourceBuffer, n), nextS)
    ensures Plus(sourceBuffer, n).size != 0 ==> nextT == Place(i + 1, 0)
  {
    RestStarts(source, limit, total, sourceBuffer, s);
    hide Job.Reached, RestAt, Plus, Place.Past;
    n := CopyRun(memory, targetBuffer, sourceBuffer, job, t, s, total);
    RestMoves(source, limit, total, sourceBuffer, s, job.target, i, t, n);
    nextT, nextS := t.Past(n, job.target), s.Past(n, [source]);
  }

  method CopyOneMany(memory: array<byte>, target: Buffer, source: seq<Buffer>, limit: nat) returns (total: nat)
    requires Fits(memory.Length, target) && InMemory(memory.Length, source)
    requires Apart([target], source)
    modifies memory
    ensures total == CopyCount([target], source, limit)
    ensures memory[..] == Copied(old(memory[..]), [target], source, limit)
  {
    ghost var job := Job(memory[..], [target], source);
    job.Begins();
    RestBegins(target, limit);
    hide Job.Ready, Job.Reached, Apart, InMemory, Copied, CopyCount, RestAt, Plus, Clamp, Min, Place.Past;
    ghost var t, s := Place(0, 0), Place(0, 0);
    total := 0;
    var sourceIter: nat := 0;
    var targetBuffer := Clamp(target, limit);
    while targetBuffer.size != 0 && sourceIter != |source|
      invariant sourceIter <= |source| && job.Reached(memory[..], t, s, total)
      invariant RestAt(target, limit, total, targetBuffer, t)
      invariant targetBuffer.size != 0 ==> s == Place(sourceIter, 0)
      decreases |source| - sourceIter
    {
      var bytesCopied;
      bytesCopied, t, s :=
        FillFrom(memory, targetBuffer, source[sourceIter], sourceIter, job, target, limit, t, s, total);
      total := total + bytesCopied;
      targetBuffer := Plus(targetBuffer, bytesCopied);
      sourceIter := sourceIter + 1;
    }
    RestEnds(target, limit, total, targetBuffer, t);
    job.Ends(memory[..], t, s, total, limit);
  }

  method CopyManyOne(memory: array<byte>, target: seq<Buffer>, source: Buffer, limit: nat) returns (total: nat)
    requires InMemory(memory.Length, target) && Fits(memory.Length, source)
    requires Apart(target, [source])
    modifies memory
    ensures total == CopyCount(target, [source], limit)
    ensures memory[..] == Copied(old(memory[..]), target, [source], limit)
  {
    ghost var job := Job(memory[..], target, [source]);
    job.Begins();
    RestBegins(source, limit);
    hide Job.Ready, Job.Reached, Apart, InMemory, Copied, CopyCount, RestAt, Plus, Clamp, Min, Place.Past;
    ghost var t, s := Place(0, 0), Place(0, 0);
    total := 0;
    var targetIter: nat := 0;
    var sourceBuffer := Clamp(source, limit);
    while sourceBuffer.size != 0 && targetIter != |target|
      invariant targetIter <= |target| && job.Reached(memory[..], t, s, total)
      invariant RestAt(source, limit, total, sourceBuffer, s)
      invariant sourceBuffer.size != 0 ==> t == Place(targetIter, 0)
      decreases |target| - targetIter
    {
      var bytesCopied;
      bytesCopied, t, s :=
        DrainInto(memory, target[targetIter], sourceBuffer, targetIter, job, source, limit, t, s, total);
      total := total + bytesCopied;
      sourceBuffer := Plus(sourceBuffer, bytesCopied);
      targetIter := targetIter + 1;
    }
    RestEnds(source, limit, total, sourceBuffer, s);
    job.Ends(memory[..], t, s, total, limit);
  }

  method CopyManyMany(memory: array<byte>, target: seq<Buffer>, source: seq<Buffer>) returns (total: nat)
    requires InMemory(memory.Length, target) && InMemory(memory.Length, source)
    requires Apart(target, source)
    modifies memory
    ensures total == CopyCount(target, source, TotalSize(target))
    ensures memory[..] == Copied(old(memory[..]), target, source, TotalSize(target))
  {
    ghost var job := Job(memory[..], target, source);
    job.Begins();
    hide Job.Ready, Job.Reached, Apart, InMemory, Copied, CopyCount;
    total := 0;
    var t, s := Place(0, 0), Place(0, 0);
    while t.iter != |target| && s.iter != |source|
      invariant t.iter <= |target| && s.iter <= |source| && t.Inside(target) && s.Inside(source)
      invariant job.Reached(memory[..], t, s, total)
      decreases |target| - t.iter + |source| - s.iter
    {
      var targetBuffer := Plus(target[t.iter], t.offset);
      var sourceBuffer := Plus(source[s.iter], s.offset);
      var bytesCopied := CopyRun(memory, targetBuffer, sourceBuffer, job, t, s, total);
      total := total + bytesCopied;
      ghost var t1, s1 := t.Past(bytesCopied, target), s.Past(bytesCopied, source);
      t.Moves(bytesCopied, target);
      s.Moves(bytesCopied, source);
      t := if bytesCopied == targetBuffer.size then Place(t.iter + 1, 0) else Place(t.iter, t.offset + bytesCopied);
      s := if bytesCopied == sourceBuffer.size then Place(s.iter + 1, 0) else Place(s.iter, s.offset + bytesCopied);
      assert t == t1 && s == s1;
    }
    job.Ends(memory[..], t, s, total, TotalSize(target));
  }

  method CopyManyManyLimited(memory: array<byte>, target: seq<Buffer>, source: seq<Buffer>, limit: nat)
    returns (total: nat)
    requires InMemory(memory.Length, target) && InMemory(memory.Length, source)
    requires Apart(target, source)
    modifies memory
    ensures total == CopyCount(target, source, limit)
    ensures memory[..] == Copied(old(memory[..]), target, source, limit)
  {
    ghost var job := Job(memory[..], target, source);
    job.Begins();
    hide Job.Ready, Job.Reached, Apart, InMemory, Copied, CopyCount;
    total := 0;
    var t, s := Place(0, 0), Place(0, 0);
    while total != limit && t.iter != |target| && s.iter != |source|
      invariant total <= limit
      invariant t.iter <= |target| && s.iter <= |source| && t.Inside(target) && s.Inside(source)
      invariant job.Reached(memory[..], t, s, total)
      // Each round finishes a buffer or reaches the limit.
      decreases |target| - t.iter + |source| - s.iter, limit - total
    {
      var targetBuffer := Plus(target[t.iter], t.offset);
      var sourceBuffer := Plus(source[s.iter], s.offset);
      var bytesCopied := CopyRun(memory, targetBuffer, Clamp(sourceBuffer, limit - total), job, t, s, total);
      total := total + bytesCopied;
      ghost var t1, s1 := t.Past(bytesCopied, target), s.Past(bytesCopied, source);
      t.Moves(bytesCopied, target);
      s.Moves(bytesCopied, source);
      t := if bytesCopied == targetBuffer.size then Place(t.iter + 1, 0) else Place(t.iter, t.offset + bytesCopied);
      s := if bytesCopied == sourceBuffer.size then Place(s.iter + 1, 0) else Place(s.iter, s.offset + bytesCopied);
      assert t == t1 && s == s1;
    }
    job.Ends(memory[..], t, s, total, limit);
  }

  // ------------------------------------------------ the public entry points

  /** What the caller passes: the static type decides between one buffer and several. */
  datatype BufferSequence = One(buffer: Buffer) | Many(buffers: seq<Buffer>) {
    function AsList(): seq<Buffer> {
      match this
      case One(b) => [b]
      case Many(bs) => bs
    }
  }

  datatype Limit = Unlimited | AtMost(bytes: nat)

  /** A single buffer on either side is no longer than memory, so that the default
      limit of the overloads that have one does not bind. */
  lemma OneBufferUnlimited(memory: seq<byte>, target: seq<Buffer>, source: seq<Buffer>)
    requires InMemory(|memory|, target) && InMemory(|memory|, source) && |memory| <= SIZE_MAX
    requires |target| == 1 || |source| == 1
    ensures CopyCount(target, source, SIZE_MAX) == CopyCount(target, source, TotalSize(target))
    ensures Copied(memory, target, source, SIZE_MAX) == Copied(memory, target, source, TotalSize(target))
  {
    if |target| == 1 {
      assert Fits(|memory|, target[0]) && TotalSize(target) == Before(target, 1) == target[0].size;
    } else {
      assert Fits(|memory|, source[0]) && TotalSize(source) == Before(source, 1) == source[0].size;
    }
  }

  /** Whichever overload the types select, the result is that of the flat
      specification on one-element lists, no limit being an endless one. */
  method Copy(memory: array<byte>, target: BufferSequence, source: BufferSequence, limit: Limit)
    returns (total: nat)
    requires InMemory(memory.Length, target.AsList()) && InMemory(memory.Length, source.AsList())
    requires memory.Length <= SIZE_MAX
    requires Apart(target.AsList(), source.AsList())
    modifies memory
    ensures var most := if limit.Unlimited? then TotalSize(target.AsList()) else limit.bytes;
            && total == CopyCount(target.AsList(), source.AsList(), most)
            && memory[..] == Copied(old(memory[..]), target.AsList(), source.AsList(), most)
  {
    assert target.One? ==> Fits(memory.Length, target.AsList()[0]);
    assert source.One? ==> Fits(memory.Length, source.AsList()[0]);
    if target.One? || source.One? {
      OneBufferUnlimited(memory[..], target.AsList(), source.AsList());
    }
    match (target, source, limit)
    case (One(t), One(s), Unlimited) => total := CopyOneOne(memory, t, s);
    case (One(t), One(s), AtMost(n)) => total := CopyOneOneLimited(memory, t, s, n);
    case (One(t), Many(ss), Unlimited) => total := CopyOneMany(memory, t, ss, SIZE_MAX);
    case (One(t), Many(ss), AtMost(n)) => total := CopyOneMany(memory, t, ss, n);
    case (Many(ts), One(s), Unlimited) => total := CopyManyOne(memory, ts, s, SIZE_MAX);
    case (Many(ts), One(s), AtMost(n)) => total := CopyManyOne(memory, ts, s, n);
    case (Many(ts), Many(ss), Unlimited) => total := CopyManyMany(memory, ts, ss);
    case (Many(ts), Many(ss), AtMost(n)) => total := CopyManyManyLimited(memory, ts, ss, n);
  }
}
