/** Byte buffers over one flat address space (asio/buffer.hpp).

    A pointer is an index into `memory`, a buffer is a pointer and a size, and a
    list of buffers is read as one flat byte sequence (`Gather`). */
module Buffers {
  import opened Numbers

  type byte = bv8

  /** Largest value of `std::size_t`; the default byte limit of `buffer_copy`. */
  const SIZE_MAX: nat := 0xFFFF_FFFF_FFFF_FFFF

  datatype Buffer = Buffer(data: nat, size: nat)

  /** The default-constructed buffer: a null pointer and no bytes. */
  const NULL_BUFFER := Buffer(0, 0)

  /** `b + n`, and the value `b += n` assigns: drop the first n bytes, at most all of them. */
  function Plus(b: Buffer, n: nat): Buffer {
    var offset := if n < b.size then n else b.size;
    Buffer(b.data + offset, b.size - offset)
  }

  /** `buffer(b, n)`: the same start, at most n bytes. */
  function Clamp(b: Buffer, n: nat): Buffer {
    Buffer(b.data, if b.size < n then b.size else n)
  }

  /** A buffer of at least one byte lies inside the address space. */
  ghost predicate Fits(memorySize: nat, b: Buffer) {
    b.size > 0 ==> b.data + b.size <= memorySize
  }

  ghost predicate InMemory(memorySize: nat, bs: seq<Buffer>) {
    forall i :: 0 <= i < |bs| ==> Fits(memorySize, bs[i])
  }

  /** The bytes held by the first i buffers. */
  ghost function Before(bs: seq<Buffer>, i: nat): nat
    requires i <= |bs|
  {
    if i == 0 then 0 else Before(bs, i - 1) + bs[i - 1].size
  }

  ghost function TotalSize(bs: seq<Buffer>): nat {
    Before(bs, |bs|)
  }

  lemma {:induction false} BeforeMonotone(bs: seq<Buffer>, i: nat, j: nat)
    requires i <= j <= |bs|
    ensures Before(bs, i) <= Before(bs, j)
    decreases j
  {
    if i < j {
      BeforeMonotone(bs, i, j - 1);
    }
  }

  /** Sizing a list of buffers sums their sizes (`buffer_size`, several buffers). */
  method BufferSize(bs: seq<Buffer>) returns (total: nat)
    ensures total == TotalSize(bs)
  {
    total := 0;
    var iter := 0;
    while iter != |bs|
      invariant iter <= |bs|
      invariant total == Before(bs, iter)
    {
      total := total + bs[iter].size;
      iter := iter + 1;
    }
  }

  // ------------------------------------------------ flat contents

  /** Index of the buffer, among the first i, that holds byte p. */
  ghost function IndexOf(bs: seq<Buffer>, p: nat, i: nat): (index: nat)
    requires i <= |bs| && p < Before(bs, i)
    ensures index < i && Before(bs, index) <= p < Before(bs, index) + bs[index].size
  {
    if Before(bs, i - 1) <= p then i - 1 else IndexOf(bs, p, i - 1)
  }

  /** Address of byte p of the flat view. */
  ghost function AddressOf(bs: seq<Buffer>, p: nat): nat
    requires p < TotalSize(bs)
  {
    var i := IndexOf(bs, p, |bs|);
    bs[i].data + (p - Before(bs, i))
  }

  /** The buffer that holds byte p is unique. */
  lemma {:induction false} IndexUnique(bs: seq<Buffer>, p: nat, n: nat, i: nat)
    requires i < n <= |bs|
    requires Before(bs, i) <= p < Before(bs, i) + bs[i].size
    ensures p < Before(bs, n) && IndexOf(bs, p, n) == i
    decreases n
  {
    BeforeMonotone(bs, i + 1, n);
    if i + 1 < n {
      BeforeMonotone(bs, i + 1, n - 1);
      IndexUnique(bs, p, n - 1, i);
    }
  }

  /** Byte k of buffer i sits at flat position `Before(bs, i) + k`. */
  lemma AddressIn(bs: seq<Buffer>, i: nat, k: nat)
    requires i < |bs| && k < bs[i].size
    ensures Before(bs, i) + k < TotalSize(bs)
    ensures AddressOf(bs, Before(bs, i) + k) == bs[i].data + k
  {
    IndexUnique(bs, Before(bs, i) + k, |bs|, i);
  }

  lemma AddressFits(memorySize: nat, bs: seq<Buffer>, p: nat)
    requires InMemory(memorySize, bs) && p < TotalSize(bs)
    ensures AddressOf(bs, p) < memorySize
  {
    assert Fits(memorySize, bs[IndexOf(bs, p, |bs|)]);
  }

  /** The first n bytes of the flat view, read one address at a time. */
  ghost function GatherBytes(memory: seq<byte>, bs: seq<Buffer>, n: nat): (flat: seq<byte>)
    requires InMemory(|memory|, bs) && n <= TotalSize(bs)
    ensures |flat| == n
    ensures forall p :: 0 <= p < n ==> AddressOf(bs, p) < |memory| && flat[p] == memory[AddressOf(bs, p)]
  {
    if n == 0 then [] else
      AddressFits(|memory|, bs, n - 1);
      GatherBytes(memory, bs, n - 1) + [memory[AddressOf(bs, n - 1)]]
  }

  /** The whole list seen as one byte sequence. */
  ghost function Gather(memory: seq<byte>, bs: seq<Buffer>): (flat: seq<byte>)
    requires InMemory(|memory|, bs)
    ensures |flat| == TotalSize(bs)
    ensures forall p :: 0 <= p < |flat| ==> AddressOf(bs, p) < |memory| && flat[p] == memory[AddressOf(bs, p)]
  {
    GatherBytes(memory, bs, TotalSize(bs))
  }

  // ------------------------------------------------ the flat view is the concatenation

  ghost function Bytes(memory: seq<byte>, b: Buffer): (bytes: seq<byte>)
    requires Fits(|memory|, b)
    ensures |bytes| == b.size
    ensures forall k :: 0 <= k < b.size ==> bytes[k] == memory[b.data + k]
  {
    if b.size == 0 then [] else memory[b.data..b.data + b.size]
  }

  lemma {:induction false} BeforeOfPrefix(bs: seq<Buffer>, b: Buffer, i: nat)
    requires i <= |bs|
    ensures Before(bs + [b], i) == Before(bs, i)
  {
    if i > 0 {
      BeforeOfPrefix(bs, b, i - 1);
    }
  }

  lemma AddressOfPrefix(bs: seq<Buffer>, b: Buffer, p: nat)
    requires p < TotalSize(bs)
    ensures p < TotalSize(bs + [b]) && AddressOf(bs + [b], p) == AddressOf(bs, p)
  {
    var i := IndexOf(bs, p, |bs|);
    BeforeOfPrefix(bs, b, i);
    BeforeOfPrefix(bs, b, |bs|);
    IndexUnique(bs + [b], p, |bs| + 1, i);
  }

  lemma AddressOfAppended(bs: seq<Buffer>, b: Buffer, p: nat)
    requires TotalSize(bs) <= p < TotalSize(bs) + b.size
    ensures p < TotalSize(bs + [b]) && AddressOf(bs + [b], p) == b.data + (p - TotalSize(bs))
  {
    BeforeOfPrefix(bs, b, |bs|);
    AddressIn(bs + [b], |bs|, p - TotalSize(bs));
  }

  /** Appending a buffer to a list appends its bytes to the flat view. */
  lemma GatherAppend(memory: seq<byte>, bs: seq<Buffer>, b: Buffer)
    requires InMemory(|memory|, bs) && Fits(|memory|, b) && InMemory(|memory|, bs + [b])
    ensures Gather(memory, bs + [b]) == Gather(memory, bs) + Bytes(memory, b)
  {
    BeforeOfPrefix(bs, b, |bs|);
    var head, tail, all := Gather(memory, bs), Bytes(memory, b), Gather(memory, bs + [b]);
    forall p: nat | p < |head| ensures all[p] == head[p] {
      AddressOfPrefix(bs, b, p);
    }
    forall p: nat | |head| <= p < |all| ensures all[p] == tail[p - |head|] {
      AddressOfAppended(bs, b, p);
    }
  }

  /** `b + n` denotes the bytes of b after the first n, `buffer(b, n)` those before. */
  lemma PlusAndClampSplit(memory: seq<byte>, b: Buffer, n: nat)
    requires Fits(|memory|, b)
    ensures Fits(|memory|, Plus(b, n)) && Fits(|memory|, Clamp(b, n))
    ensures Bytes(memory, b) == Bytes(memory, Clamp(b, n)) + Bytes(memory, Plus(b, n))
    ensures |Bytes(memory, Clamp(b, n))| == Min(n, b.size)
  {
  }
}
