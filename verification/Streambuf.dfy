/** `asio::basic_streambuf`: a growable byte queue over one vector, with a get
    window that slides forward and a put window that moves, is slid back to the
    start and grows on demand (asio/basic_streambuf.hpp).

    Pointers are offsets into the vector. A thrown `std::length_error` is a
    result of false. */
module Streambuf {
  import opened Buffers
  import opened Fifo
  import opened Numbers
  import opened Wrappers

  const BUFFER_DELTA: nat := 128

  function Max(a: nat, b: nat): nat {
    if a < b then b else a
  }

  /** The input sequence after a failed `reserve`, which has moved the bytes to
      the start of the vector but left the pointers where they were. */
  function AfterFailure(contents: seq<byte>, gptr: nat): (after: seq<byte>)
    ensures |after| == |contents|
  {
    if gptr < |contents| then contents[gptr..] + contents[|contents| - gptr..] else contents
  }

  /** A failed `prepare` keeps the input sequence exactly when nothing had been
      consumed since the last slide, or the consumed gap is as long as the
      sequence, or the sequence repeats with the length of the gap. */
  lemma FailureKeepsContentsIff(contents: seq<byte>, gptr: nat)
    ensures AfterFailure(contents, gptr) == contents <==>
            gptr >= |contents| || contents[gptr..] == contents[..|contents| - gptr]
  {
    if gptr < |contents| {
      var k := |contents| - gptr;
      assert contents == contents[..k] + contents[k..];
      assert AfterFailure(contents, gptr)[..k] == contents[gptr..];
    }
  }

  /** What lies behind `size` bytes slid to the start of the vector: whatever was there
      before, and zeros where the vector grew. */
  ghost function Stale(was: seq<byte>, size: nat, n: nat): (spare: seq<byte>)
    ensures |spare| == n
  {
    seq(n, i requires 0 <= i < n => if size + i < |was| then was[size + i] else 0)
  }

  class BasicStreambuf {
    const maxSize: nat
    var buffer: array<byte>
    var gptr: nat
    var egptr: nat
    var pptr: nat
    var epptr: nat

    /** Order of the windows, and the size of the vector that `reserve` keeps. */
    ghost predicate Valid()
      reads this
    {
      && gptr <= egptr <= pptr <= epptr <= maxSize
      && buffer.Length == Max(epptr, 1)
    }

    /** The input sequence. */
    ghost function Contents(): (s: seq<byte>)
      reads this, buffer
      requires Valid()
      ensures |s| == pptr - gptr
    {
      buffer[gptr..pptr]
    }

    /** The output sequence: bytes that `commit` would append. */
    ghost function Spare(): (s: seq<byte>)
      reads this, buffer
      requires Valid()
      ensures |s| == epptr - pptr
    {
      buffer[pptr..epptr]
    }

    constructor (maximumSize: nat)
      ensures Valid() && maxSize == maximumSize && fresh(buffer)
      ensures Contents() == []
    {
      var pend := if maximumSize < BUFFER_DELTA then maximumSize else BUFFER_DELTA;
      maxSize := maximumSize;
      buffer := new byte[Max(pend, 1)](_ => 0);
      gptr, egptr, pptr, epptr := 0, 0, 0, pend;
    }

    method Size() returns (n: nat)
      requires Valid()
      ensures n == |Contents()|
    {
      n := pptr - gptr;
    }

    /** The region that holds the input sequence. */
    method Data() returns (b: Buffer)
      requires Valid()
      ensures b.size == |Contents()| && b.data + b.size <= buffer.Length
      ensures buffer[b.data..b.data + b.size] == Contents()
    {
      b := Buffer(gptr, pptr - gptr);
    }

    /** Shift, then grow, then throw if the bound forbids it. */
    method Reserve(n: nat) returns (ok: bool)
      requires Valid()
      modifies this, buffer
      ensures Valid() && (buffer == old(buffer) || fresh(buffer))
      ensures ok <==> old(|Contents()|) + n <= maxSize
      ensures ok ==> Contents() == old(Contents()) && n <= epptr - pptr
      ensures old(epptr - pptr) >= n ==> buffer == old(buffer) && unchanged(this) && unchanged(buffer)
      ensures ok && old(epptr - pptr) < n ==> gptr == 0 && Spare() == Stale(old(buffer[..]), |Contents()|, |Spare()|)
      ensures !ok ==> Contents() == AfterFailure(old(Contents()), old(gptr)) && unchanged(this)
    {
      ghost var contents := Contents();
      var gnext, pnext, pend := gptr, pptr, epptr;
      if n <= pend - pnext {
        return true;
      }
      if gnext > 0 {
        pnext := pnext - gnext;
        Memmove(gnext, pnext);
      }
      assert buffer[..pnext] == contents;
      if n > pend - pnext {
        if n <= maxSize && pnext <= maxSize - n {
          pend := pnext + n;
          Resize(Max(pend, 1));
          assert buffer[..pnext] == contents;
        } else {
          FailedWindow(contents);
          return false;
        }
      }
      gptr, egptr, pptr, epptr := 0, pnext, pnext, pend;
      StaleSpare(old(buffer[..]));
      return true;
    }

    lemma StaleSpare(was: seq<byte>)
      requires Valid() && gptr == 0
      requires forall i :: pptr <= i < epptr ==> buffer[i] == if i < |was| then was[i] else 0
      ensures Spare() == Stale(was, |Contents()|, |Spare()|)
    {
    }

    /** After the shift and before the throw, the get window straddles moved and unmoved bytes. */
    lemma FailedWindow(contents: seq<byte>)
      requires Valid() && |contents| == pptr - gptr
      requires buffer[..|contents|] == contents
      requires forall i :: |contents| <= i < pptr && gptr <= i ==> buffer[i] == contents[i - gptr]
      ensures Contents() == AfterFailure(contents, gptr)
    {
      var size := |contents|;
      var after := AfterFailure(contents, gptr);
      forall i | 0 <= i < size ensures Contents()[i] == after[i] {
        if gptr + i < size {
          assert buffer[gptr + i] == buffer[..size][gptr + i];
        }
      }
    }

    /** `memmove` of n bytes from offset `from` to the start of the vector. */
    method Memmove(from: nat, n: nat)
      requires from + n <= buffer.Length
      modifies buffer
      ensures forall i :: 0 <= i < n ==> buffer[i] == old(buffer[from + i])
      ensures forall i :: n <= i < buffer.Length ==> buffer[i] == old(buffer[i])
    {
      forall i | 0 <= i < n {
        buffer[i] := buffer[from + i];
      }
    }

    /** `std::vector::resize`: keeps a prefix, zeroes what it adds. */
    method Resize(n: nat)
      modifies this`buffer
      ensures fresh(buffer) && buffer.Length == n
      ensures forall i :: 0 <= i < n ==> buffer[i] == if i < old(buffer).Length then old(buffer[i]) else 0
    {
      var was := buffer;
      buffer := new byte[n](i reads was => if 0 <= i < was.Length then was[i] else 0);
    }

    /** Makes room for n more bytes and returns where they go. */
    method Prepare(n: nat) returns (ok: bool, region: Buffer)
      requires Valid()
      modifies this, buffer
      ensures Valid() && (buffer == old(buffer) || fresh(buffer))
      ensures ok <==> old(|Contents()|) + n <= maxSize
      ensures ok ==> Contents() == old(Contents()) && n <= |Spare()| && region == Buffer(pptr, n)
      ensures ok && n <= old(|Spare()|) ==> Spare() == old(Spare())
      ensures ok && n > old(|Spare()|) ==> Spare() == Stale(old(buffer[..]), |Contents()|, |Spare()|)
      ensures !ok ==> Contents() == AfterFailure(old(Contents()), old(gptr))
    {
      ok := Reserve(n);
      region := if ok then Buffer(pptr, n) else NULL_BUFFER;
    }

    /** The caller writes through a region that `Prepare` returned, wherever that
        region lies by now. */
    method WriteThrough(region: Buffer, bytes: seq<byte>)
      requires |bytes| <= region.size && region.data + |bytes| <= buffer.Length
      modifies buffer
      ensures buffer[..] ==
              old(buffer[..region.data]) + bytes + old(buffer[region.data + |bytes|..])
    {
      forall i | 0 <= i < |bytes| {
        buffer[region.data + i] := bytes[i];
      }
    }

    /** Appends what the output sequence starts with, all of it at most. */
    method Commit(n: nat)
      requires Valid()
      modifies this`pptr, this`egptr
      ensures Valid() && egptr == pptr
      ensures var k := Min(n, old(|Spare()|));
              Contents() == old(Contents()) + old(Spare())[..k] && Spare() == old(Spare())[k..]
    {
      var k := if n < epptr - pptr then n else epptr - pptr;
      pptr := pptr + k;
      egptr := pptr;
    }

    /** Drops bytes from the front, all of them at most. */
    method Consume(n: nat)
      requires Valid()
      modifies this`gptr, this`egptr
      ensures Valid() && egptr == pptr
      ensures Contents() == old(Contents())[Min(n, old(|Contents()|))..]
      ensures Spare() == old(Spare())
    {
      if egptr < pptr {
        egptr := pptr;
      }
      var k := n;
      if gptr + k > pptr {
        k := pptr - gptr;
      }
      gptr := gptr + k;
    }

    /** The next character, if any, without taking it. */
    method Underflow() returns (c: Option<byte>)
      requires Valid()
      modifies this`egptr
      ensures Valid() && Contents() == old(Contents()) && Spare() == old(Spare())
      ensures if Contents() == [] then c == None && egptr == old(egptr)
              else c == Some(Contents()[0]) && egptr == pptr
    {
      if gptr < pptr {
        egptr := pptr;
        c := Some(buffer[gptr]);
      } else {
        c := None;
      }
    }

    /** Appends a character, making room first if there is none. End of file is
        no character: nothing happens. */
    method Overflow(c: Option<byte>) returns (ok: bool)
      requires Valid()
      modifies this, buffer
      ensures Valid() && (buffer == old(buffer) || fresh(buffer))
      ensures ok <==> c.None? || old(|Contents()|) < maxSize
      ensures ok ==> Contents() == old(Contents()) + (if c.None? then [] else [c.value])
      ensures !ok ==> Contents() == old(Contents())
    {
      if c.None? {
        return true;
      }
      if pptr == epptr {
        var bufferSize := pptr - gptr;
        if bufferSize < maxSize && maxSize - bufferSize < BUFFER_DELTA {
          ok := Reserve(maxSize - bufferSize);
        } else {
          ok := Reserve(BUFFER_DELTA);
        }
        if !ok {
          return false;
        }
      }
      Store(c.value);
      return true;
    }

    /** `*pptr() = c; pbump(1)`. */
    method Store(c: byte)
      requires Valid() && pptr < epptr
      modifies this`pptr, buffer
      ensures Valid() && Contents() == old(Contents()) + [c]
    {
      ghost var contents := Contents();
      buffer[pptr] := c;
      pptr := pptr + 1;
      assert buffer[gptr..pptr - 1] == contents;
    }

    /** `std::streambuf::sputc`: store in the put area, or overflow. */
    method Sputc(c: byte) returns (ok: bool)
      requires Valid()
      modifies this, buffer
      ensures Valid() && (buffer == old(buffer) || fresh(buffer))
      ensures ok <==> old(|Contents()|) < maxSize
      ensures ok ==> Contents() == old(Contents()) + [c]
      ensures !ok ==> Contents() == old(Contents())
    {
      if pptr < epptr {
        Store(c);
        return true;
      }
      ok := Overflow(Some(c));
    }

    /** `std::streambuf::sbumpc`: take from the get area, or underflow first. */
    method Sbumpc() returns (c: Option<byte>)
      requires Valid()
      modifies this`gptr, this`egptr
      ensures Valid() && Spare() == old(Spare())
      ensures if old(Contents()) == [] then c == None && Contents() == []
              else c == Some(old(Contents())[0]) && Contents() == old(Contents())[1..]
    {
      if gptr < egptr {
        c := Some(buffer[gptr]);
        gptr := gptr + 1;
        return;
      }
      c := Underflow();
      if c.Some? {
        gptr := gptr + 1;
      }
    }
  }

  /** A `prepare` that fails can lose data: 2, 3 become 3, 3. */
  method FailureCanLoseContents() returns (sb: BasicStreambuf, before: seq<byte>, ok: bool)
    ensures sb.Valid() && before == [2, 3] && !ok && sb.Contents() == [3, 3]
  {
    sb := new BasicStreambuf(3);
    var region;
    ok, region := sb.Prepare(3);
    sb.WriteThrough(region, [1, 2, 3]);
    assert sb.Spare() == [1, 2, 3];
    sb.Commit(3);
    assert sb.Contents() == [1, 2, 3];
    sb.Consume(1);
    assert sb.Contents() == [2, 3] && sb.gptr == 1;
    before := sb.buffer[sb.gptr..sb.pptr];
    ok, region := sb.Prepare(2);
  }
}
