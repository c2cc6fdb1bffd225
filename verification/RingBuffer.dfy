/** Positions of a masked ring and the bytes between them. */
module RingMath {
  import opened Prelude
  import opened Bits

  /** The slot i places after start. */
  function Slot(start: nat, i: nat, size: nat): (r: nat)
    requires start < size && i <= size
    ensures r < size
  {
    Wrap(start + i, size)
  }

  /** How many places wp is ahead of rp. */
  function Dist(rp: nat, wp: nat, size: nat): (r: nat)
    requires rp < size && wp < size
    ensures r < size && Slot(rp, r, size) == wp
  {
    Wrap(wp - rp, size)
  }

  /** The n bytes found from slot start onwards, going round the end of the buffer. */
  function Window(buf: seq<byte>, start: nat, n: nat): (w: seq<byte>)
    requires start < |buf| && n <= |buf|
    ensures |w| == n
  {
    seq(n, i requires 0 <= i < n => buf[Slot(start, i, |buf|)])
  }

  /** A window splits at any place; dropping its first k bytes is moving its start. */
  lemma WindowSplit(buf: seq<byte>, start: nat, n: nat, k: nat)
    requires start < |buf| && k <= n <= |buf|
    ensures Window(buf, start, n) == Window(buf, start, k) + Window(buf, Slot(start, k, |buf|), n - k)
  {
  }

  lemma DistShrinks(rp: nat, wp: nat, k: nat, size: nat)
    requires rp < size && wp < size && k <= Dist(rp, wp, size)
    ensures Dist(Slot(rp, k, size), wp, size) == Dist(rp, wp, size) - k
  {
  }

  /**
   Overwriting the slots wp, wp+1, ... with xs appends xs to the unread window [rp, wp),
   provided xs fits in the free slots.
   */
  lemma WindowAppend(buf: seq<byte>, buf': seq<byte>, rp: nat, wp: nat, xs: seq<byte>)
    requires |buf| == |buf'| && rp < |buf| && wp < |buf| && Dist(rp, wp, |buf|) + |xs| < |buf|
    requires forall i | 0 <= i < |xs| :: buf'[Slot(wp, i, |buf|)] == xs[i]
    requires forall i | |xs| <= i < |buf| :: buf'[Slot(wp, i, |buf|)] == buf[Slot(wp, i, |buf|)]
    ensures Dist(rp, Slot(wp, |xs|, |buf|), |buf|) == Dist(rp, wp, |buf|) + |xs|
    ensures Window(buf', rp, Dist(rp, wp, |buf|) + |xs|) == Window(buf, rp, Dist(rp, wp, |buf|)) + xs
  {
    var n := Dist(rp, wp, |buf|);
    var w, v := Window(buf', rp, n + |xs|), Window(buf, rp, n) + xs;
    forall i | 0 <= i < |w|
      ensures w[i] == v[i]
    {
      if i < n {
        assert Slot(rp, i, |buf|) == Slot(wp, |buf| - n + i, |buf|);
      } else {
        assert Slot(rp, i, |buf|) == Slot(wp, i - n, |buf|);
      }
    }
  }
}

/** ringbuf.h: the ring buffer as it is used sequentially, under the port pair's DataLock. */
module RingBuffers {
  import opened Prelude
  import opened Bits
  import opened RingMath

  /** RtlCopyMemory between distinct buffers. */
  method CopyMemory(dst: array<byte>, dstOff: nat, src: array<byte>, srcOff: nat, n: nat)
    requires dst != src && dstOff + n <= dst.Length && srcOff + n <= src.Length
    modifies dst
    ensures forall i | 0 <= i < dst.Length ::
              dst[i] == if dstOff <= i < dstOff + n then src[srcOff + i - dstOff] else old(dst[i])
  {
    forall i | 0 <= i < n {
      dst[dstOff + i] := src[srcOff + i];
    }
  }

  class RingBuffer {
    var buffer: array?<byte>
    var size: nat
    var mask: nat
    var writePos: nat
    var readPos: nat

    ghost predicate Valid()
      reads this
    {
      && buffer != null
      && buffer.Length == size
      && IsPow2(size) && size < U32
      && mask == size - 1
      && writePos < size && readPos < size
    }

    /** The unread bytes, oldest first. */
    function Contents(): (s: seq<byte>)
      requires Valid()
      reads this, buffer
      ensures |s| < size
    {
      Window(buffer[..], readPos, Dist(readPos, writePos, size))
    }

    /** The bounded FIFO's capacity: one slot stays empty. */
    ghost function Capacity(): nat
      requires Valid()
      reads this
    {
      size - 1
    }

    constructor Unallocated()
      ensures buffer == null && size == 0 && mask == 0 && writePos == 0 && readPos == 0
    {
      buffer, size, mask, writePos, readPos := null, 0, 0, 0, 0;
    }

    /** GcomRingInit; allocates says whether ExAllocatePool2 returns memory. */
    method Init(size: nat, allocates: bool) returns (status: NtStatus)
      requires size < U32
      modifies this
      ensures status == (if !IsPow2(size) then InvalidParameter
                         else if !allocates then InsufficientResources else Success)
      ensures status == Success ==> Valid() && fresh(buffer) && this.size == size && Contents() == []
      ensures status == InvalidParameter ==> unchanged(this)
      ensures status == InsufficientResources ==>
                buffer == null && this.size == old(this.size) && mask == old(mask)
                && writePos == old(writePos) && readPos == old(readPos)
    {
      SizeCheckIffPowerOfTwo(size);
      if size == 0 || And(size, size - 1) != 0 {
        return InvalidParameter;
      }
      if !allocates {
        buffer := null;
        return InsufficientResources;
      }
      buffer := new byte[size];
      this.size := size;
      mask := size - 1;
      writePos := 0;
      readPos := 0;
      return Success;
    }

    /** GcomRingFree. */
    method Free()
      modifies this
      ensures buffer == null && size == 0 && mask == 0 && writePos == 0 && readPos == 0
    {
      buffer, size, mask, writePos, readPos := null, 0, 0, 0, 0;
    }

    function ReadAvailable(): (n: nat)
      requires Valid()
      reads this, buffer
      ensures n == |Contents()|
    {
      MaskedIsWrap(writePos - readPos, size);
      Masked(writePos - readPos, mask)
    }

    function WriteAvailable(): (n: nat)
      requires Valid()
      reads this, buffer
      ensures n == Capacity() - |Contents()|
    {
      size - 1 - ReadAvailable()
    }

    predicate IsEmpty()
      requires Valid()
      reads this, buffer
      ensures IsEmpty() <==> Contents() == []
    {
      ReadAvailable() == 0
    }

    /** The one or two copies of GcomRingWrite: n bytes of data go to the slots from wp on. */
    method CopyIn(data: array<byte>, wp: nat, n: nat)
      requires Valid() && data != buffer && wp < size && n < size && n <= data.Length
      modifies buffer
      ensures forall i | 0 <= i < n :: buffer[Slot(wp, i, size)] == data[i]
      ensures forall i | n <= i < size :: buffer[Slot(wp, i, size)] == old(buffer[Slot(wp, i, size)])
    {
      var firstChunk := Min(n, size - wp);
      CopyMemory(buffer, wp, data, 0, firstChunk);
      if n > firstChunk {
        CopyMemory(buffer, 0, data, firstChunk, n - firstChunk);
      }
    }

    /** The one or two copies of GcomRingRead: the n bytes in the slots from rp on go to data. */
    method CopyOut(data: array<byte>, rp: nat, n: nat)
      requires Valid() && data != buffer && rp < size && n < size && n <= data.Length
      modifies data
      ensures data[..n] == Window(buffer[..], rp, n)
      ensures data[n..] == old(data[n..])
    {
      var firstChunk := Min(n, size - rp);
      CopyMemory(data, 0, buffer, rp, firstChunk);
      if n > firstChunk {
        CopyMemory(data, firstChunk, buffer, 0, n - firstChunk);
      }
    }

    /** `& Mask` as it is applied to every position. */
    method Reduce(x: nat) returns (pos: nat)
      requires Valid() && x < 2 * size
      ensures pos == Wrap(x, size)
    {
      MaskedIsWrap(x, size);
      return Masked(x, mask);
    }

    /** GcomRingWrite: appends the longest prefix of data[..length] that fits. */
    method Write(data: array<byte>, length: nat) returns (written: nat)
      requires Valid() && length <= data.Length && data != buffer
      modifies this`writePos, buffer
      ensures Valid()
      ensures written == Min(length, Capacity() - |old(Contents())|)
      ensures Contents() == old(Contents()) + data[..written]
    {
      hide WriteAvailable, ReadAvailable, IsPow2;
      var available := WriteAvailable();
      var toWrite := Min(length, available);
      var wp := Reduce(writePos);
      if toWrite == 0 {
        assert data[..0] == [];
        return 0;
      }
      ghost var before := buffer[..];
      CopyIn(data, wp, toWrite);
      WindowAppend(before, buffer[..], readPos, writePos, data[..toWrite]);
      writePos := Reduce(writePos + toWrite);
      return toWrite;
    }

    /** GcomRingRead: moves the oldest bytes, as many as fit in data[..length], out of the ring. */
    method Read(data: array<byte>, length: nat) returns (taken: nat)
      requires Valid() && length <= data.Length && data != buffer
      modifies this`readPos, data
      ensures Valid()
      ensures taken == Min(length, |old(Contents())|)
      ensures old(Contents()) == data[..taken] + Contents()
      ensures data[taken..] == old(data[..])[taken..]
    {
      hide ReadAvailable, IsPow2;
      var available := ReadAvailable();
      var toRead := Min(length, available);
      var rp := Reduce(readPos);
      if toRead == 0 {
        assert data[..0] == [];
        return 0;
      }
      CopyOut(data, rp, toRead);
      WindowSplit(buffer[..], readPos, available, toRead);
      DistShrinks(readPos, writePos, toRead, size);
      readPos := Reduce(readPos + toRead);
      return toRead;
    }

    /** GcomRingFlush: discards everything unread. */
    method Flush()
      requires Valid()
      modifies this`readPos
      ensures Valid() && Contents() == []
    {
      var wp := writePos;
      readPos := wp;
    }
  }
}
