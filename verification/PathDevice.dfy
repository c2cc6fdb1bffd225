/**
 The handlers of one direction as the driver runs them: a ring buffer object, two request
 queues, loops that drain them. Each is proved against the step of module DataPath.
 */
module PathDevices {
  import opened Prelude
  import opened DataPath
  import opened RingBuffers
  import Bits

  class PathDevice {
    const ring: RingBuffer
    ghost const Cap: nat
    var active: bool
    var readQueue: seq<Request>
    var writeQueue: seq<Request>
    /** The history: completion calls and flushes in the order they are made, and the arrivals. */
    var log: seq<Event>
    var arrivals: seq<Request>

    ghost predicate Valid()
      reads this, ring, ring.buffer
    {
      active ==> ring.Valid() && ring.Capacity() == Cap
    }

    ghost function Abs(): Path
      requires Valid()
      reads this, ring, ring.buffer
    {
      Path(Cap, active, if active then ring.Contents() else [], readQueue, writeQueue, log, arrivals)
    }

    /** The ring of a pair as GcomPortPairCreate sets it up, both allocations having succeeded. */
    constructor (size: nat)
      requires Bits.IsPow2(size) && size < Bits.U32
      ensures Valid() && fresh(ring) && fresh(ring.buffer) && Abs() == Initial(size - 1)
    {
      ring := new RingBuffer.Unallocated();
      Cap := size - 1;
      active, readQueue, writeQueue, log, arrivals := true, [], [], [], [];
      new;
      var status := ring.Init(size, true);
    }

    /** WdfRequestComplete and WdfRequestCompleteWithInformation. */
    method Complete(req: Request, status: NtStatus, bytes: seq<byte>)
      modifies this`log
      ensures log == old(log) + [Completed(req, status, bytes)]
    {
      log := log + [Completed(req, status, bytes)];
    }

    method DrainRingToReads()
      requires Valid() && active
      modifies this`readQueue, this`log, ring`readPos
      ensures Valid() && Abs() == DrainReads(old(Abs()))
    {
      hide RingBuffer.Contents, RingBuffer.IsEmpty;
      while !ring.IsEmpty() && readQueue != []
        invariant Valid() && DrainReads(Abs()) == DrainReads(old(Abs()))
        decreases |readQueue|
      {
        var readReq := readQueue[0];
        readQueue := readQueue[1..];
        if !readReq.Read? || readReq.len == 0 {
          Complete(readReq, BufferTooSmall, []);
          continue;
        }
        var readBuf := new byte[readReq.len];
        var bytesRead := ring.Read(readBuf, readReq.len);
        if bytesRead > 0 {
          Complete(readReq, Success, readBuf[..bytesRead]);
        } else {
          assert false;  // the branch that re-queues the request cannot be reached
        }
      }
    }

    method DrainWritesToRing()
      requires Valid() && active
      modifies this`readQueue, this`writeQueue, this`log, ring, ring.buffer
      ensures Valid() && ring.buffer == old(ring.buffer) && Abs() == DrainWrites(old(Abs()))
    {
      while ring.WriteAvailable() > 0 && writeQueue != []
        invariant Valid() && ring.buffer == old(ring.buffer)
        invariant DrainWrites(Abs()) == DrainWrites(old(Abs()))
        decreases |writeQueue|
      {
        AdmitTurn(Abs());
        AdmitNextWrite();
      }
    }

    /** One turn of that loop. */
    method AdmitNextWrite()
      requires Valid() && active && ring.WriteAvailable() > 0 && writeQueue != []
      modifies this`readQueue, this`writeQueue, this`log, ring, ring.buffer
      ensures Valid() && ring.buffer == old(ring.buffer)
      ensures Abs() == Admitted(old(Abs()))
    {
      hide DrainReads, RingBuffer.Contents, RingBuffer.WriteAvailable, RingBuffer.ReadAvailable;
      var writeReq := writeQueue[0];
      writeQueue := writeQueue[1..];
      if !writeReq.Write? || writeReq.data == [] {
        Complete(writeReq, BufferTooSmall, []);
        return;
      }
      var bytesWritten := PutInRing(writeReq.data);
      if bytesWritten > 0 {
        Complete(writeReq, Success, writeReq.data[..bytesWritten]);
        DrainRingToReads();
      } else {
        assert false;  // the branch that re-queues the request cannot be reached
      }
    }

    /** GcomRingWrite from a request's system buffer. */
    method PutInRing(data: seq<byte>) returns (n: nat)
      requires Valid() && active
      modifies ring, ring.buffer
      ensures Valid() && ring.buffer == old(ring.buffer)
      ensures n == Min(|data|, Room(old(Abs())))
      ensures Abs() == old(Abs()).(ring := old(Abs()).ring + data[..n])
    {
      var buf := new byte[|data|](i requires 0 <= i < |data| => data[i]);
      n := ring.Write(buf, |data|);
      assert buf[..n] == data[..n];
    }

    method EvtRead(req: Request, nonBlocking: bool, forwards: bool)
      requires Valid() && req.Read?
      modifies this, ring, ring.buffer
      ensures Valid() && ring.buffer == old(ring.buffer)
      ensures Abs() == Apply(old(Abs()), Arrive(req, nonBlocking, forwards))
    {
      hide DrainWrites;
      if !active {
        Complete(req, DeviceNotConnected, []);
      } else if req.len < 1 {
        Complete(req, BufferTooSmall, []);
      } else {
        var outputBuf := new byte[req.len];
        var bytesRead := ring.Read(outputBuf, req.len);
        assert old(Abs()).ring[..bytesRead] == outputBuf[..bytesRead];
        assert Abs() == old(Abs()).(ring := old(Abs()).ring[bytesRead..]);
        if bytesRead > 0 {
          DrainWritesToRing();
          Complete(req, Success, outputBuf[..bytesRead]);
        } else if nonBlocking {
          Complete(req, Success, []);
        } else if forwards {
          readQueue := readQueue + [req];
        } else {
          Complete(req, ForwardFailed, []);
        }
      }
      arrivals := arrivals + [req];
    }

    method EvtWrite(req: Request, forwards: bool)
      requires Valid() && req.Write?
      modifies this, ring, ring.buffer
      ensures Valid() && ring.buffer == old(ring.buffer)
      ensures Abs() == Apply(old(Abs()), Arrive(req, false, forwards))
    {
      hide DrainReads;
      if !active {
        Complete(req, DeviceNotConnected, []);
      } else if |req.data| < 1 {
        Complete(req, BufferTooSmall, []);
      } else {
        var bytesWritten := PutInRing(req.data);
        if bytesWritten > 0 {
          DrainRingToReads();
          Complete(req, Success, req.data[..bytesWritten]);
        } else {
          assert Abs() == old(Abs());
          if forwards {
            writeQueue := writeQueue + [req];
          } else {
            Complete(req, ForwardFailed, []);
          }
        }
      }
      arrivals := arrivals + [req];
    }

    /** IOCTL_SERIAL_IMMEDIATE_CHAR. */
    method ImmediateCharIoctl(req: Request)
      requires Valid() && req.Immediate?
      modifies this, ring, ring.buffer
      ensures Valid() && ring.buffer == old(ring.buffer)
      ensures Abs() == Apply(old(Abs()), Arrive(req, false, false))
    {
      hide DrainReads;
      if !active {
        Complete(req, DeviceNotConnected, []);
      } else if |req.chars| < 1 {
        Complete(req, BufferTooSmall, []);
      } else {
        var n := PutInRing(req.chars[..1]);
        assert req.chars[..1][..n] == req.chars[..n];
        DrainRingToReads();
        Complete(req, Success, req.chars[..n]);
      }
      arrivals := arrivals + [req];
    }

    /** WdfIoQueuePurge on the read queue. */
    method AbortReadQueue()
      requires Valid()
      modifies this`readQueue, this`log
      ensures Valid() && Abs() == Apply(old(Abs()), AbortReads)
    {
      if active {
        CancelReadQueue();
      }
    }

    method CancelReadQueue()
      requires Valid()
      modifies this`readQueue, this`log
      ensures Valid() && Abs() == PurgeReads(old(Abs()))
    {
      while readQueue != []
        invariant CancelAll(log, readQueue) == CancelAll(old(log), old(readQueue))
        decreases |readQueue|
      {
        Complete(readQueue[0], Cancelled, []);
        readQueue := readQueue[1..];
      }
    }

    /** WdfIoQueuePurge on the write queue. */
    method AbortWriteQueue()
      requires Valid()
      modifies this`writeQueue, this`log
      ensures Valid() && Abs() == Apply(old(Abs()), AbortWrites)
    {
      if active {
        CancelWriteQueue();
      }
    }

    method CancelWriteQueue()
      requires Valid()
      modifies this`writeQueue, this`log
      ensures Valid() && Abs() == PurgeWrites(old(Abs()))
    {
      while writeQueue != []
        invariant CancelAll(log, writeQueue) == CancelAll(old(log), old(writeQueue))
        decreases |writeQueue|
      {
        Complete(writeQueue[0], Cancelled, []);
        writeQueue := writeQueue[1..];
      }
    }

    /** The RXCLEAR and TXCLEAR part of PURGE. */
    method ClearIoctl()
      requires Valid()
      modifies this`log, ring`readPos
      ensures Valid() && Abs() == Apply(old(Abs()), Clear)
    {
      if active {
        log := log + [Flushed(ring.Contents())];
        ring.Flush();
      }
    }

    /** A caller or WDF cancels one pended read. */
    method CancelPendedRead(i: nat)
      requires Valid() && i < |readQueue|
      modifies this`readQueue, this`log
      ensures Valid() && Abs() == Apply(old(Abs()), CancelRead(i))
    {
      Complete(readQueue[i], Cancelled, []);
      readQueue := Without(readQueue, i);
    }

    method CancelPendedWrite(i: nat)
      requires Valid() && i < |writeQueue|
      modifies this`writeQueue, this`log
      ensures Valid() && Abs() == Apply(old(Abs()), CancelWrite(i))
    {
      Complete(writeQueue[i], Cancelled, []);
      writeQueue := Without(writeQueue, i);
    }

    /** The part of GcomPortPairDestroy that concerns one direction. */
    method Teardown()
      requires Valid()
      modifies this, ring
      ensures Valid() && Abs() == Apply(old(Abs()), Destroy) && ring.buffer == null
    {
      var held := if active then ring.Contents() else [];
      CancelReadQueue();
      CancelWriteQueue();
      log := log + [Flushed(held)];
      active := false;
      ring.Free();
    }
  }

  /** What one turn of the write drain does to the direction. */
  function Admitted(p: Path): Path
    requires p.writeQueue != []
  {
    var r, rest := p.writeQueue[0], p.(writeQueue := p.writeQueue[1..]);
    if !r.Write? || r.data == [] then Note(rest, r, BufferTooSmall, [])
    else
      var n := Min(|r.data|, Room(p));
      DrainReads(Note(rest.(ring := p.ring + r.data[..n]), r, Success, r.data[..n]))
  }

  lemma AdmitTurn(p: Path)
    requires |p.ring| < p.cap && p.writeQueue != []
    ensures DrainWrites(p) == DrainWrites(Admitted(p)) && |Admitted(p).writeQueue| < |p.writeQueue|
  {
  }
}
