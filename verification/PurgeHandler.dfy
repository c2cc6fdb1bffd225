/** The PURGE case of the COM handler, run on the two directions of a pair among other handlers. */
module PurgeHandlers {
  import opened DataPath
  import opened PathDevices
  import opened Purge

  /** Two directions share neither ring nor buffer. */
  ghost predicate Apart(tx: PathDevice, rx: PathDevice)
    reads tx, rx, tx.ring, rx.ring
  {
    tx != rx && tx.ring != rx.ring && (tx.ring.buffer == null || tx.ring.buffer != rx.ring.buffer)
  }

  ghost predicate PairValid(tx: PathDevice, rx: PathDevice)
    reads tx, rx, tx.ring, rx.ring, tx.ring.buffer, rx.ring.buffer
  {
    Apart(tx, rx) && tx.Valid() && rx.Valid()
  }

  ghost function PairOf(tx: PathDevice, rx: PathDevice): Pair
    requires PairValid(tx, rx)
    reads tx, rx, tx.ring, rx.ring, tx.ring.buffer, rx.ring.buffer
  {
    Pair(tx.Abs(), rx.Abs())
  }

  /** One handler run, by the method that handles it. */
  method Perform(dev: PathDevice, step: Step)
    requires dev.Valid() && Enabled(dev.Abs(), step)
    modifies dev, dev.ring, dev.ring.buffer
    ensures dev.Valid() && (dev.ring.buffer == old(dev.ring.buffer) || dev.ring.buffer == null)
    ensures dev.Abs() == Apply(old(dev.Abs()), step)
  {
    match step
    case Arrive(req, nonBlocking, forwards) =>
      match req {
        case Read(_, _) => dev.EvtRead(req, nonBlocking, forwards);
        case Write(_, _) => dev.EvtWrite(req, forwards);
        case Immediate(_, _) => dev.ImmediateCharIoctl(req);
      }
    case CancelRead(i) => dev.CancelPendedRead(i);
    case CancelWrite(i) => dev.CancelPendedWrite(i);
    case AbortReads => dev.AbortReadQueue();
    case AbortWrites => dev.AbortWriteQueue();
    case Clear => dev.ClearIoctl();
    case Destroy => dev.Teardown();
  }

  method PerformOn(tx: PathDevice, rx: PathDevice, s: PairStep)
    requires PairValid(tx, rx) && PairEnabled(PairOf(tx, rx), s)
    modifies tx, tx.ring, tx.ring.buffer, rx, rx.ring, rx.ring.buffer
    ensures PairValid(tx, rx) && PairOf(tx, rx) == ApplyPair(old(PairOf(tx, rx)), s)
    ensures tx.ring.buffer == old(tx.ring.buffer) || tx.ring.buffer == null
    ensures rx.ring.buffer == old(rx.ring.buffer) || rx.ring.buffer == null
  {
    hide Apply, Enabled;
    match s
    case Transmit(step) => Perform(tx, step);
    case Receive(step) => Perform(rx, step);
  }

  /** Whatever else runs between two sections. */
  method PerformAll(tx: PathDevice, rx: PathDevice, run: seq<PairStep>)
    requires PairValid(tx, rx) && PairLegal(PairOf(tx, rx), run)
    modifies tx, tx.ring, tx.ring.buffer, rx, rx.ring, rx.ring.buffer
    ensures PairValid(tx, rx) && PairOf(tx, rx) == ExecPair(old(PairOf(tx, rx)), run)
    ensures tx.ring.buffer == old(tx.ring.buffer) || tx.ring.buffer == null
    ensures rx.ring.buffer == old(rx.ring.buffer) || rx.ring.buffer == null
  {
    hide ApplyPair, PairEnabled;
    var rest := run;
    while rest != []
      invariant PairValid(tx, rx) && PairLegal(PairOf(tx, rx), rest)
      invariant ExecPair(PairOf(tx, rx), rest) == ExecPair(old(PairOf(tx, rx)), run)
      invariant tx.ring.buffer == old(tx.ring.buffer) || tx.ring.buffer == null
      invariant rx.ring.buffer == old(rx.ring.buffer) || rx.ring.buffer == null
      decreases |rest|
    {
      PerformOn(tx, rx, rest[0]);
      rest := rest[1..];
    }
  }

  method AbortWritesOf(tx: PathDevice, rx: PathDevice, flags: Flags)
    requires PairValid(tx, rx)
    modifies tx
    ensures PairValid(tx, rx) && PairOf(tx, rx) == AbortTransmit(old(PairOf(tx, rx)), flags)
  {
    hide Apply;
    if flags.txAbort {
      tx.AbortWriteQueue();
    }
  }

  method AbortReadsOf(tx: PathDevice, rx: PathDevice, flags: Flags)
    requires PairValid(tx, rx)
    modifies rx
    ensures PairValid(tx, rx) && PairOf(tx, rx) == AbortReceive(old(PairOf(tx, rx)), flags)
  {
    hide Apply;
    if flags.rxAbort {
      rx.AbortReadQueue();
    }
  }

  /** The section under DataLock. */
  method FlushBoth(tx: PathDevice, rx: PathDevice, flags: Flags)
    requires PairValid(tx, rx)
    modifies tx, tx.ring, rx, rx.ring
    ensures PairValid(tx, rx) && PairOf(tx, rx) == Flush(old(PairOf(tx, rx)), flags)
  {
    hide Apply;
    if flags.txClear {
      tx.ClearIoctl();
    }
    if flags.rxClear {
      rx.ClearIoctl();
    }
  }

  /** IOCTL_SERIAL_PURGE: the two queue purges without DataLock, then the flushes under it. */
  method PurgeIoctl(tx: PathDevice, rx: PathDevice, flags: Flags, first: seq<PairStep>, second: seq<PairStep>)
    requires PairValid(tx, rx) && WindowsLegal(PairOf(tx, rx), flags, first, second)
    modifies tx, tx.ring, tx.ring.buffer, rx, rx.ring, rx.ring.buffer
    ensures PairValid(tx, rx) && PairOf(tx, rx) == Purge.PurgeIoctl(old(PairOf(tx, rx)), flags, first, second)
  {
    hide PairValid, PairOf, AbortTransmit, AbortReceive, Flush, PairLegal, ExecPair;
    AbortWritesOf(tx, rx, flags);
    PerformAll(tx, rx, first);
    AbortReadsOf(tx, rx, flags);
    PerformAll(tx, rx, second);
    FlushBoth(tx, rx, flags);
  }
}
