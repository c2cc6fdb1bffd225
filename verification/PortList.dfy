/**
 The list of ports as it crosses from the driver to the addon: a count and fixed-size entries,
 little-endian words in a byte buffer, written by the driver and read back by the addon.
 */
module PortLists {
  import opened Prelude
  import opened PortTable
  import opened DeviceContexts
  import Bits

  const HEADER_SIZE: nat := 4
  const ENTRY_SIZE: nat := 16

  datatype PortInfo = PortInfo(portNumber: nat, companionIndex: nat, comSideOpen: bool, companionSideOpen: bool)

  /* ------------------------------------------------------------------ what is listed */

  function InfoOf(p: PortPair): PortInfo {
    PortInfo(p.portNumber, p.companionIndex, p.comSideOpen, p.companionSideOpen)
  }

  /** The active pairs of the first n slots, in slot order. */
  function ListedBelow(w: World, n: nat): (es: seq<PortInfo>)
    requires n <= |w.ports|
    ensures |es| <= n
  {
    if n == 0 then []
    else if SlotActive(w, n - 1) then ListedBelow(w, n - 1) + [InfoOf(w.pool[w.ports[n - 1].id])]
    else ListedBelow(w, n - 1)
  }

  function Listing(w: World): (es: seq<PortInfo>)
    ensures |es| <= |w.ports|
  {
    ListedBelow(w, |w.ports|)
  }

  /** How many active pairs the first n slots hold. */
  function Rank(w: World, n: nat): nat
    requires n <= |w.ports|
  {
    |set i | 0 <= i < n && SlotActive(w, i)|
  }

  lemma RankNext(w: World, n: nat)
    requires n < |w.ports|
    ensures Rank(w, n + 1) == Rank(w, n) + (if SlotActive(w, n) then 1 else 0)
  {
    var s, t := set i | 0 <= i < n && SlotActive(w, i), set i | 0 <= i < n + 1 && SlotActive(w, i);
    assert t == if SlotActive(w, n) then s + {n} else s;
  }

  lemma {:induction false} ListedBelowLength(w: World, n: nat)
    requires n <= |w.ports|
    ensures |ListedBelow(w, n)| == Rank(w, n)
  {
    if n > 0 {
      ListedBelowLength(w, n - 1);
      RankNext(w, n - 1);
    }
  }

  lemma {:induction false} ListedBelowGrows(w: World, m: nat, n: nat)
    requires m <= n <= |w.ports|
    ensures IsPrefix(ListedBelow(w, m), ListedBelow(w, n))
  {
    if m < n {
      ListedBelowGrows(w, m, n - 1);
    }
  }

  /** Each field of an entry is that of the pair. */
  predicate Describes(e: PortInfo, p: PortPair) {
    && e.portNumber == p.portNumber && e.companionIndex == p.companionIndex
    && e.comSideOpen == p.comSideOpen && e.companionSideOpen == p.companionSideOpen
  }

  /** Every active pair is listed, field by field, after exactly those in lower slots; nothing else is. */
  lemma ListingIsSlotOrder(w: World, i: nat)
    requires i < |w.ports|
    ensures |Listing(w)| == Rank(w, |w.ports|)
    ensures SlotActive(w, i) ==>
              Rank(w, i) < |Listing(w)| && Describes(Listing(w)[Rank(w, i)], w.pool[w.ports[i].id])
  {
    ListedBelowLength(w, |w.ports|);
    ListedBelowLength(w, i);
    ListedBelowGrows(w, i + 1, |w.ports|);
  }

  /** Each entry comes from an active slot. */
  lemma {:induction false} EntryHasSlot(w: World, n: nat, k: nat) returns (i: nat)
    requires n <= |w.ports| && k < |ListedBelow(w, n)|
    ensures i < n && SlotActive(w, i) && Rank(w, i) == k && Describes(ListedBelow(w, n)[k], w.pool[w.ports[i].id])
  {
    if k < |ListedBelow(w, n - 1)| {
      i := EntryHasSlot(w, n - 1, k);
    } else {
      i := n - 1;
      ListedBelowLength(w, i);
    }
  }

  /* -------------------------------------------------------------------- the encoding */

  /** A ULONG in memory. */
  function Le32(n: nat): (b: seq<byte>)
    ensures |b| == 4
  {
    [(n % 0x100) as byte, (n / 0x100 % 0x100) as byte, (n / 0x1_0000 % 0x100) as byte, (n / 0x100_0000 % 0x100) as byte]
  }

  function U32At(b: seq<byte>, at: nat): nat
    requires at + 4 <= |b|
  {
    b[at] as nat + 0x100 * b[at + 1] as nat + 0x1_0000 * b[at + 2] as nat + 0x100_0000 * b[at + 3] as nat
  }

  lemma WordRoundTrip(n: nat)
    requires n < Bits.U32
    ensures U32At(Le32(n), 0) == n
  {
    assert n / 0x1_0000 == n / 0x100 / 0x100 && n / 0x100_0000 == n / 0x1_0000 / 0x100;
  }

  lemma WordAt(b: seq<byte>, at: nat, n: nat)
    requires n < Bits.U32 && at + 4 <= |b| && b[at..at + 4] == Le32(n)
    ensures U32At(b, at) == n
  {
    WordRoundTrip(n);
    var x := b[at..at + 4];
    assert x[0] == b[at] && x[1] == b[at + 1] && x[2] == b[at + 2] && x[3] == b[at + 3];
  }

  function Flag(b: bool): nat {
    if b then 1 else 0
  }

  function EncodeEntry(e: PortInfo): (b: seq<byte>)
    ensures |b| == ENTRY_SIZE
  {
    Le32(e.portNumber) + Le32(e.companionIndex) + Le32(Flag(e.comSideOpen)) + Le32(Flag(e.companionSideOpen))
  }

  function EncodeEntries(es: seq<PortInfo>): (b: seq<byte>)
    ensures |b| == ENTRY_SIZE * |es|
  {
    if es == [] then [] else EncodeEntries(es[..|es|-1]) + EncodeEntry(es[|es|-1])
  }

  function EncodeReply(es: seq<PortInfo>): (b: seq<byte>)
    ensures |b| == HEADER_SIZE + ENTRY_SIZE * |es|
  {
    Le32(|es|) + EncodeEntries(es)
  }

  function EntryAt(b: seq<byte>, at: nat): PortInfo
    requires at + ENTRY_SIZE <= |b|
  {
    PortInfo(U32At(b, at), U32At(b, at + 4), U32At(b, at + 8) != 0, U32At(b, at + 12) != 0)
  }

  function CountOf(b: seq<byte>): nat
    requires |b| >= HEADER_SIZE
  {
    U32At(b, 0)
  }

  /** The entries the addon reads; the count is trusted, so they must lie inside the buffer. */
  function DecodeReply(b: seq<byte>): seq<PortInfo>
    requires |b| >= HEADER_SIZE && HEADER_SIZE + ENTRY_SIZE * CountOf(b) <= |b|
  {
    seq(CountOf(b), i requires 0 <= i < CountOf(b) => EntryAt(b, HEADER_SIZE + ENTRY_SIZE * i))
  }

  /** What a ULONG can hold, which every stored port number and index is. */
  predicate Fits(e: PortInfo) {
    e.portNumber < Bits.U32 && e.companionIndex < Bits.U32
  }

  lemma SliceOfSlice(b: seq<byte>, at: nat, k: nat)
    requires at + ENTRY_SIZE <= |b| && k + 4 <= ENTRY_SIZE
    ensures b[at..at + ENTRY_SIZE][k..k + 4] == b[at + k..at + k + 4]
  {
    var x, y := b[at..at + ENTRY_SIZE][k..k + 4], b[at + k..at + k + 4];
    assert forall i | 0 <= i < 4 :: x[i] == y[i];
  }

  lemma EntryRoundTrip(b: seq<byte>, at: nat, e: PortInfo)
    requires Fits(e) && at + ENTRY_SIZE <= |b| && b[at..at + ENTRY_SIZE] == EncodeEntry(e)
    ensures EntryAt(b, at) == e
  {
    var x := b[at..at + ENTRY_SIZE];
    assert x[0..4] == Le32(e.portNumber) && x[4..8] == Le32(e.companionIndex);
    assert x[8..12] == Le32(Flag(e.comSideOpen)) && x[12..16] == Le32(Flag(e.companionSideOpen));
    SliceOfSlice(b, at, 0);
    SliceOfSlice(b, at, 4);
    SliceOfSlice(b, at, 8);
    SliceOfSlice(b, at, 12);
    WordAt(b, at, e.portNumber);
    WordAt(b, at + 4, e.companionIndex);
    WordAt(b, at + 8, Flag(e.comSideOpen));
    WordAt(b, at + 12, Flag(e.companionSideOpen));
  }

  /** Entry k of the encoding is where the pointer arithmetic looks for it. */
  lemma {:induction false} EncodedEntry(es: seq<PortInfo>, k: nat)
    requires k < |es|
    ensures EncodeEntries(es)[ENTRY_SIZE * k..ENTRY_SIZE * k + ENTRY_SIZE] == EncodeEntry(es[k])
  {
    var init := es[..|es|-1];
    var b := EncodeEntries(es);
    assert b == EncodeEntries(init) + EncodeEntry(es[|es|-1]);
    if k < |init| {
      EncodedEntry(init, k);
      assert b[ENTRY_SIZE * k..ENTRY_SIZE * k + ENTRY_SIZE]
          == EncodeEntries(init)[ENTRY_SIZE * k..ENTRY_SIZE * k + ENTRY_SIZE];
    } else {
      assert b[ENTRY_SIZE * k..ENTRY_SIZE * k + ENTRY_SIZE] == EncodeEntry(es[k]);
    }
  }

  lemma InTheMiddle(header: seq<byte>, x: seq<byte>, rest: seq<byte>, at: nat)
    requires |header| == HEADER_SIZE && at + ENTRY_SIZE <= |x|
    ensures (header + x + rest)[HEADER_SIZE + at..HEADER_SIZE + at + ENTRY_SIZE] == x[at..at + ENTRY_SIZE]
  {
  }

  /** Decoding a buffer that starts with the encoding of es gives es back, whatever follows. */
  lemma ReplyRoundTrip(es: seq<PortInfo>, rest: seq<byte>)
    requires |es| < Bits.U32 && forall e | e in es :: Fits(e)
    ensures CountOf(EncodeReply(es) + rest) == |es| && DecodeReply(EncodeReply(es) + rest) == es
  {
    hide EncodeEntries, EncodeEntry, Le32, U32At, EntryAt, Fits;
    var b := EncodeReply(es) + rest;
    assert b[0..4] == Le32(|es|);
    WordAt(b, 0, |es|);
    forall k | 0 <= k < |es|
      ensures EntryAt(b, HEADER_SIZE + ENTRY_SIZE * k) == es[k]
    {
      var at := HEADER_SIZE + ENTRY_SIZE * k;
      EncodedEntry(es, k);
      InTheMiddle(Le32(|es|), EncodeEntries(es), rest, ENTRY_SIZE * k);
      EntryRoundTrip(b, at, es[k]);
    }
  }

  /** The low byte of a word comes first. */
  lemma LowByteFirst(n: nat)
    requires n < 0x100
    ensures Le32(n) == [n as byte, 0, 0, 0]
  {
  }

  /** Where each field of each entry lies behind the count: four words of four bytes, in the order of the struct. */
  lemma ReplyLayout(es: seq<PortInfo>, k: nat)
    requires k < |es| < Bits.U32 && forall e | e in es :: Fits(e)
    ensures var b, at := EncodeReply(es), HEADER_SIZE + ENTRY_SIZE * k;
            && at + ENTRY_SIZE <= |b| && U32At(b, 0) == |es|
            && U32At(b, at) == es[k].portNumber && U32At(b, at + 4) == es[k].companionIndex
            && (U32At(b, at + 8) != 0 <==> es[k].comSideOpen)
            && (U32At(b, at + 12) != 0 <==> es[k].companionSideOpen)
  {
    hide EncodeEntries, U32At, Fits, Le32;
    ReplyRoundTrip(es, []);
    var b := EncodeReply(es);
    assert b + [] == b;
    assert DecodeReply(b)[k] == EntryAt(b, HEADER_SIZE + ENTRY_SIZE * k);
  }

  /** Sixty-four entries exactly fill the buffer the addon allocates. */
  lemma FullListFillsBuffer(es: seq<PortInfo>)
    requires |es| <= MAX_PORTS
    ensures |EncodeReply(es)| <= HEADER_SIZE + ENTRY_SIZE * MAX_PORTS == 1028
    ensures |EncodeReply(es)| == 1028 <==> |es| == MAX_PORTS
  {
  }

  /* ----------------------------------------------------------- writing and reading it */

  /** s with the bytes x from position at on. */
  function Spliced(s: seq<byte>, at: nat, x: seq<byte>): (r: seq<byte>)
    requires at + |x| <= |s|
    ensures |r| == |s|
  {
    s[..at] + x + s[at + |x|..]
  }

  lemma SpliceTwice(s: seq<byte>, at: nat, x: seq<byte>, y: seq<byte>)
    requires at + |x| + |y| <= |s|
    ensures Spliced(Spliced(s, at, x), at + |x|, y) == Spliced(s, at, x + y)
  {
  }

  lemma SpliceNothing(s: seq<byte>)
    requires HEADER_SIZE <= |s|
    ensures Spliced(s, HEADER_SIZE, EncodeEntries([])) == s
  {
  }

  lemma EncodeSnoc(es: seq<PortInfo>, e: PortInfo)
    ensures EncodeEntries(es + [e]) == EncodeEntries(es) + EncodeEntry(e)
  {
    assert (es + [e])[..|es|] == es;
  }

  method StoreU32(buffer: array<byte>, at: nat, n: nat)
    requires at + 4 <= buffer.Length
    modifies buffer
    ensures buffer[..] == Spliced(old(buffer[..]), at, Le32(n))
  {
    buffer[at] := (n % 0x100) as byte;
    buffer[at + 1] := (n / 0x100 % 0x100) as byte;
    buffer[at + 2] := (n / 0x1_0000 % 0x100) as byte;
    buffer[at + 3] := (n / 0x100_0000 % 0x100) as byte;
  }

  method StoreEntry(buffer: array<byte>, at: nat, e: PortInfo)
    requires at + ENTRY_SIZE <= buffer.Length
    modifies buffer
    ensures buffer[..] == Spliced(old(buffer[..]), at, EncodeEntry(e))
  {
    ghost var s := buffer[..];
    StoreU32(buffer, at, e.portNumber);
    StoreU32(buffer, at + 4, e.companionIndex);
    StoreU32(buffer, at + 8, Flag(e.comSideOpen));
    StoreU32(buffer, at + 12, Flag(e.companionSideOpen));
    var a, b, c := Le32(e.portNumber), Le32(e.companionIndex), Le32(Flag(e.comSideOpen));
    SpliceTwice(s, at, a, b);
    SpliceTwice(s, at, a + b, c);
    SpliceTwice(s, at, a + b + c, Le32(Flag(e.companionSideOpen)));
  }

  /** What the handler writes into a buffer of outputLen bytes: as many entries as fit. */
  function Fitting(w: World, outputLen: nat): (es: seq<PortInfo>)
    requires HEADER_SIZE <= outputLen
    ensures HEADER_SIZE + ENTRY_SIZE * |es| <= outputLen
  {
    Listing(w)[..Min(|Listing(w)|, (outputLen - HEADER_SIZE) / ENTRY_SIZE)]
  }

  /** It is the start of the list, and cut short only where one more entry would not fit. */
  lemma FittingIsMost(w: World, outputLen: nat)
    requires HEADER_SIZE <= outputLen
    ensures var es := Fitting(w, outputLen);
            && IsPrefix(es, Listing(w))
            && (|es| < |Listing(w)| ==> HEADER_SIZE + ENTRY_SIZE * (|es| + 1) > outputLen)
  {
    hide Listing;
  }

  /** GcomHandleListPorts. */
  method ListPortsIoctl(ctx: DeviceContext, buffer: array<byte>) returns (status: NtStatus, information: nat)
    requires TableOk(ctx.Abs())
    modifies buffer
    ensures buffer.Length < HEADER_SIZE ==>
              status == BufferTooSmall && information == 0 && buffer[..] == old(buffer[..])
    ensures buffer.Length >= HEADER_SIZE ==>
              var es := Fitting(ctx.Abs(), buffer.Length);
              && status == Success && information == |EncodeReply(es)|
              && buffer[..] == Spliced(old(buffer[..]), 0, EncodeReply(es))
  {
    hide Spliced, EncodeEntries, EncodeEntry;
    if buffer.Length < HEADER_SIZE {
      return BufferTooSmall, 0;
    }
    ghost var w, s := ctx.Abs(), buffer[..];
    var maxEntries := (buffer.Length - HEADER_SIZE) / ENTRY_SIZE;
    var count, i := 0, 0;
    SpliceNothing(s);
    while i < MAX_PORTS && count < maxEntries
      invariant i <= MAX_PORTS && count == |ListedBelow(w, i)| <= maxEntries && ctx.Abs() == w
      invariant buffer[..] == Spliced(s, HEADER_SIZE, EncodeEntries(ListedBelow(w, i)))
    {
      if ctx.ports[i].Ptr? && ctx.pool[ctx.ports[i].id].active {
        var pp := ctx.pool[ctx.ports[i].id];
        var e := PortInfo(pp.portNumber, pp.companionIndex, pp.comSideOpen, pp.companionSideOpen);
        StoreEntry(buffer, HEADER_SIZE + ENTRY_SIZE * count, e);
        SpliceTwice(s, HEADER_SIZE, EncodeEntries(ListedBelow(w, i)), EncodeEntry(e));
        EncodeSnoc(ListedBelow(w, i), e);
        count := count + 1;
      }
      i := i + 1;
    }
    ListedBelowGrows(w, i, MAX_PORTS);
    assert ListedBelow(w, i) == Fitting(w, buffer.Length);
    StoreU32(buffer, 0, count);
    HeaderCompletes(s, ListedBelow(w, i));
    return Success, HEADER_SIZE + ENTRY_SIZE * count;
  }

  /** The header, written last, completes the reply. */
  lemma HeaderCompletes(s: seq<byte>, es: seq<PortInfo>)
    requires HEADER_SIZE + ENTRY_SIZE * |es| <= |s|
    ensures Spliced(Spliced(s, HEADER_SIZE, EncodeEntries(es)), 0, Le32(|es|)) == Spliced(s, 0, EncodeReply(es))
  {
    hide EncodeEntries, Le32, Spliced;
    SpliceInFront(s, Le32(|es|), EncodeEntries(es));
  }

  lemma SpliceInFront(s: seq<byte>, h: seq<byte>, x: seq<byte>)
    requires |h| + |x| <= |s|
    ensures Spliced(Spliced(s, |h|, x), 0, h) == Spliced(s, 0, h + x)
  {
    var a, b := Spliced(Spliced(s, |h|, x), 0, h), Spliced(s, 0, h + x);
    forall i | 0 <= i < |a|
      ensures a[i] == b[i]
    {
    }
  }

  /** The reading half of list_ports, on the bytes the control device returned. */
  method ReadReply(buffer: array<byte>, bytesReturned: nat) returns (ports: seq<PortInfo>)
    requires HEADER_SIZE <= bytesReturned ==>
               HEADER_SIZE <= buffer.Length && HEADER_SIZE + ENTRY_SIZE * CountOf(buffer[..]) <= buffer.Length
    ensures bytesReturned < HEADER_SIZE ==> ports == []
    ensures HEADER_SIZE <= bytesReturned ==> ports == DecodeReply(buffer[..])
  {
    if bytesReturned < HEADER_SIZE {
      return [];
    }
    var count := CountOf(buffer[..]);
    ports := [];
    for i := 0 to count
      invariant ports == DecodeReply(buffer[..])[..i]
    {
      ports := ports + [EntryAt(buffer[..], HEADER_SIZE + ENTRY_SIZE * i)];
    }
  }

  predicate NumbersFit(w: World) {
    forall id | id in w.pool :: Fits(InfoOf(w.pool[id]))
  }

  lemma ListingFits(w: World)
    requires NumbersFit(w)
    ensures forall e | e in Listing(w) :: Fits(e)
  {
    forall k | 0 <= k < |Listing(w)|
      ensures Fits(Listing(w)[k])
    {
      var i := EntryHasSlot(w, |w.ports|, k);
    }
  }

  /** list_ports: yields exactly the active pairs in slot order; every read stays inside its buffer. */
  method ListPorts(ctx: DeviceContext) returns (ports: seq<PortInfo>)
    requires TableOk(ctx.Abs()) && NumbersFit(ctx.Abs())
    ensures ports == Listing(ctx.Abs())
  {
    ghost var es := Listing(ctx.Abs());
    var buffer := new byte[HEADER_SIZE + MAX_PORTS * ENTRY_SIZE](_ => 0);
    ghost var s := buffer[..];
    var status, bytesReturned := ListPortsIoctl(ctx, buffer);
    assert Fitting(ctx.Abs(), buffer.Length) == es;
    ListingFits(ctx.Abs());
    ReplyRoundTrip(es, s[|EncodeReply(es)|..]);
    assert buffer[..] == EncodeReply(es) + s[|EncodeReply(es)|..];
    ports := ReadReply(buffer, bytesReturned);
  }

  /* ------------------------------------------------------------------ over whole runs */

  /** Requests carry the port number as a ULONG. */
  predicate UlongRequest(step: Step) {
    step.CreatePort? ==> step.requested < Bits.U32
  }

  lemma StepKeepsFits(w: World, step: Step)
    requires Enabled(w, step) && NumbersFit(w) && UlongRequest(step)
    ensures NumbersFit(Apply(w, step))
  {
    hide Create, DestroyIds, Close, InUse, NumberFree;
    match step
    case CreatePort(requested, fault) => CreateFits(w, requested, fault);
    case DestroyPort(n) => DestroyFits(w, Matching(w, n));
    case Cleanup => DestroyFits(w, ActiveIds(w));
    case OpenFile(f, side, id) => OpenFits(w, f, side, id);
    case CloseFile(f) => CloseFits(w, f);
    case ForeignLinks(comLinks, gcomLinks) =>
  }

  lemma CreateFits(w: World, requested: nat, fault: Fault)
    requires NumbersFit(w) && requested < Bits.U32
    ensures NumbersFit(Create(w, requested, fault))
  {
  }

  lemma DestroyFits(w: World, ids: set<nat>)
    requires NumbersFit(w)
    ensures NumbersFit(DestroyIds(w, ids))
  {
  }

  lemma OpenFits(w: World, f: nat, side: Side, id: nat)
    requires NumbersFit(w) && id in w.pool
    ensures NumbersFit(Open(w, f, side, id).0)
  {
  }

  lemma CloseFits(w: World, f: nat)
    requires NumbersFit(w) && f in w.files && (w.files[f].pair.Some? ==> w.files[f].pair.value in w.pool)
    ensures NumbersFit(Close(w, f))
  {
  }

  /** So every reachable table can be listed. */
  lemma {:induction false} RunKeepsFits(w: World, run: seq<Step>)
    requires Legal(w, run) && NumbersFit(w) && forall step | step in run :: UlongRequest(step)
    ensures NumbersFit(Exec(w, run))
    decreases |run|
  {
    if run != [] {
      assert run[0] in run;
      StepKeepsFits(w, run[0]);
      RunKeepsFits(Apply(w, run[0]), run[1..]);
    }
  }
}
