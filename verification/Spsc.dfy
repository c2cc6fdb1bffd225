/**
 The lock-free claim of ringbuf.h: one producer and one consumer run GcomRingWrite,
 GcomRingRead and GcomRingFlush concurrently. A step is one shared load, one copied byte
 or one published position; the bytes of a copy may move in any order. The interlocked
 operations are sequentially consistent.
 */
module Spsc {
  import opened Prelude
  import opened Bits
  import opened RingMath

  /** What a published read position passed over. */
  datatype Segment = Delivered(bytes: seq<byte>) | Discarded(bytes: seq<byte>)

  /** While copying, done holds the indexes of data[..n] already in the ring. */
  datatype Producer =
    | PIdle
    | PLoadedWp(data: seq<byte>, wp: nat)
    | PCopying(data: seq<byte>, n: nat, done: set<nat>)

  /** While copying, got holds the bytes already in the caller's buffer, by index. */
  datatype Consumer =
    | CIdle
    | CLoadedWp(want: nat, wp: nat)
    | CCopying(n: nat, got: map<nat, byte>)
    | CFlushing(wp: nat)

  /** published and taken record the history; no step depends on them. */
  datatype State = State(buf: seq<byte>, wp: nat, rp: nat, prod: Producer, cons: Consumer,
                         published: seq<byte>, taken: seq<Segment>)

  datatype Step =
    | ProdLoadWp(data: seq<byte>)
    | ProdLoadRp
    | ProdCopy(i: nat)
    | ProdPublish
    | ConsLoadWp(want: nat)
    | ConsLoadRp
    | ConsCopy(i: nat)
    | ConsPublish
    | FlushLoad
    | FlushStore

  ghost predicate WellFormed(s: State) {
    && IsPow2(|s.buf|) && |s.buf| < U32
    && s.wp < |s.buf| && s.rp < |s.buf|
  }

  ghost predicate Enabled(s: State, step: Step) {
    WellFormed(s) &&
    match step
    case ProdLoadWp(_) => s.prod.PIdle?
    case ProdLoadRp => s.prod.PLoadedWp?
    case ProdCopy(i) =>
      s.prod.PCopying? && i < s.prod.n && i !in s.prod.done && i < |s.prod.data| && i < |s.buf|
    case ProdPublish =>
      s.prod.PCopying? && s.prod.n <= |s.prod.data| && forall i | 0 <= i < s.prod.n :: i in s.prod.done
    case ConsLoadWp(_) => s.cons.CIdle?
    case ConsLoadRp => s.cons.CLoadedWp?
    case ConsCopy(i) => s.cons.CCopying? && i < s.cons.n && i !in s.cons.got && i < |s.buf|
    case ConsPublish => s.cons.CCopying? && forall i | 0 <= i < s.cons.n :: i in s.cons.got
    case FlushLoad => s.cons.CIdle?
    case FlushStore => s.cons.CFlushing? && s.cons.wp < |s.buf|
  }

  ghost function DoProdLoadRp(s: State): State
    requires WellFormed(s) && s.prod.PLoadedWp?
  {
    var available := |s.buf| - 1 - Masked(s.prod.wp - s.rp, |s.buf| - 1);
    var n := Min(|s.prod.data|, available);
    if n == 0 then s.(prod := PIdle) else s.(prod := PCopying(s.prod.data, n, {}))
  }

  ghost function DoProdCopy(s: State, i: nat): State
    requires Enabled(s, ProdCopy(i))
  {
    s.(buf := s.buf[Slot(s.wp, i, |s.buf|) := s.prod.data[i]], prod := s.prod.(done := s.prod.done + {i}))
  }

  ghost function DoProdPublish(s: State): State
    requires Enabled(s, ProdPublish)
  {
    s.(wp := Masked(s.wp + s.prod.n, |s.buf| - 1), prod := PIdle,
       published := s.published + s.prod.data[..s.prod.n])
  }

  ghost function DoConsLoadRp(s: State): State
    requires WellFormed(s) && s.cons.CLoadedWp?
  {
    var n := Min(s.cons.want, Masked(s.cons.wp - s.rp, |s.buf| - 1));
    if n == 0 then s.(cons := CIdle) else s.(cons := CCopying(n, map[]))
  }

  ghost function DoConsCopy(s: State, i: nat): State
    requires Enabled(s, ConsCopy(i))
  {
    s.(cons := s.cons.(got := s.cons.got[i := s.buf[Slot(s.rp, i, |s.buf|)]]))
  }

  ghost function DoConsPublish(s: State): State
    requires Enabled(s, ConsPublish)
  {
    s.(rp := Masked(s.rp + s.cons.n, |s.buf| - 1), cons := CIdle,
       taken := s.taken + [Delivered(Received(s.cons))])
  }

  ghost function DoFlushStore(s: State): State
    requires Enabled(s, FlushStore)
  {
    s.(rp := s.cons.wp, cons := CIdle,
       taken := s.taken + [Discarded(Window(s.buf, s.rp, Dist(s.rp, s.cons.wp, |s.buf|)))])
  }

  ghost function Apply(s: State, step: Step): State
    requires Enabled(s, step)
  {
    match step
    case ProdLoadWp(data) => s.(prod := PLoadedWp(data, s.wp))
    case ProdLoadRp => DoProdLoadRp(s)
    case ProdCopy(i) => DoProdCopy(s, i)
    case ProdPublish => DoProdPublish(s)
    case ConsLoadWp(want) => s.(cons := CLoadedWp(want, s.wp))
    case ConsLoadRp => DoConsLoadRp(s)
    case ConsCopy(i) => DoConsCopy(s, i)
    case ConsPublish => DoConsPublish(s)
    case FlushLoad => s.(cons := CFlushing(s.wp))
    case FlushStore => DoFlushStore(s)
  }

  /** The caller's buffer after a complete copy out of the ring. */
  function Received(c: Consumer): seq<byte>
    requires c.CCopying? && forall i | 0 <= i < c.n :: i in c.got
  {
    seq(c.n, i requires 0 <= i < c.n => c.got[i])
  }

  ghost predicate Init(s: State) {
    WellFormed(s) && s.wp == 0 && s.rp == 0 && s.prod == PIdle && s.cons == CIdle
    && s.published == [] && s.taken == []
  }

  ghost predicate Legal(s: State, run: seq<Step>)
    decreases |run|
  {
    run == [] || (Enabled(s, run[0]) && Legal(Apply(s, run[0]), run[1..]))
  }

  ghost function Exec(s: State, run: seq<Step>): State
    requires Legal(s, run)
    decreases |run|
  {
    if run == [] then s else Exec(Apply(s, run[0]), run[1..])
  }

  function Flat(taken: seq<Segment>): seq<byte> {
    if taken == [] then [] else Flat(taken[..|taken|-1]) + taken[|taken|-1].bytes
  }

  function DeliveredBytes(taken: seq<Segment>): seq<byte> {
    if taken == [] then []
    else
      var last := taken[|taken|-1];
      DeliveredBytes(taken[..|taken|-1]) + (if last.Delivered? then last.bytes else [])
  }

  ghost function Unread(s: State): seq<byte>
    requires WellFormed(s)
  {
    Window(s.buf, s.rp, Dist(s.rp, s.wp, |s.buf|))
  }

  /** The producer writes only free slots and has already filled the ones it need not fill again. */
  ghost predicate ProducerOk(s: State)
    requires WellFormed(s)
  {
    var size := |s.buf|;
    match s.prod
    case PIdle => true
    case PLoadedWp(data, wp) => wp == s.wp
    case PCopying(data, n, done) =>
      && n <= |data| && Dist(s.rp, s.wp, size) + n < size
      && (forall i | i in done :: i < n && s.buf[Slot(s.wp, i, size)] == data[i])
  }

  /** The consumer reads only unread slots, and what it copied is what is still there. */
  ghost predicate ConsumerOk(s: State)
    requires WellFormed(s)
  {
    var size := |s.buf|;
    && (s.cons.CLoadedWp? || s.cons.CFlushing? ==>
          s.cons.wp < size && Dist(s.rp, s.cons.wp, size) <= Dist(s.rp, s.wp, size))
    && (s.cons.CCopying? ==> s.cons.n <= Dist(s.rp, s.wp, size))
    && (s.cons.CCopying? ==>
          forall i | i in s.cons.got :: i < s.cons.n && s.cons.got[i] == s.buf[Slot(s.rp, i, size)])
  }

  ghost predicate Inv(s: State) {
    && WellFormed(s)
    && s.published == Flat(s.taken) + Unread(s)
    && ProducerOk(s)
    && ConsumerOk(s)
  }

  lemma MaskedPosition(s: State, x: int)
    requires WellFormed(s) && 0 < x + |s.buf| && x < 2 * |s.buf|
    ensures Masked(x, |s.buf| - 1) == Wrap(x, |s.buf|)
  {
    MaskedIsWrap(x, |s.buf|);
  }

  lemma FlatSnoc(taken: seq<Segment>, seg: Segment)
    ensures Flat(taken + [seg]) == Flat(taken) + seg.bytes
    ensures DeliveredBytes(taken + [seg]) == DeliveredBytes(taken) + (if seg.Delivered? then seg.bytes else [])
  {
    assert (taken + [seg])[..|taken|] == taken;
  }

  lemma ProdLoadRpOk(s: State)
    requires Inv(s) && s.prod.PLoadedWp?
    ensures Inv(DoProdLoadRp(s))
  {
    MaskedPosition(s, s.wp - s.rp);
  }

  /** Distinct places of one turn are distinct slots; the free ones follow the unread ones. */
  lemma FreeSlotIsNotUnread(rp: nat, wp: nat, size: nat, free: nat, held: nat)
    requires rp < size && wp < size && held < Dist(rp, wp, size) && Dist(rp, wp, size) + free < size
    ensures Slot(rp, held, size) != Slot(wp, free, size)
  {
  }

  lemma ProdCopyOk(s: State, i: nat)
    requires Inv(s) && Enabled(s, ProdCopy(i))
    ensures Inv(DoProdCopy(s, i)) && Unread(DoProdCopy(s, i)) == Unread(s)
  {
    var t, size := DoProdCopy(s, i), |s.buf|;
    forall k | 0 <= k < Dist(s.rp, s.wp, size)
      ensures t.buf[Slot(s.rp, k, size)] == s.buf[Slot(s.rp, k, size)]
    {
      FreeSlotIsNotUnread(s.rp, s.wp, size, i, k);
    }
    assert Unread(t) == Unread(s);
    assert ProducerOk(t);
    assert ConsumerOk(t);
  }

  /** Moving the write position n places on, over filled slots, adds their bytes to the unread ones. */
  lemma AdvanceWritePos(s: State, xs: seq<byte>, t: State)
    requires WellFormed(s) && ConsumerOk(s) && Dist(s.rp, s.wp, |s.buf|) + |xs| < |s.buf|
    requires forall i | 0 <= i < |xs| :: s.buf[Slot(s.wp, i, |s.buf|)] == xs[i]
    requires t == s.(wp := Slot(s.wp, |xs|, |s.buf|), prod := PIdle, published := s.published + xs)
    ensures Unread(t) == Unread(s) + xs && ConsumerOk(t)
  {
    WindowAppend(s.buf, s.buf, s.rp, s.wp, xs);
  }

  lemma ProdPublishOk(s: State)
    requires Inv(s) && Enabled(s, ProdPublish)
    ensures Inv(DoProdPublish(s)) && Unread(DoProdPublish(s)) == Unread(s) + s.prod.data[..s.prod.n]
  {
    var t, xs := DoProdPublish(s), s.prod.data[..s.prod.n];
    assert t.wp == Slot(s.wp, |xs|, |s.buf|) by { MaskedPosition(s, s.wp + s.prod.n); }
    AdvanceWritePos(s, xs, t);
    assert Flat(t.taken) + (Unread(s) + xs) == (Flat(s.taken) + Unread(s)) + xs;
  }

  lemma ConsLoadRpOk(s: State)
    requires Inv(s) && s.cons.CLoadedWp?
    ensures Inv(DoConsLoadRp(s))
  {
    MaskedPosition(s, s.cons.wp - s.rp);
  }

  /** Moving the read position k places on takes the first k unread bytes. */
  lemma AdvanceReadPos(s: State, k: nat, seg: Segment, t: State)
    requires Inv(s) && k <= Dist(s.rp, s.wp, |s.buf|)
    requires seg.bytes == Window(s.buf, s.rp, k)
    requires t == s.(rp := Slot(s.rp, k, |s.buf|), cons := CIdle, taken := s.taken + [seg])
    ensures Inv(t) && Unread(s) == seg.bytes + Unread(t)
  {
    hide Flat, Window, IsPow2;
    WindowSplit(s.buf, s.rp, Dist(s.rp, s.wp, |s.buf|), k);
    DistShrinks(s.rp, s.wp, k, |s.buf|);
    FlatSnoc(s.taken, seg);
    Assoc(Flat(s.taken), seg.bytes, Unread(t));
  }

  lemma ConsPublishOk(s: State)
    requires Inv(s) && Enabled(s, ConsPublish)
    ensures Inv(DoConsPublish(s)) && Unread(s) == Received(s.cons) + Unread(DoConsPublish(s))
  {
    assert DoConsPublish(s).rp == Slot(s.rp, s.cons.n, |s.buf|) by { MaskedPosition(s, s.rp + s.cons.n); }
    assert Received(s.cons) == Window(s.buf, s.rp, s.cons.n);
    AdvanceReadPos(s, s.cons.n, Delivered(Received(s.cons)), DoConsPublish(s));
  }

  lemma FlushStoreOk(s: State)
    requires Inv(s) && Enabled(s, FlushStore)
    ensures Inv(DoFlushStore(s))
    ensures Unread(s) == Window(s.buf, s.rp, Dist(s.rp, s.cons.wp, |s.buf|)) + Unread(DoFlushStore(s))
  {
    var k := Dist(s.rp, s.cons.wp, |s.buf|);
    AdvanceReadPos(s, k, Discarded(Window(s.buf, s.rp, k)), DoFlushStore(s));
  }

  /** Each step of either side, at any moment of the other side, keeps the invariant. */
  lemma InvStep(s: State, step: Step)
    requires Inv(s) && Enabled(s, step)
    ensures Inv(Apply(s, step))
  {
    match step
    case ProdLoadWp(_) =>
    case ProdLoadRp => ProdLoadRpOk(s);
    case ProdCopy(i) => ProdCopyOk(s, i);
    case ProdPublish => ProdPublishOk(s);
    case ConsLoadWp(_) =>
    case ConsLoadRp => ConsLoadRpOk(s);
    case ConsCopy(_) =>
    case ConsPublish => ConsPublishOk(s);
    case FlushLoad =>
    case FlushStore => FlushStoreOk(s);
  }

  lemma {:induction false} InvRun(s: State, run: seq<Step>)
    requires Inv(s) && Legal(s, run)
    ensures Inv(Exec(s, run))
    decreases |run|
  {
    if run != [] {
      InvStep(s, run[0]);
      InvRun(Apply(s, run[0]), run[1..]);
    }
  }

  /** s to t is, on the unread bytes and the history, one operation of a FIFO or nothing. */
  ghost predicate FifoStep(s: State, t: State, step: Step)
    requires Enabled(s, step) && WellFormed(t)
  {
    match step
    case ProdPublish =>
      && Unread(t) == Unread(s) + s.prod.data[..s.prod.n]
      && t.published == s.published + s.prod.data[..s.prod.n] && t.taken == s.taken
    case ConsPublish =>
      && s.cons.n <= |Unread(s)| && Unread(t) == Unread(s)[s.cons.n..]
      && t.taken == s.taken + [Delivered(Unread(s)[..s.cons.n])] && t.published == s.published
    case FlushStore =>
      var k := Dist(s.rp, s.cons.wp, |s.buf|);
      && k <= |Unread(s)| && Unread(t) == Unread(s)[k..]
      && t.taken == s.taken + [Discarded(Unread(s)[..k])] && t.published == s.published
    case _ => Unread(t) == Unread(s) && t.taken == s.taken && t.published == s.published
  }

  /** A step that publishes no position changes neither the unread bytes nor the history. */
  lemma QuietStep(s: State, step: Step)
    requires Inv(s) && Enabled(s, step) && !step.ProdPublish? && !step.ConsPublish? && !step.FlushStore?
    ensures var t := Apply(s, step);
            WellFormed(t) && Unread(t) == Unread(s) && t.taken == s.taken && t.published == s.published
  {
    hide Flat, Masked, IsPow2;
    match step
    case ProdCopy(i) => ProdCopyOk(s, i);
    case _ =>
  }

  /** Every step refines a FIFO: append, take a prefix, discard a prefix, or no change. */
  lemma StepRefinesFifo(s: State, step: Step)
    requires Inv(s) && Enabled(s, step)
    ensures WellFormed(Apply(s, step)) && FifoStep(s, Apply(s, step), step)
  {
    InvStep(s, step);
    match step
    case ProdPublish => ProdPublishOk(s);
    case ConsPublish =>
      ConsPublishOk(s);
      hide Unread, Flat, ProducerOk, Masked;
    case FlushStore =>
      FlushStoreOk(s);
      hide Unread, Flat, ProducerOk, Masked;
    case _ => QuietStep(s, step);
  }

  /**
   The lock-free theorem: after every interleaving, what the consumer's position passed over
   is a prefix of what was published, and while nothing was flushed the consumer has received
   exactly that prefix.
   */
  lemma ConsumerSeesPublishedPrefix(s: State, run: seq<Step>)
    requires Init(s) && Legal(s, run)
    ensures var t := Exec(s, run);
            && IsPrefix(Flat(t.taken), t.published)
            && ((forall seg | seg in t.taken :: seg.Delivered?) ==> IsPrefix(DeliveredBytes(t.taken), t.published))
  {
    assert Unread(s) == [];
    InvRun(s, run);
    var t := Exec(s, run);
    if forall seg | seg in t.taken :: seg.Delivered? {
      AllDelivered(t.taken);
    }
  }

  lemma {:induction false} AllDelivered(taken: seq<Segment>)
    requires forall seg | seg in taken :: seg.Delivered?
    ensures DeliveredBytes(taken) == Flat(taken)
  {
    if taken != [] {
      AllDelivered(taken[..|taken|-1]);
    }
  }

  /** A slot the producer may be storing to: one of the n it is copying into. */
  ghost predicate Written(s: State, slot: nat)
    requires WellFormed(s)
  {
    s.prod.PCopying? && exists i :: 0 <= i < s.prod.n && i < |s.buf| && slot == Slot(s.wp, i, |s.buf|)
  }

  /** A slot the consumer may be loading from. */
  ghost predicate Read(s: State, slot: nat)
    requires WellFormed(s)
  {
    s.cons.CCopying? && exists i :: 0 <= i < s.cons.n && i < |s.buf| && slot == Slot(s.rp, i, |s.buf|)
  }

  /** A slot between the published positions. */
  ghost predicate Holding(s: State, slot: nat)
    requires WellFormed(s)
  {
    exists i :: 0 <= i < Dist(s.rp, s.wp, |s.buf|) && slot == Slot(s.rp, i, |s.buf|)
  }

  /** In every interleaving, no slot being written holds an unread byte, and every slot being read does. */
  lemma NoOverlap(s: State, run: seq<Step>, slot: nat)
    requires Init(s) && Legal(s, run)
    ensures var t := Exec(s, run);
            && WellFormed(t)
            && !(Written(t, slot) && Holding(t, slot))
            && (Read(t, slot) ==> Holding(t, slot))
  {
    assert Unread(s) == [];
    InvRun(s, run);
    var t := Exec(s, run);
    if Written(t, slot) && Holding(t, slot) {
      var i, k :| 0 <= i < t.prod.n && i < |t.buf| && slot == Slot(t.wp, i, |t.buf|)
                  && 0 <= k < Dist(t.rp, t.wp, |t.buf|) && slot == Slot(t.rp, k, |t.buf|);
      FreeSlotIsNotUnread(t.rp, t.wp, |t.buf|, i, k);
    }
  }

  /**
   Stale positions: whatever happened since a side loaded the other side's position, the
   producer's claimed space is really free and the consumer's view never exceeds the data.
   */
  lemma StalePositionsUnderestimate(s: State, run: seq<Step>)
    requires Init(s) && Legal(s, run)
    ensures var t := Exec(s, run);
            && WellFormed(t)
            && (t.prod.PCopying? ==> t.prod.n <= |t.buf| - 1 - |Unread(t)|)
            && (t.cons.CLoadedWp? ==> Masked(t.cons.wp - t.rp, |t.buf| - 1) <= |Unread(t)|)
            && (t.cons.CCopying? ==> t.cons.n <= |Unread(t)|)
  {
    assert Unread(s) == [];
    InvRun(s, run);
    StaleOk(Exec(s, run));
  }

  lemma StaleOk(t: State)
    requires Inv(t)
    ensures WellFormed(t)
    ensures t.prod.PCopying? ==> t.prod.n <= |t.buf| - 1 - |Unread(t)|
    ensures t.cons.CLoadedWp? ==> Masked(t.cons.wp - t.rp, |t.buf| - 1) <= |Unread(t)|
    ensures t.cons.CCopying? ==> t.cons.n <= |Unread(t)|
  {
    if t.cons.CLoadedWp? {
      MaskedPosition(t, t.cons.wp - t.rp);
    }
  }

  /* --------------------------------------------------- each side claims all it can */

  /** A write claims all the room there is at its second load, or as much as it has bytes. */
  lemma WriteClaimsRoom(s: State)
    requires Inv(s) && s.prod.PLoadedWp?
    ensures var t, n := DoProdLoadRp(s), Min(|s.prod.data|, |s.buf| - 1 - |Unread(s)|);
            t == s.(prod := if n == 0 then PIdle else PCopying(s.prod.data, n, {}))
  {
    MaskedPosition(s, s.wp - s.rp);
  }

  predicate ByProducer(step: Step) {
    step.ProdLoadWp? || step.ProdLoadRp? || step.ProdCopy? || step.ProdPublish?
  }

  /** While only the producer moves, the consumer stays where it is and what was unread stays first. */
  lemma {:induction false} ProducerRun(s: State, run: seq<Step>)
    requires Inv(s) && Legal(s, run) && forall step | step in run :: ByProducer(step)
    ensures var t := Exec(s, run);
            Inv(t) && t.cons == s.cons && t.rp == s.rp && |t.buf| == |s.buf| && t.taken == s.taken
            && Unread(s) <= Unread(t)
    decreases |run|
  {
    if run != [] {
      assert run[0] in run;
      ProducerStep(s, run[0]);
      hide Inv, Apply, Enabled, Unread;
      ProducerRun(Apply(s, run[0]), run[1..]);
    }
  }

  lemma ProducerStep(s: State, step: Step)
    requires Inv(s) && Enabled(s, step) && ByProducer(step)
    ensures var t := Apply(s, step);
            Inv(t) && t.cons == s.cons && t.rp == s.rp && |t.buf| == |s.buf| && t.taken == s.taken
            && Unread(s) <= Unread(t)
  {
    InvStep(s, step);
    StepRefinesFifo(s, step);
    hide Unread, Flat, ProducerOk, ConsumerOk, Masked;
  }

  /**
   A read, with any steps of the producer between its two loads, claims all that was unread when
   it began, or as much as it wants.
   */
  lemma ReadClaimsWhatWasThere(s: State, want: nat, run: seq<Step>)
    requires Inv(s) && s.cons.CIdle? && Legal(Apply(s, ConsLoadWp(want)), run)
    requires forall step | step in run :: ByProducer(step)
    ensures var t := Exec(Apply(s, ConsLoadWp(want)), run);
            var n := Min(want, |Unread(s)|);
            && Enabled(t, ConsLoadRp)
            && Apply(t, ConsLoadRp) == t.(cons := if n == 0 then CIdle else CCopying(n, map[]))
  {
    var s1 := Apply(s, ConsLoadWp(want));
    InvStep(s, ConsLoadWp(want));
    ProducerRun(s1, run);
    hide Inv, DoConsLoadRp, Legal, Exec;
    ReadClaims(Exec(s1, run));
    assert |Unread(s)| == Dist(s.rp, s.wp, |s.buf|);
  }

  lemma ReadClaims(t: State)
    requires Inv(t) && t.cons.CLoadedWp?
    ensures t.rp < |t.buf| && t.cons.wp < |t.buf|
    ensures var n := Min(t.cons.want, Dist(t.rp, t.cons.wp, |t.buf|));
            DoConsLoadRp(t) == t.(cons := if n == 0 then CIdle else CCopying(n, map[]))
  {
    MaskedPosition(t, t.cons.wp - t.rp);
  }

  /** A flush, with any steps of the producer between its two accesses, discards all that was unread when it began. */
  lemma FlushDiscardsWhatWasThere(s: State, run: seq<Step>)
    requires Inv(s) && s.cons.CIdle? && Legal(Apply(s, FlushLoad), run) && forall step | step in run :: ByProducer(step)
    ensures var t := Exec(Apply(s, FlushLoad), run);
            && Enabled(t, FlushStore)
            && Apply(t, FlushStore).taken == s.taken + [Discarded(Unread(s))]
            && Apply(t, FlushStore).rp == s.wp
  {
    var s1 := Apply(s, FlushLoad);
    InvStep(s, FlushLoad);
    ProducerRun(s1, run);
    var t := Exec(s1, run);
    FlushStoreOk(t);
    var bytes := Window(t.buf, t.rp, Dist(t.rp, s.wp, |t.buf|));
    assert |bytes| == |Unread(s)| == |Unread(s1)|;
    hide Inv, Window, Flat;
    assert bytes == Unread(t)[..|bytes|];
    assert bytes == Unread(s1) == Unread(s);
    assert Apply(t, FlushStore).taken == t.taken + [Discarded(bytes)];
  }

  /* ------------------------------------------------- a flush from outside the consumer */

  /** GcomRingFlush run by somebody else, in the middle of whatever the consumer does. */
  ghost function ForeignFlush(s: State): State
    requires WellFormed(s)
  {
    s.(rp := s.wp, taken := s.taken + [Discarded(Unread(s))])
  }

  /** What was passed over is a prefix of what was published, whatever happens from here on. */
  ghost predicate KeepsPrefix(s: State) {
    forall run | Legal(s, run) :: IsPrefix(Flat(Exec(s, run).taken), Exec(s, run).published)
  }

  /** The consumer has claimed one byte or more by the positions it loaded, and not yet published them. */
  ghost predicate Claims(s: State)
    requires WellFormed(s)
  {
    match s.cons
    case CIdle => false
    case CLoadedWp(want, wp) => want > 0 && wp != s.wp
    case CCopying(n, _) => n > 0
    case CFlushing(wp) => wp != s.wp
  }

  lemma SamePlace(wp: nat, pos: nat, size: nat)
    requires wp < size && pos < size
    ensures Dist(wp, wp, size) == 0 && (Dist(wp, pos, size) == 0 <==> pos == wp)
  {
  }

  /** The producer's claim only gains room. */
  lemma ForeignFlushRoom(s: State)
    requires WellFormed(s) && ProducerOk(s)
    ensures WellFormed(ForeignFlush(s)) && ProducerOk(ForeignFlush(s))
  {
    SamePlace(s.wp, s.wp, |s.buf|);
  }

  lemma ForeignFlushCounts(s: State)
    requires Inv(s)
    ensures WellFormed(ForeignFlush(s)) && Unread(ForeignFlush(s)) == []
    ensures ForeignFlush(s).published == s.published == Flat(ForeignFlush(s).taken)
  {
    SamePlace(s.wp, s.wp, |s.buf|);
    FlatSnoc(s.taken, Discarded(Unread(s)));
  }

  /* ------------------------------------------------------ no claim: nothing is lost */

  /** A consumer that wants nothing takes nothing, whichever write position it loaded. */
  ghost predicate SameBut(u: State, v: State) {
    && v == u.(cons := v.cons)
    && (u.cons == v.cons
        || (u.cons.CLoadedWp? && v.cons.CLoadedWp? && u.cons.want == v.cons.want == 0))
  }

  lemma SameButStep(u: State, v: State, step: Step)
    requires SameBut(u, v) && Enabled(u, step)
    ensures Enabled(v, step) && SameBut(Apply(u, step), Apply(v, step))
  {
  }

  lemma {:induction false} SameButRun(u: State, v: State, run: seq<Step>)
    requires SameBut(u, v) && Legal(u, run)
    ensures Legal(v, run) && SameBut(Exec(u, run), Exec(v, run))
    decreases |run|
  {
    if run != [] {
      hide Enabled, SameBut, Apply;
      SameButStep(u, v, run[0]);
      SameButRun(Apply(u, run[0]), Apply(v, run[0]), run[1..]);
    }
  }

  /** The flushed state with a consumer that cannot be told from the real one and claims nothing. */
  ghost function Calmed(s: State): State
    requires WellFormed(s)
  {
    var t := ForeignFlush(s);
    match s.cons
    case CLoadedWp(want, _) => t.(cons := CLoadedWp(want, s.wp))
    case _ => t
  }

  lemma CalmedInv(s: State)
    requires Inv(s) && !Claims(s)
    ensures Inv(Calmed(s)) && SameBut(ForeignFlush(s), Calmed(s))
  {
    ForeignFlushCounts(s);
    ForeignFlushRoom(s);
    SamePlace(s.wp, s.wp, |s.buf|);
    var t := Calmed(s);
    assert Unread(t) == [];
    assert Flat(t.taken) + [] == Flat(t.taken);
    if s.cons.CCopying? {
      assert forall i :: i !in s.cons.got;
    }
  }

  lemma NoClaimKeepsPrefix(s: State)
    requires WellFormed(s) && Inv(s) && !Claims(s)
    ensures KeepsPrefix(ForeignFlush(s))
  {
    hide Inv, Legal, Exec, Claims;
    CalmedInv(s);
    forall run | Legal(ForeignFlush(s), run)
      ensures IsPrefix(Flat(Exec(ForeignFlush(s), run).taken), Exec(ForeignFlush(s), run).published)
    {
      SameButRun(ForeignFlush(s), Calmed(s), run);
      InvRun(Calmed(s), run);
      PublishedFirst(Exec(Calmed(s), run));
    }
  }

  lemma PublishedFirst(s: State)
    requires Inv(s)
    ensures IsPrefix(Flat(s.taken), s.published)
  {
  }

  /* ----------------------------------------------------- a claim: bytes are taken twice */

  lemma Cons(s: State, step: Step, rest: seq<Step>)
    requires Enabled(s, step) && Legal(Apply(s, step), rest)
    ensures Legal(s, [step] + rest) && Exec(s, [step] + rest) == Exec(Apply(s, step), rest)
  {
    assert ([step] + rest)[1..] == rest;
  }

  lemma Nil(s: State)
    ensures Legal(s, []) && Exec(s, []) == s
  {
  }

  /** Nothing is unread, and the consumer copies n bytes all the same. */
  ghost predicate CopiesNothing(s: State) {
    && WellFormed(s) && Flat(s.taken) == s.published && s.cons.CCopying? && 0 < s.cons.n < |s.buf|
    && forall i | i in s.cons.got :: i < s.cons.n
  }

  /** Publishing such a copy, or flushing such a range, takes more than was published. */
  lemma TakesTooMuch(s: State, step: Step, seg: Segment)
    requires Enabled(s, step) && Flat(s.taken) == s.published && |seg.bytes| > 0
    requires Apply(s, step).taken == s.taken + [seg] && Apply(s, step).published == s.published
    ensures Legal(s, [step] + [])
    ensures var t := Exec(s, [step] + []); !IsPrefix(Flat(t.taken), t.published)
  {
    FlatSnoc(s.taken, seg);
    Nil(Apply(s, step));
    Cons(s, step, []);
  }

  lemma {:induction false} FinishCopy(s: State, i: nat) returns (run: seq<Step>)
    requires CopiesNothing(s) && i <= s.cons.n && forall k | 0 <= k < i :: k in s.cons.got
    ensures Legal(s, run)
    ensures var t := Exec(s, run); !IsPrefix(Flat(t.taken), t.published)
    decreases s.cons.n - i
  {
    if i == s.cons.n {
      TakesTooMuch(s, ConsPublish, Delivered(Received(s.cons)));
      run := [ConsPublish] + [];
    } else if i in s.cons.got {
      run := FinishCopy(s, i + 1);
    } else {
      var t := Apply(s, ConsCopy(i));
      var rest := FinishCopy(t, i + 1);
      Cons(s, ConsCopy(i), rest);
      run := [ConsCopy(i)] + rest;
    }
  }

  /** Nothing is unread, yet the consumer loaded another write position: its next load makes it copy. */
  lemma LoadClaims(t: State)
    requires WellFormed(t) && Flat(t.taken) == t.published && t.cons.CLoadedWp?
    requires t.cons.want > 0 && t.cons.wp < |t.buf| && t.cons.wp != t.rp
    ensures CopiesNothing(DoConsLoadRp(t))
  {
    hide Flat, IsPow2, Masked;
    SamePlace(t.rp, t.cons.wp, |t.buf|);
    MaskedPosition(t, t.cons.wp - t.rp);
  }

  lemma LoadBreaks(t: State) returns (run: seq<Step>)
    requires WellFormed(t) && Flat(t.taken) == t.published && t.cons.CLoadedWp?
    requires t.cons.want > 0 && t.cons.wp < |t.buf| && t.cons.wp != t.rp
    ensures Legal(t, run)
    ensures var u := Exec(t, run); !IsPrefix(Flat(u.taken), u.published)
  {
    LoadClaims(t);
    hide DoConsLoadRp, CopiesNothing, Legal, Exec, Flat;
    var rest := FinishCopy(DoConsLoadRp(t), 0);
    Cons(t, ConsLoadRp, rest);
    run := [ConsLoadRp] + rest;
  }

  lemma FlushBreaks(t: State) returns (run: seq<Step>)
    requires WellFormed(t) && Flat(t.taken) == t.published && t.cons.CFlushing?
    requires t.cons.wp < |t.buf| && t.cons.wp != t.rp
    ensures Legal(t, run)
    ensures var u := Exec(t, run); !IsPrefix(Flat(u.taken), u.published)
  {
    hide Legal, Exec, Flat, IsPow2;
    SamePlace(t.rp, t.cons.wp, |t.buf|);
    TakesTooMuch(t, FlushStore, Discarded(Window(t.buf, t.rp, Dist(t.rp, t.cons.wp, |t.buf|))));
    run := [FlushStore] + [];
  }

  /** A claim on one byte or more, as it stands after a foreign flush. */
  lemma ClaimAfterFlush(s: State)
    requires Inv(s) && Claims(s)
    ensures WellFormed(ForeignFlush(s))
    ensures var t := ForeignFlush(s);
            && Flat(t.taken) == t.published && t.cons == s.cons && !s.cons.CIdle?
            && (s.cons.CCopying? ==> CopiesNothing(t))
            && (s.cons.CLoadedWp? ==> s.cons.want > 0 && s.cons.wp < |t.buf| && s.cons.wp != t.rp)
            && (s.cons.CFlushing? ==> s.cons.wp < |t.buf| && s.cons.wp != t.rp)
  {
    ForeignFlushCounts(s);
    hide Flat, Unread, IsPow2, ProducerOk;
  }

  lemma ClaimBreaks(s: State) returns (run: seq<Step>)
    requires WellFormed(s) && Inv(s) && Claims(s)
    ensures WellFormed(ForeignFlush(s)) && Legal(ForeignFlush(s), run)
    ensures var t := Exec(ForeignFlush(s), run); !IsPrefix(Flat(t.taken), t.published)
  {
    ClaimAfterFlush(s);
    hide Inv, Claims, Flat, ForeignFlush, Legal, Exec, CopiesNothing;
    var t := ForeignFlush(s);
    if s.cons.CCopying? {
      assert CopiesNothing(t);
      run := CopyBreaks(t);
    } else if s.cons.CLoadedWp? {
      run := LoadBreaks(t);
    } else {
      run := FlushBreaks(t);
    }
  }

  lemma CopyBreaks(t: State) returns (run: seq<Step>)
    requires CopiesNothing(t)
    ensures Legal(t, run)
    ensures var u := Exec(t, run); !IsPrefix(Flat(u.taken), u.published)
  {
    run := FinishCopy(t, 0);
  }

  /**
   Only the consumer may flush: after a flush by anybody else every continuation still has
   passed over a prefix of what was published exactly when the consumer held no claim on one
   byte or more at that moment.
   */
  lemma ForeignFlushIff(s: State)
    requires Inv(s)
    ensures WellFormed(ForeignFlush(s)) && (KeepsPrefix(ForeignFlush(s)) <==> !Claims(s))
  {
    ForeignFlushCounts(s);
    if Claims(s) {
      var run := ClaimBreaks(s);
    } else {
      NoClaimKeepsPrefix(s);
    }
  }

  /* --------------------------------------------------- and such a moment is reached */

  /** One byte is written, and a consumer has decided to copy it. */
  const CLAIMING: seq<Step> := [ProdLoadWp([7]), ProdLoadRp, ProdCopy(0), ProdPublish, ConsLoadWp(1), ConsLoadRp]

  /** The states of that run. */
  ghost function Stage(s: State, k: nat): State
    requires Init(s) && |s.buf| >= 2
  {
    var t := s.(buf := s.buf[0 := 7]);
    match k
    case 0 => s
    case 1 => s.(prod := PLoadedWp([7], 0))
    case 2 => s.(prod := PCopying([7], 1, {}))
    case 3 => t.(prod := PCopying([7], 1, {0}))
    case 4 => t.(wp := 1, published := [7])
    case 5 => t.(wp := 1, published := [7], cons := CLoadedWp(1, 1))
    case _ => t.(wp := 1, published := [7], cons := CCopying(1, map[]))
  }

  lemma StageStep(s: State, k: nat)
    requires Init(s) && |s.buf| >= 2 && k < 6
    ensures Enabled(Stage(s, k), CLAIMING[k]) && Apply(Stage(s, k), CLAIMING[k]) == Stage(s, k + 1)
  {
    MaskedPosition(s, 0);
    MaskedPosition(s, 1);
    assert CLAIMING[0] == ProdLoadWp([7]) && CLAIMING[3] == ProdPublish && CLAIMING[5] == ConsLoadRp;
    assert [7][..1] == [7 as byte] && [] + [7 as byte] == [7];
    assert {} + {0} == {0 as nat};
  }

  lemma {:induction false} StageRun(s: State, k: nat)
    requires Init(s) && |s.buf| >= 2 && k <= 6
    ensures Legal(Stage(s, k), CLAIMING[k..]) && Exec(Stage(s, k), CLAIMING[k..]) == Stage(s, 6)
    decreases 6 - k
  {
    hide Enabled, Apply, Stage, Init;
    if k == 6 {
      Nil(Stage(s, k));
    } else {
      StageStep(s, k);
      StageRun(s, k + 1);
      Cons(Stage(s, k), CLAIMING[k], CLAIMING[k + 1..]);
      assert CLAIMING[k..] == [CLAIMING[k]] + CLAIMING[k + 1..];
    }
  }

  /** From every fresh ring of two bytes or more a run reaches a moment at which a foreign flush breaks it. */
  lemma ForeignFlushBreaks(s: State)
    requires Init(s) && |s.buf| >= 2
    ensures Legal(s, CLAIMING)
    ensures var t := Exec(s, CLAIMING); WellFormed(t) && Claims(t) && !KeepsPrefix(ForeignFlush(t))
  {
    StageRun(s, 0);
    assert CLAIMING[0..] == CLAIMING && Stage(s, 0) == s;
    assert Claims(Stage(s, 6));
    assert Unread(s) == [];
    hide Legal, Exec, Enabled, Apply, Inv, Stage, KeepsPrefix;
    InvRun(s, CLAIMING);
    ForeignFlushIff(Exec(s, CLAIMING));
  }
}
