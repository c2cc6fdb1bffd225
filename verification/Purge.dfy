/** IOCTL_SERIAL_PURGE over both directions of a pair, and when it breaks the pending-queue invariant. */
module Purge {
  import opened Prelude
  import opened DataPath
  import opened DataPathRuns
  import opened PathOutcomes

  /** ComToCompanion with its COM writes and companion reads; CompanionToCom the other way. */
  datatype Pair = Pair(comToComp: Path, compToCom: Path)

  datatype Flags = Flags(txAbort: bool, rxAbort: bool, txClear: bool, rxClear: bool)

  /** A step of one direction of the pair. */
  datatype PairStep = Transmit(step: Step) | Receive(step: Step)

  ghost predicate PairEnabled(pair: Pair, s: PairStep) {
    match s
    case Transmit(step) => Enabled(pair.comToComp, step)
    case Receive(step) => Enabled(pair.compToCom, step)
  }

  function ApplyPair(pair: Pair, s: PairStep): Pair {
    match s
    case Transmit(step) => pair.(comToComp := Apply(pair.comToComp, step))
    case Receive(step) => pair.(compToCom := Apply(pair.compToCom, step))
  }

  ghost predicate PairLegal(pair: Pair, run: seq<PairStep>)
    decreases |run|
  {
    run == [] || (PairEnabled(pair, run[0]) && PairLegal(ApplyPair(pair, run[0]), run[1..]))
  }

  function ExecPair(pair: Pair, run: seq<PairStep>): Pair
    decreases |run|
  {
    if run == [] then pair else ExecPair(ApplyPair(pair, run[0]), run[1..])
  }

  /* The sections of the handler. Only the flushes hold DataLock; the queues are purged without it. */

  function AbortTransmit(pair: Pair, flags: Flags): Pair {
    if flags.txAbort then ApplyPair(pair, Transmit(AbortWrites)) else pair
  }

  function AbortReceive(pair: Pair, flags: Flags): Pair {
    if flags.rxAbort then ApplyPair(pair, Receive(AbortReads)) else pair
  }

  function Flush(pair: Pair, flags: Flags): Pair {
    var p := if flags.txClear then ApplyPair(pair, Transmit(Clear)) else pair;
    if flags.rxClear then ApplyPair(p, Receive(Clear)) else p
  }

  /** What other handlers do between the two aborts, and between them and the flush. */
  ghost predicate WindowsLegal(pair: Pair, flags: Flags, first: seq<PairStep>, second: seq<PairStep>) {
    var p := AbortTransmit(pair, flags);
    PairLegal(p, first) && PairLegal(AbortReceive(ExecPair(p, first), flags), second)
  }

  function BeforeFlush(pair: Pair, flags: Flags, first: seq<PairStep>, second: seq<PairStep>): Pair {
    ExecPair(AbortReceive(ExecPair(AbortTransmit(pair, flags), first), flags), second)
  }

  /** IOCTL_SERIAL_PURGE among whatever else happens meanwhile. */
  function PurgeIoctl(pair: Pair, flags: Flags, first: seq<PairStep>, second: seq<PairStep>): Pair {
    Flush(BeforeFlush(pair, flags, first, second), flags)
  }

  ghost predicate PairInv(pair: Pair) {
    Inv(pair.comToComp) && Inv(pair.compToCom)
  }

  predicate WritersWaitOnFullRings(pair: Pair) {
    WritersWaitOnFull(pair.comToComp) && WritersWaitOnFull(pair.compToCom)
  }

  predicate Usable(pair: Pair) {
    pair.comToComp.cap >= 1 && pair.compToCom.cap >= 1
  }

  /* ------------------------------------------------------------- each direction on its own */

  function TransmitPart(run: seq<PairStep>): seq<Step> {
    if run == [] then []
    else (if run[0].Transmit? then [run[0].step] else []) + TransmitPart(run[1..])
  }

  function ReceivePart(run: seq<PairStep>): seq<Step> {
    if run == [] then []
    else (if run[0].Receive? then [run[0].step] else []) + ReceivePart(run[1..])
  }

  lemma ConsRun(p: Path, step: Step, rest: seq<Step>)
    ensures Exec(p, [step] + rest) == Exec(Apply(p, step), rest)
    ensures Legal(p, [step] + rest) <==> Enabled(p, step) && Legal(Apply(p, step), rest)
  {
    assert ([step] + rest)[1..] == rest;
  }

  /** The two directions of a pair do not affect each other. */
  lemma {:induction false} PairRunSplits(pair: Pair, run: seq<PairStep>)
    requires PairLegal(pair, run)
    ensures Legal(pair.comToComp, TransmitPart(run)) && Legal(pair.compToCom, ReceivePart(run))
    ensures ExecPair(pair, run) ==
            Pair(Exec(pair.comToComp, TransmitPart(run)), Exec(pair.compToCom, ReceivePart(run)))
    decreases |run|
  {
    if run != [] {
      hide Apply, Enabled, Exec, Legal;
      PairRunSplits(ApplyPair(pair, run[0]), run[1..]);
      if run[0].Transmit? {
        ConsRun(pair.comToComp, run[0].step, TransmitPart(run[1..]));
        assert [] + ReceivePart(run[1..]) == ReceivePart(run[1..]);
      } else {
        ConsRun(pair.compToCom, run[0].step, ReceivePart(run[1..]));
        assert [] + TransmitPart(run[1..]) == TransmitPart(run[1..]);
      }
    } else {
      assert Exec(pair.comToComp, []) == pair.comToComp && Exec(pair.compToCom, []) == pair.compToCom;
    }
  }

  lemma PairRunKeeps(pair: Pair, run: seq<PairStep>)
    requires PairInv(pair) && PairLegal(pair, run)
    ensures var t := ExecPair(pair, run);
            PairInv(t) && t.comToComp.cap == pair.comToComp.cap && t.compToCom.cap == pair.compToCom.cap
  {
    hide Inv, Legal, Exec, PairLegal, ExecPair;
    PairRunSplits(pair, run);
    InvRun(pair.comToComp, TransmitPart(run));
    InvRun(pair.compToCom, ReceivePart(run));
    CapNeverChanges(pair.comToComp, TransmitPart(run));
    CapNeverChanges(pair.compToCom, ReceivePart(run));
  }

  lemma AbortsKeep(pair: Pair, flags: Flags)
    requires PairInv(pair)
    ensures PairInv(AbortTransmit(pair, flags)) && PairInv(AbortReceive(pair, flags))
    ensures flags.txAbort ==> AbortTransmit(pair, flags).comToComp.writeQueue == []
  {
    hide Inv;
    StepKeeps(pair.comToComp, AbortWrites);
    StepKeeps(pair.compToCom, AbortReads);
    InactiveHasNoWrites(pair.comToComp);
  }

  lemma InactiveHasNoWrites(p: Path)
    requires Inv(p)
    ensures !p.active ==> p.writeQueue == []
  {
  }

  lemma ReachesFlush(pair: Pair, flags: Flags, first: seq<PairStep>, second: seq<PairStep>)
    requires PairInv(pair) && WindowsLegal(pair, flags, first, second)
    ensures var q := BeforeFlush(pair, flags, first, second);
            PairInv(q) && (Usable(pair) ==> Usable(q))
  {
    hide Inv, PairLegal, ExecPair;
    var p := AbortTransmit(pair, flags);
    AbortsKeep(pair, flags);
    PairRunKeeps(p, first);
    var m := ExecPair(p, first);
    AbortsKeep(m, flags);
    PairRunKeeps(AbortReceive(m, flags), second);
  }

  /** A clear leaves the direction keeping the full-ring rule exactly when no write is pended behind it. */
  lemma ClearKeepsFlowIff(p: Path)
    requires Inv(p) && p.cap >= 1
    ensures Inv(Apply(p, Clear)) && (WritersWaitOnFull(Apply(p, Clear)) <==> p.writeQueue == [])
  {
    ClearKeeps(p);
  }

  /**
   Exactly when a purge leaves writers waiting only on full rings, whatever other handlers do
   between its sections: at the flush no write is pended behind a ring it clears, and the rings
   it does not clear keep the rule. Every purge keeps the rest of the invariant.
   */
  lemma PurgeKeepsFlowIff(pair: Pair, flags: Flags, first: seq<PairStep>, second: seq<PairStep>)
    requires PairInv(pair) && Usable(pair) && WindowsLegal(pair, flags, first, second)
    ensures PairInv(PurgeIoctl(pair, flags, first, second))
    ensures var q := BeforeFlush(pair, flags, first, second);
            WritersWaitOnFullRings(PurgeIoctl(pair, flags, first, second))
            <==> (if flags.txClear then q.comToComp.writeQueue == [] else WritersWaitOnFull(q.comToComp))
                 && (if flags.rxClear then q.compToCom.writeQueue == [] else WritersWaitOnFull(q.compToCom))
  {
    hide Inv, BeforeFlush, WindowsLegal, Apply, WritersWaitOnFull;
    var q := BeforeFlush(pair, flags, first, second);
    ReachesFlush(pair, flags, first, second);
    ClearKeepsFlowIff(q.comToComp);
    ClearKeepsFlowIff(q.compToCom);
  }

  /** Up to the flush the rule holds as long as nobody else clears a ring meanwhile. */
  lemma FlowReachesFlush(pair: Pair, flags: Flags, first: seq<PairStep>, second: seq<PairStep>)
    requires PairInv(pair) && WritersWaitOnFullRings(pair) && WindowsLegal(pair, flags, first, second)
    requires forall s | s in first + second :: !s.step.Clear?
    ensures WritersWaitOnFullRings(BeforeFlush(pair, flags, first, second))
  {
    hide Inv, PairLegal, ExecPair;
    var p := AbortTransmit(pair, flags);
    AbortsKeep(pair, flags);
    AbortsKeepFlow(pair, flags);
    forall s | s in first || s in second
      ensures !s.step.Clear?
    {
      assert s in first + second;
    }
    PairRunKeeps(p, first);
    PairRunKeepsFlow(p, first);
    var m := ExecPair(p, first);
    AbortsKeep(m, flags);
    AbortsKeepFlow(m, flags);
    PairRunKeepsFlow(AbortReceive(m, flags), second);
  }

  lemma AbortsKeepFlow(pair: Pair, flags: Flags)
    requires PairInv(pair) && WritersWaitOnFullRings(pair)
    ensures WritersWaitOnFullRings(AbortTransmit(pair, flags)) && WritersWaitOnFullRings(AbortReceive(pair, flags))
  {
    hide Inv;
    StepKeeps(pair.comToComp, AbortWrites);
    StepKeeps(pair.compToCom, AbortReads);
  }

  lemma {:induction false} PairRunKeepsFlow(pair: Pair, run: seq<PairStep>)
    requires PairInv(pair) && WritersWaitOnFullRings(pair) && PairLegal(pair, run)
    requires forall s | s in run :: !s.step.Clear?
    ensures WritersWaitOnFullRings(ExecPair(pair, run))
    decreases |run|
  {
    hide Inv, Apply, WritersWaitOnFull;
    if run != [] {
      assert run[0] in run;
      match run[0] {
        case Transmit(step) => StepKeeps(pair.comToComp, step);
        case Receive(step) => StepKeeps(pair.compToCom, step);
      }
      PairRunKeepsFlow(ApplyPair(pair, run[0]), run[1..]);
    }
  }

  /**
   Exactly when TXABORT secures that no write is pended behind ComToCompanion at the flush: when
   every write that arrived on it between the abort and the flush has completed by then.
   */
  lemma AbortSecuresIff(pair: Pair, flags: Flags, first: seq<PairStep>, second: seq<PairStep>)
    requires PairInv(pair) && flags.txAbort && WindowsLegal(pair, flags, first, second)
    ensures var q := BeforeFlush(pair, flags, first, second);
            var arrived := |pair.comToComp.arrived|;
            && arrived <= |q.comToComp.arrived|
            && (q.comToComp.writeQueue == [] <==>
                forall r | r in q.comToComp.arrived[arrived..] && r.Write? :: r in Past(q.comToComp.log).finished)
  {
    hide Inv, PairLegal, ExecPair, Past, Exec, Legal;
    var p := AbortTransmit(pair, flags);
    AbortsKeep(pair, flags);
    PairRunSplits(p, first);
    var m := AbortReceive(ExecPair(p, first), flags);
    PairRunSplits(m, second);
    var a, b := TransmitPart(first), TransmitPart(second);
    RunConcat(p.comToComp, a, b);
    NoWritePendsIff(p.comToComp, a + b);
  }

  /** The pair when the reads are aborted, after the first window. */
  function AtReadAbort(pair: Pair, flags: Flags, first: seq<PairStep>): Pair {
    ExecPair(AbortTransmit(pair, flags), first)
  }

  /**
   What RXABORT secures: at the abort every pended read ends, answered once, as cancelled and
   without bytes, and stays so; at the flush only reads that arrived after the abort are pended,
   and none exactly when all of those have completed.
   */
  lemma ReadAbortSecuresIff(pair: Pair, flags: Flags, first: seq<PairStep>, second: seq<PairStep>)
    requires PairInv(pair) && flags.rxAbort && WindowsLegal(pair, flags, first, second)
    ensures var m := AtReadAbort(pair, flags, first);
            var a := AbortReceive(m, flags).compToCom;
            var q := BeforeFlush(pair, flags, first, second).compToCom;
            var arrived := |m.compToCom.arrived|;
            && a == m.compToCom.(readQueue := [], log := a.log) && a.readQueue == []
            && AllCancelled(a.log, m.compToCom.readQueue) && AllCancelled(q.log, m.compToCom.readQueue)
            && arrived <= |q.arrived| && (forall r | r in q.readQueue :: r in q.arrived[arrived..])
            && (q.readQueue == [] <==>
                forall r | r in q.arrived[arrived..] && r.Read? :: r in Past(q.log).finished)
  {
    hide Inv, PairLegal, ExecPair, Past, Exec, Legal, Apply, Answered;
    AbortsKeep(pair, flags);
    PairRunKeeps(AbortTransmit(pair, flags), first);
    var m := AtReadAbort(pair, flags, first);
    AbortReadsOutcome(m.compToCom);
    AbortsKeep(m, flags);
    var a := AbortReceive(m, flags);
    PairRunSplits(a, second);
    NoReadPendsIff(a.compToCom, ReceivePart(second));
    CancelledStay(a.compToCom, ReceivePart(second), m.compToCom.readQueue);
  }

  /** Each section touches one direction, and only if its flag asks for it. */
  lemma OnlyFlagged(pair: Pair, flags: Flags)
    ensures AbortTransmit(pair, flags).compToCom == pair.compToCom
    ensures AbortReceive(pair, flags).comToComp == pair.comToComp
    ensures !flags.txAbort ==> AbortTransmit(pair, flags) == pair
    ensures !flags.rxAbort ==> AbortReceive(pair, flags) == pair
    ensures !flags.txClear ==> Flush(pair, flags).comToComp == pair.comToComp
    ensures !flags.rxClear ==> Flush(pair, flags).compToCom == pair.compToCom
  {
  }

  lemma CancelledStay(p: Path, run: seq<Step>, reqs: seq<Request>)
    requires Inv(p) && Legal(p, run) && AllCancelled(p.log, reqs)
    ensures AllCancelled(Exec(p, run).log, reqs)
  {
    hide Inv, Legal, Exec;
    forall r | r in reqs
      ensures Answered(Exec(p, run).log, r, Cancelled, [])
    {
      AnswerStays(p, run, r, Cancelled, []);
    }
  }

  /** TXABORT ends every pended write in the same way, and none of their bytes enters. */
  lemma WriteAbortCancels(pair: Pair, flags: Flags, first: seq<PairStep>, second: seq<PairStep>)
    requires PairInv(pair) && flags.txAbort && WindowsLegal(pair, flags, first, second)
    ensures var a := AbortTransmit(pair, flags).comToComp;
            var q := BeforeFlush(pair, flags, first, second).comToComp;
            && a == pair.comToComp.(writeQueue := [], log := a.log) && a.writeQueue == []
            && AllCancelled(a.log, pair.comToComp.writeQueue) && AllCancelled(q.log, pair.comToComp.writeQueue)
  {
    hide Inv, PairLegal, ExecPair, Past, Exec, Legal, Apply, Answered;
    AbortWritesOutcome(pair.comToComp);
    AbortsKeep(pair, flags);
    var a := AbortTransmit(pair, flags);
    PairRunSplits(a, first);
    PairRunKeeps(a, first);
    var m := ExecPair(a, first);
    AbortsKeep(m, flags);
    CancelledStay(a.comToComp, TransmitPart(first), pair.comToComp.writeQueue);
    PairRunSplits(AbortReceive(m, flags), second);
    CancelledStay(m.comToComp, TransmitPart(second), pair.comToComp.writeQueue);
  }

  /** The flush discards, of each live ring it clears, exactly what is unread, and leaves the others alone. */
  lemma FlushDiscards(pair: Pair, flags: Flags)
    requires PairInv(pair)
    ensures var t := Flush(pair, flags);
            && (flags.txClear && pair.comToComp.active ==>
                  t.comToComp.ring == []
                  && Discarded(t.comToComp.log) == Discarded(pair.comToComp.log) + pair.comToComp.ring)
            && (flags.rxClear && pair.compToCom.active ==>
                  t.compToCom.ring == []
                  && Discarded(t.compToCom.log) == Discarded(pair.compToCom.log) + pair.compToCom.ring)
            && (!flags.txClear ==> t.comToComp == pair.comToComp)
            && (!flags.rxClear ==> t.compToCom == pair.compToCom)
  {
    hide Inv, Apply, Discarded;
    if pair.comToComp.active { ClearOutcome(pair.comToComp); }
    if pair.compToCom.active { ClearOutcome(pair.compToCom); }
  }

  lemma {:induction false} RunConcat(p: Path, a: seq<Step>, b: seq<Step>)
    requires Legal(p, a) && Legal(Exec(p, a), b)
    ensures Legal(p, a + b) && Exec(p, a + b) == Exec(Exec(p, a), b)
    decreases |a|
  {
    if a == [] {
      assert a + b == b;
    } else {
      assert (a + b)[0] == a[0] && (a + b)[1..] == a[1..] + b;
      RunConcat(Apply(p, a[0]), a[1..], b);
    }
  }

  /**
   So TXABORT with TXCLEAR is not safe: on every active pair with a full ring, one COM write
   dispatched between the abort and the flush pends and is stranded.
   */
  lemma WriteInWindowIsStranded(pair: Pair, req: Request)
    requires PairInv(pair) && Usable(pair) && pair.comToComp.active && |pair.comToComp.ring| == pair.comToComp.cap
    requires req.Write? && req.data != [] && req.id == |pair.comToComp.arrived|
    ensures var flags := Flags(true, false, true, false);
            var window := [Transmit(Arrive(req, false, true))];
            && WindowsLegal(pair, flags, [], window)
            && var t := PurgeIoctl(pair, flags, [], window);
               t.comToComp.ring == [] && t.comToComp.writeQueue == [req] && !WritersWaitOnFullRings(t)
  {
    var flags, s := Flags(true, false, true, false), Transmit(Arrive(req, false, true));
    var p := AbortTransmit(pair, flags);
    var q := ApplyPair(p, s);
    assert [s][1..] == [];
    assert ExecPair(q, []) == q && PairLegal(q, []);
    assert ExecPair(p, [s]) == q && PairLegal(p, [s]);
    assert ExecPair(p, []) == p && PairLegal(p, []);
  }

  /** On the step level: a step breaks the writers' half of the invariant exactly when it strands writers. */
  lemma StrandingIff(p: Path, step: Step)
    requires Inv(p) && WritersWaitOnFull(p) && Enabled(p, step)
    ensures WritersWaitOnFull(Apply(p, step)) <==> !StrandsWriters(p, step)
  {
    StepKeeps(p, step);
  }

  /** After a stranding clear, one blocking read is enough to have a reader and a writer wait for each other. */
  lemma StrandedThenStuck(p: Path, req: Request)
    requires Inv(p) && StrandsWriters(p, Clear) && req.Read? && req.len > 0
    ensures var t := Apply(Apply(p, Clear), Arrive(req, false, true));
            t.readQueue != [] && t.writeQueue != [] && t.ring == []
  {
  }

  ghost predicate Stuck(p: Path) {
    p.active && p.ring == [] && p.readQueue != [] && p.writeQueue != []
  }

  /** No further read, of any length or mode, ends that wait. */
  lemma ReadsDoNotUnstick(p: Path, req: Request, nonBlocking: bool, forwards: bool)
    requires Inv(p) && Stuck(p) && req.Read?
    ensures Stuck(Apply(p, Arrive(req, nonBlocking, forwards)))
  {
  }

  lemma {:induction false} StuckThroughReads(p: Path, run: seq<Step>)
    requires Inv(p) && Stuck(p) && Legal(p, run) && forall s | s in run :: s.Arrive? && s.req.Read?
    ensures Stuck(Exec(p, run)) && Past(Exec(p, run).log).delivered == Past(p.log).delivered
    decreases |run|
  {
    if run != [] {
      var s := run[0];
      assert s.Arrive? && s.req.Read?;
      StepKeeps(p, s);
      ReadsDoNotUnstick(p, s.req, s.nonBlocking, s.forwards);
      StuckReadDelivers(p, s);
      StuckThroughReads(Apply(p, s), run[1..]);
    }
  }

  lemma StuckReadDelivers(p: Path, s: Step)
    requires Inv(p) && Stuck(p) && s.Arrive? && s.req.Read?
    ensures Past(Apply(p, s).log).delivered == Past(p.log).delivered
  {
    var t := Apply(p, s);
    if |t.log| > |p.log| {
      Snoc(p.log, t.log[|p.log|]);
    }
  }

  /** Running GcomDrainWritesToRing after the flush restores the invariant, whatever was pended, and ends every such wait. */
  lemma DrainAfterFlushRestores(p: Path)
    requires Inv(p)
    ensures var t := DrainWrites(ClearRing(p));
            Inv(t) && WritersWaitOnFull(t) && (p.cap >= 1 ==> !Stuck(t))
  {
    ClearKeeps(p);
    var ins := DrainWritesEffect(ClearRing(p));
  }

  /** So does the next read that finds a byte: its handler drains the pended writes. */
  lemma ReadWithDataRestores(p: Path, req: Request, nonBlocking: bool, forwards: bool)
    requires Inv(p) && p.active && p.ring != [] && req.Read? && req.len > 0 && req.id == |p.arrived|
    ensures WritersWaitOnFull(Apply(p, Arrive(req, nonBlocking, forwards)))
  {
    var n := Min(req.len, |p.ring|);
    ReadTakes(p, req, n, DrainWrites(p.(ring := p.ring[n..])), Apply(p, Arrive(req, nonBlocking, forwards)));
  }

  /** The first write of that run fills a ring of any capacity. */
  function Fill(cap: nat): Request {
    Write(0, seq(cap, _ => 0))
  }

  const SECOND: Request := Write(1, [2])
  const THIRD: Request := Write(2, [3])

  /** A write fills the ring and a second one pends. */
  function Filling(cap: nat): seq<Step> {
    [Arrive(Fill(cap), false, true), Arrive(SECOND, false, true)]
  }

  function Filled(cap: nat): Path {
    Path(cap, true, Fill(cap).data, [], [SECOND], [Completed(Fill(cap), Success, Fill(cap).data)], [Fill(cap), SECOND])
  }

  lemma FillingRun(cap: nat)
    requires cap >= 1
    ensures Legal(Initial(cap), Filling(cap)) && Exec(Initial(cap), Filling(cap)) == Filled(cap)
  {
    var w, p0 := Fill(cap), Initial(cap);
    var a, b := Arrive(w, false, true), Arrive(SECOND, false, true);
    var p1 := Path(cap, true, w.data, [], [], [Completed(w, Success, w.data)], [w]);
    assert w.data[..cap] == w.data && [] + w.data == w.data;
    assert DrainReads(p0.(ring := w.data)) == p0.(ring := w.data);
    assert Apply(p0, a) == p1;
    assert Apply(p1, b) == Filled(cap);
    assert [a, b][1..] == [b] && [b][1..] == [];
    assert Legal(p1, [b]) && Exec(p1, [b]) == Filled(cap);
  }

  /** Whatever the size of the ring, a clear can strand a writer. */
  lemma ClearCanStrand(cap: nat)
    requires cap >= 1
    ensures Legal(Initial(cap), Filling(cap) + [Clear])
    ensures StrandsWriters(Exec(Initial(cap), Filling(cap)), Clear)
  {
    FillingRun(cap);
    assert [Clear][1..] == [];
    assert Legal(Filled(cap), [Clear]);
    RunConcat(Initial(cap), Filling(cap), [Clear]);
  }

  /**
   The claims that fail in general do fail, on a ring of any capacity: after that clear a write
   is pended behind an empty ring, and a third write enters before it.
   */
  lemma ClearBreaksOrderAndFlow(cap: nat)
    requires cap >= 1
    ensures var run := Filling(cap) + [Clear];
            && Legal(Initial(cap), run)
            && var p := Exec(Initial(cap), run);
               && p.ring == [] && p.writeQueue == [SECOND] && WriteOrder(p) && !WritersWaitOnFull(p)
               && Enabled(p, Arrive(THIRD, false, true))
               && var t := Apply(p, Arrive(THIRD, false, true));
                  Past(t.log).entered == [Fill(cap), THIRD] && t.writeQueue == [SECOND] && !WriteOrder(t)
  {
    hide Legal, Exec, Filling;
    StrandedRun(cap);
    ThirdOvertakes(cap);
  }

  /** The state that run reaches. */
  lemma StrandedRun(cap: nat)
    requires cap >= 1
    ensures Legal(Initial(cap), Filling(cap) + [Clear])
    ensures Exec(Initial(cap), Filling(cap) + [Clear]) == ClearRing(Filled(cap))
  {
    ClearCanStrand(cap);
    FillingRun(cap);
    assert [Clear][1..] == [];
    assert Exec(Filled(cap), [Clear]) == ClearRing(Filled(cap));
    RunConcat(Initial(cap), Filling(cap), [Clear]);
  }

  lemma ThirdOvertakes(cap: nat)
    requires cap >= 1
    ensures var p := ClearRing(Filled(cap));
            && WriteOrder(p)
            && var t := Apply(p, Arrive(THIRD, false, true));
               Past(t.log).entered == [Fill(cap), THIRD] && t.writeQueue == [SECOND] && !WriteOrder(t)
  {
    var p := ClearRing(Filled(cap));
    StrandedLog(cap);
    hide Past, Filled;
    assert [Fill(cap)] + [SECOND] == [Fill(cap), SECOND];
    var t := Apply(p, Arrive(THIRD, false, true));
    assert THIRD.data[..1] == [3] && [] + [3] == [3];
    assert t.log == p.log + [Completed(THIRD, Success, [3])];
    Snoc(p.log, Completed(THIRD, Success, [3]));
    var line := Past(t.log).entered + t.writeQueue;
    assert line[1] == THIRD && line[2] == SECOND;
  }

  lemma StrandedLog(cap: nat)
    requires cap >= 1
    ensures Past(ClearRing(Filled(cap)).log).entered == [Fill(cap)]
  {
    var e := Completed(Fill(cap), Success, Fill(cap).data);
    Snoc([], e);
    assert [] + [e] == [e];
    Snoc([e], Flushed(Fill(cap).data));
  }

  /** So the stranding purge is reached too: the ring is full, TXABORT empties the queue, and the next write pends. */
  lemma FullRingIsReachable(cap: nat)
    requires cap >= 1
    ensures Legal(Initial(cap), Filling(cap))
    ensures var p := Exec(Initial(cap), Filling(cap)); Inv(p) && p.active && |p.ring| == p.cap == cap
  {
    FillingRun(cap);
    assert Numbered([]) && Held(Initial(cap)) == multiset{};
    InvRun(Initial(cap), Filling(cap));
  }
}
