/** Where the companion's picture of the COM port comes from: which request set which field, and which bits tell it. */
module SignalSettings {
  import opened Prelude
  import opened Signals
  import Bits

  /* ------------------------------------------------- what a request names, field by field */

  function BaudRateNamed(req: Request): Option<nat> {
    if req.SetBaudRate? then Some(req.rate) else None
  }

  function StopBitsNamed(req: Request): Option<nat> {
    if req.SetLineControl? then Some(req.stopBits) else None
  }

  function ParityNamed(req: Request): Option<nat> {
    if req.SetLineControl? then Some(req.parity) else None
  }

  function DataBitsNamed(req: Request): Option<nat> {
    if req.SetLineControl? then Some(req.wordLength) else None
  }

  function DtrNamed(req: Request): Option<bool> {
    if req.SetDtr? then Some(true)
    else if req.ClrDtr? then Some(false)
    else if req.SetModemControl? then Some(req.dtr)
    else None
  }

  function RtsNamed(req: Request): Option<bool> {
    if req.SetRts? then Some(true)
    else if req.ClrRts? then Some(false)
    else if req.SetModemControl? then Some(req.rts)
    else None
  }

  function BreakNamed(req: Request): Option<bool> {
    if req.SetBreakOn? then Some(true) else if req.SetBreakOff? then Some(false) else None
  }

  function ControlNamed(req: Request): Option<nat> {
    if req.SetHandflow? then Some(req.control) else None
  }

  function ReplaceNamed(req: Request): Option<nat> {
    if req.SetHandflow? then Some(req.replace) else None
  }

  function XonLimitNamed(req: Request): Option<int> {
    if req.SetHandflow? then Some(req.xonLimit) else None
  }

  function XoffLimitNamed(req: Request): Option<int> {
    if req.SetHandflow? then Some(req.xoffLimit) else None
  }

  function CharsNamed(req: Request): Option<SpecialChars> {
    if req.SetChars? then Some(req.chars) else None
  }

  function WaitMaskNamed(req: Request): Option<nat> {
    if req.SetWaitMask? then Some(req.mask) else None
  }

  /** The value of a field after some requests: the last one named, or the one before them. */
  function Last<T>(named: Request -> Option<T>, reqs: seq<Request>, initial: T): T {
    if reqs == [] then initial
    else
      match named(reqs[|reqs|-1])
      case Some(v) => v
      case None => Last(named, reqs[..|reqs|-1], initial)
  }

  /** Every field holds the last value that some request named for it, or its initial one. */
  ghost predicate LastWriterWins(c: Config, reqs: seq<Request>, initial: Config) {
    && c.baudRate == Last(BaudRateNamed, reqs, initial.baudRate)
    && c.stopBits == Last(StopBitsNamed, reqs, initial.stopBits)
    && c.parity == Last(ParityNamed, reqs, initial.parity)
    && c.dataBits == Last(DataBitsNamed, reqs, initial.dataBits)
    && c.dtr == Last(DtrNamed, reqs, initial.dtr)
    && c.rts == Last(RtsNamed, reqs, initial.rts)
    && c.brk == Last(BreakNamed, reqs, initial.brk)
    && c.controlHandShake == Last(ControlNamed, reqs, initial.controlHandShake)
    && c.flowReplace == Last(ReplaceNamed, reqs, initial.flowReplace)
    && c.xonLimit == Last(XonLimitNamed, reqs, initial.xonLimit)
    && c.xoffLimit == Last(XoffLimitNamed, reqs, initial.xoffLimit)
    && c.chars == Last(CharsNamed, reqs, initial.chars)
    && c.waitMask == Last(WaitMaskNamed, reqs, initial.waitMask)
  }

  /** Last is what it is called: the value named at a place after which nobody names one. */
  lemma {:induction false} LastIs<T>(named: Request -> Option<T>, reqs: seq<Request>, initial: T, i: nat)
    requires i < |reqs| && named(reqs[i]).Some? && forall j | i < j < |reqs| :: named(reqs[j]).None?
    ensures Last(named, reqs, initial) == named(reqs[i]).value
  {
    if i < |reqs| - 1 {
      LastIs(named, reqs[..|reqs|-1], initial, i);
    }
  }

  lemma {:induction false} NoneNamed<T>(named: Request -> Option<T>, reqs: seq<Request>, initial: T)
    requires forall j | 0 <= j < |reqs| :: named(reqs[j]).None?
    ensures Last(named, reqs, initial) == initial
  {
    if reqs != [] {
      NoneNamed(named, reqs[..|reqs|-1], initial);
    }
  }

  lemma LastSnoc<T>(named: Request -> Option<T>, reqs: seq<Request>, req: Request, initial: T)
    ensures Last(named, reqs + [req], initial) ==
            match named(req) case Some(v) => v case None => Last(named, reqs, initial)
  {
    assert (reqs + [req])[..|reqs|] == reqs;
  }

  lemma NothingNamed(c: Config)
    ensures LastWriterWins(c, [], c)
  {
  }

  /** One more handler stores. */
  lemma StoreNamesLast(c: Config, reqs: seq<Request>, initial: Config, req: Request)
    requires LastWriterWins(c, reqs, initial)
    ensures LastWriterWins(Stores(c, req), reqs + [req], initial)
  {
    hide Last;
    LastSnoc(BaudRateNamed, reqs, req, initial.baudRate);
    LastSnoc(StopBitsNamed, reqs, req, initial.stopBits);
    LastSnoc(ParityNamed, reqs, req, initial.parity);
    LastSnoc(DataBitsNamed, reqs, req, initial.dataBits);
    LastSnoc(DtrNamed, reqs, req, initial.dtr);
    LastSnoc(RtsNamed, reqs, req, initial.rts);
    LastSnoc(BreakNamed, reqs, req, initial.brk);
    LastSnoc(ControlNamed, reqs, req, initial.controlHandShake);
    LastSnoc(ReplaceNamed, reqs, req, initial.flowReplace);
    LastSnoc(XonLimitNamed, reqs, req, initial.xonLimit);
    LastSnoc(XoffLimitNamed, reqs, req, initial.xoffLimit);
    LastSnoc(CharsNamed, reqs, req, initial.chars);
    LastSnoc(WaitMaskNamed, reqs, req, initial.waitMask);
  }

  /* ------------------------------------------------------------------- which bits */

  /** The request is one that bit g stands for. */
  predicate Announces(req: Request, g: Group) {
    match g
    case Baud => BaudRateNamed(req).Some?
    case LineCtrl => StopBitsNamed(req).Some?
    case Dtr => DtrNamed(req).Some?
    case Rts => RtsNamed(req).Some?
    case Break => BreakNamed(req).Some?
    case HandFlow => ControlNamed(req).Some?
    case Chars => CharsNamed(req).Some?
    case WaitMask => WaitMaskNamed(req).Some?
    case ComOpen => req.FileCreate?
    case ComClose => req.FileClose?
  }

  /** A handler signals exactly the groups whose fields it names, an open or a close its own bit. */
  lemma BitsAreTheNamed(req: Request, g: Group)
    ensures g in ChangedBits(req) <==> Announces(req, g)
  {
    match req
    case SetModemControl(_, _) =>
    case _ =>
  }

  /* ------------------------------------------------------------------- whole runs */

  /** The requests whose handlers stored in a run, in order. */
  function StoredBy(run: seq<Step>): seq<Request> {
    if run == [] then []
    else (if run[0].Store? then [run[0].req] else []) + StoredBy(run[1..])
  }

  /** A snapshot shows what the requests up to some moment left, and its bits stand for some of them. */
  ghost predicate SnapshotOf(snap: Snapshot, reqs: seq<Request>, initial: Config) {
    && (exists n :: 0 <= n <= |reqs| && LastWriterWins(snap.config, reqs[..n], initial))
    && (forall g | g in snap.changedMask :: Announced(reqs, g))
  }

  ghost predicate Announced(reqs: seq<Request>, g: Group) {
    exists req :: req in reqs && Announces(req, g)
  }

  ghost predicate HistoryOk(s: State, reqs: seq<Request>, initial: Config) {
    && LastWriterWins(s.config, reqs, initial)
    && (forall k | 0 <= k < |s.taken| :: SnapshotOf(s.taken[k], reqs, initial))
    && (forall g | g in s.changedMask :: Announced(reqs, g))
    && (forall id | id in s.calls :: s.calls[id].req in reqs)
  }

  lemma SnapshotStays(snap: Snapshot, reqs: seq<Request>, req: Request, initial: Config)
    requires SnapshotOf(snap, reqs, initial)
    ensures SnapshotOf(snap, reqs + [req], initial)
  {
    hide LastWriterWins, Announces;
    var n :| 0 <= n <= |reqs| && LastWriterWins(snap.config, reqs[..n], initial);
    assert (reqs + [req])[..n] == reqs[..n];
    forall g | g in snap.changedMask
      ensures Announced(reqs + [req], g)
    {
      AnnouncedStays(reqs, req, g);
    }
  }

  lemma AnnouncedStays(reqs: seq<Request>, req: Request, g: Group)
    requires Announced(reqs, g)
    ensures Announced(reqs + [req], g)
  {
    var x :| x in reqs && Announces(x, g);
    assert x in reqs + [req];
  }

  lemma StoreHistory(s: State, reqs: seq<Request>, initial: Config, id: nat, req: Request)
    requires HistoryOk(s, reqs, initial) && Enabled(s, Store(id, req))
    ensures HistoryOk(Apply(s, Store(id, req)), reqs + [req], initial)
  {
    hide LastWriterWins, SnapshotOf, Announced;
    StoreNamesLast(s.config, reqs, initial, req);
    forall k | 0 <= k < |s.taken|
      ensures SnapshotOf(s.taken[k], reqs + [req], initial)
    {
      SnapshotStays(s.taken[k], reqs, req, initial);
    }
    forall g | g in s.changedMask
      ensures Announced(reqs + [req], g)
    {
      AnnouncedStays(reqs, req, g);
    }
  }

  lemma SnapHistory(s: State, reqs: seq<Request>, initial: Config, id: nat)
    requires HistoryOk(s, reqs, initial) && Enabled(s, Snap(id)) && s.active
    ensures HistoryOk(DoSnap(s, id), reqs, initial)
  {
    hide LastWriterWins, Announces;
    var t, req := DoSnap(s, id), s.calls[id].req;
    forall g | g in t.changedMask
      ensures Announced(reqs, g)
    {
      if g in ChangedBits(req) { BitsAreTheNamed(req, g); }
    }
    assert reqs[..|reqs|] == reqs;
    assert SnapshotOf(t.taken[|s.taken|], reqs, initial);
  }

  lemma StepHistory(s: State, reqs: seq<Request>, initial: Config, step: Step)
    requires HistoryOk(s, reqs, initial) && Enabled(s, step)
    ensures HistoryOk(Apply(s, step), reqs + (if step.Store? then [step.req] else []), initial)
  {
    hide LastWriterWins, SnapshotOf, Announced, Stores;
    assert reqs + [] == reqs;
    match step
    case Store(id, req) => StoreHistory(s, reqs, initial, id, req);
    case Snap(id) => if s.active { SnapHistory(s, reqs, initial, id); }
    case _ =>
  }

  lemma {:induction false} RunHistory(s: State, reqs: seq<Request>, initial: Config, run: seq<Step>)
    requires HistoryOk(s, reqs, initial) && Legal(s, run)
    ensures HistoryOk(Exec(s, run), reqs + StoredBy(run), initial)
    decreases |run|
  {
    if run == [] {
      assert reqs + [] == reqs;
    } else {
      hide HistoryOk, Apply, Enabled;
      var more := if run[0].Store? then [run[0].req] else [];
      StepHistory(s, reqs, initial, run[0]);
      RunHistory(Apply(s, run[0]), reqs + more, initial, run[1..]);
      Assoc(reqs, more, StoredBy(run[1..]));
    }
  }

  /**
   The last-writer law, over every run of overlapping handlers: each field of the configuration
   holds the value that the last request naming it named, or its initial one; with no handler in
   flight so does the last snapshot of an active pair; and every snapshot ever taken shows what
   the requests up to some moment left, its bits standing for requests that were made.
   */
  lemma LastWriterIsTold(config: Config, run: seq<Step>)
    requires Legal(Initial(config), run)
    ensures var t := Exec(Initial(config), run);
            && LastWriterWins(t.config, StoredBy(run), config)
            && (t.active && t.calls == map[] ==> LastWriterWins(LastTold(t), StoredBy(run), config))
            && forall k | 0 <= k < |t.taken| :: SnapshotOf(t.taken[k], StoredBy(run), config)
  {
    RunHistory(Initial(config), [], config, run);
    assert [] + StoredBy(run) == StoredBy(run);
    hide LastWriterWins, SnapshotOf;
    if Exec(Initial(config), run).active {
      LastSnapshotIsFresh(config, run);
    }
  }

  /* ----------------------------------------------------------------- section by section */

  /** A snapshot of a live pair has the next number, the current settings, and every bit still set or announced. */
  lemma SnapOutcome(s: State, id: nat)
    requires Enabled(s, Snap(id)) && s.active
    ensures var t := Apply(s, Snap(id));
            && |t.taken| == |s.taken| + 1 && s.taken <= t.taken
            && var snap := t.taken[|s.taken|];
               && snap.sequenceNumber == t.sequenceNumber == (s.sequenceNumber + 1) % Bits.U32
               && snap.config == s.config == t.config
               && snap.changedMask == t.changedMask
               && forall g :: g in snap.changedMask <==> g in s.changedMask || Announces(s.calls[id].req, g)
  {
    forall g
      ensures g in ChangedBits(s.calls[id].req) <==> Announces(s.calls[id].req, g)
    {
      BitsAreTheNamed(s.calls[id].req, g);
    }
    hide Announces, ChangedBits;
  }

  /** A call that has delivered clears the bits of its own snapshot and no other. */
  lemma ClearOutcome(s: State, id: nat)
    requires Enabled(s, Clear(id))
    ensures var t := Apply(s, Clear(id));
            && id !in t.calls && t.taken == s.taken && t.config == s.config && t.completions == s.completions
            && forall g :: g in t.changedMask <==> g in s.changedMask && g !in s.taken[s.calls[id].k].changedMask
  {
  }
}
