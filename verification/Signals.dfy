/**
 The signal protocol: any number of COM-side handlers store configuration fields and run
 GcomSignalChanged concurrently, while the companion pends waits. A step is one section
 under SignalLock, one completed wait, or one arrival. ChangedMask is the set of its bits.
 */
module Signals {
  import opened Prelude
  import opened Bits

  /** The bits of ChangedMask. */
  datatype Group = Baud | LineCtrl | Dtr | Rts | Break | HandFlow | Chars | WaitMask | ComOpen | ComClose

  datatype Config = Config(
    baudRate: nat,
    stopBits: nat, parity: nat, dataBits: nat,
    dtr: bool, rts: bool, brk: bool,
    controlHandShake: nat, flowReplace: nat, xonLimit: int, xoffLimit: int,
    chars: SpecialChars,
    waitMask: nat)

  datatype SpecialChars = SpecialChars(eof: nat, error: nat, brk: nat, event: nat, xon: nat, xoff: nat)

  /** The COM-side requests that store fields or signal. */
  datatype Request =
    | SetBaudRate(rate: nat)
    | SetLineControl(stopBits: nat, parity: nat, wordLength: nat)
    | SetDtr
    | ClrDtr
    | SetRts
    | ClrRts
    | SetBreakOn
    | SetBreakOff
    | SetHandflow(control: nat, replace: nat, xonLimit: int, xoffLimit: int)
    | SetChars(chars: SpecialChars)
    | SetWaitMask(mask: nat)
    | SetModemControl(dtr: bool, rts: bool)
    | FileCreate
    | FileClose

  /** The bits a handler passes to GcomSignalChanged. */
  function ChangedBits(req: Request): set<Group> {
    match req
    case SetBaudRate(_) => {Baud}
    case SetLineControl(_, _, _) => {LineCtrl}
    case SetDtr => {Dtr}
    case ClrDtr => {Dtr}
    case SetRts => {Rts}
    case ClrRts => {Rts}
    case SetBreakOn => {Break}
    case SetBreakOff => {Break}
    case SetHandflow(_, _, _, _) => {HandFlow}
    case SetChars(_) => {Chars}
    case SetWaitMask(_) => {WaitMask}
    case SetModemControl(_, _) => {Dtr, Rts}
    case FileCreate => {ComOpen}
    case FileClose => {ComClose}
  }

  /** The fields a handler stores under SignalLock before it signals. */
  function Stores(c: Config, req: Request): Config {
    match req
    case SetBaudRate(rate) => c.(baudRate := rate)
    case SetLineControl(stopBits, parity, wordLength) =>
      c.(stopBits := stopBits, parity := parity, dataBits := wordLength)
    case SetDtr => c.(dtr := true)
    case ClrDtr => c.(dtr := false)
    case SetRts => c.(rts := true)
    case ClrRts => c.(rts := false)
    case SetBreakOn => c.(brk := true)
    case SetBreakOff => c.(brk := false)
    case SetHandflow(control, replace, xonLimit, xoffLimit) =>
      c.(controlHandShake := control, flowReplace := replace, xonLimit := xonLimit, xoffLimit := xoffLimit)
    case SetChars(chars) => c.(chars := chars)
    case SetWaitMask(mask) => c.(waitMask := mask)
    case SetModemControl(dtr, rts) => c.(dtr := dtr, rts := rts)
    case FileCreate => c
    case FileClose => c
  }

  /** c and d agree on the fields announced by bit g. */
  predicate SameGroup(c: Config, d: Config, g: Group) {
    match g
    case Baud => c.baudRate == d.baudRate
    case LineCtrl => c.stopBits == d.stopBits && c.parity == d.parity && c.dataBits == d.dataBits
    case Dtr => c.dtr == d.dtr
    case Rts => c.rts == d.rts
    case Break => c.brk == d.brk
    case HandFlow =>
      c.controlHandShake == d.controlHandShake && c.flowReplace == d.flowReplace
      && c.xonLimit == d.xonLimit && c.xoffLimit == d.xoffLimit
    case Chars => c.chars == d.chars
    case WaitMask => c.waitMask == d.waitMask
    case ComOpen => true
    case ComClose => true
  }

  datatype Snapshot = Snapshot(sequenceNumber: nat, changedMask: set<Group>, config: Config)

  /** A handler in flight; k is the place of its snapshot among all snapshots taken. */
  datatype Call =
    | Stored(req: Request)
    | Delivering(req: Request, k: nat)
    | Delivered(req: Request, k: nat)

  /** A pended wait; fits says whether its output buffer holds a snapshot. */
  datatype Waiter = Waiter(id: nat, fits: bool)

  datatype Completion = Completion(waiter: Waiter, status: NtStatus, k: Option<nat>)

  /** taken lists every snapshot ever taken, completions every completed wait, in order. */
  datatype State = State(active: bool, queueLive: bool, sequenceNumber: nat, changedMask: set<Group>, config: Config,
                         waiters: seq<Waiter>, calls: map<nat, Call>,
                         first: Config, taken: seq<Snapshot>, completions: seq<Completion>)

  datatype Step =
    | Store(id: nat, req: Request)
    | Snap(id: nat)
    | Deliver(id: nat)
    | EndLoop(id: nat)
    | Clear(id: nat)
    | Wait(waiter: Waiter, forwards: bool)
    | CancelWait(i: nat)
    | Destroy

  predicate Enabled(s: State, step: Step) {
    match step
    case Store(id, _) => s.active && id !in s.calls
    case Snap(id) => id in s.calls && s.calls[id].Stored?
    case Deliver(id) => id in s.calls && s.calls[id].Delivering? && s.waiters != []
    case EndLoop(id) => id in s.calls && s.calls[id].Delivering? && s.waiters == []
    case Clear(id) => id in s.calls && s.calls[id].Delivered? && s.calls[id].k < |s.taken|
    case Wait(_, _) => true
    case CancelWait(i) => i < |s.waiters|
    case Destroy => s.active
  }

  function DoSnap(s: State, id: nat): State
    requires Enabled(s, Snap(id))
  {
    var req := s.calls[id].req;
    if !s.active then s.(calls := s.calls - {id})
    else
      var next := (s.sequenceNumber + 1) % U32;
      var mask := s.changedMask + ChangedBits(req);
      s.(sequenceNumber := next, changedMask := mask,
         taken := s.taken + [Snapshot(next, mask, s.config)],
         calls := s.calls[id := if s.queueLive then Delivering(req, |s.taken|) else Delivered(req, |s.taken|)])
  }

  function DoDeliver(s: State, id: nat): State
    requires Enabled(s, Deliver(id))
  {
    var w := s.waiters[0];
    s.(waiters := s.waiters[1..],
       completions := s.completions +
         [if w.fits then Completion(w, Success, Some(s.calls[id].k)) else Completion(w, BufferTooSmall, None)])
  }

  function Apply(s: State, step: Step): State
    requires Enabled(s, step)
  {
    match step
    case Store(id, req) => s.(config := Stores(s.config, req), calls := s.calls[id := Stored(req)])
    case Snap(id) => DoSnap(s, id)
    case Deliver(id) => DoDeliver(s, id)
    case EndLoop(id) => s.(calls := s.calls[id := Delivered(s.calls[id].req, s.calls[id].k)])
    case Clear(id) =>
      s.(changedMask := s.changedMask - s.taken[s.calls[id].k].changedMask, calls := s.calls - {id})
    case Wait(w, forwards) =>
      if !s.active then s.(completions := s.completions + [Completion(w, DeviceNotConnected, None)])
      else if forwards then s.(waiters := s.waiters + [w])
      else s.(completions := s.completions + [Completion(w, ForwardFailed, None)])
    case CancelWait(i) =>
      s.(waiters := Without(s.waiters, i), completions := s.completions + [Completion(s.waiters[i], Cancelled, None)])
    case Destroy =>
      s.(active := false, queueLive := false, waiters := [],
         completions := s.completions + seq(|s.waiters|, i requires 0 <= i < |s.waiters| =>
                                                           Completion(s.waiters[i], Cancelled, None)))
  }

  predicate Legal(s: State, run: seq<Step>)
    decreases |run|
  {
    run == [] || (Enabled(s, run[0]) && Legal(Apply(s, run[0]), run[1..]))
  }

  function Exec(s: State, run: seq<Step>): State
    requires Legal(s, run)
    decreases |run|
  {
    if run == [] then s else Exec(Apply(s, run[0]), run[1..])
  }

  function Initial(config: Config): State {
    State(true, true, 0, {}, config, [], map[], config, [], [])
  }

  /* ------------------------------------------------------------------- invariant */

  predicate HasSnapshot(c: Call) {
    !c.Stored?
  }

  /** Some call still in flight carries bit g in its snapshot. */
  ghost predicate Carried(s: State, g: Group) {
    exists id :: id in s.calls && HasSnapshot(s.calls[id]) && s.calls[id].k < |s.taken|
                 && g in s.taken[s.calls[id].k].changedMask
  }

  /** The configuration companion waiters were last told, or would have been. */
  function LastTold(s: State): Config {
    if s.taken == [] then s.first else s.taken[|s.taken|-1].config
  }

  /** Some handler has stored fields of group g and not yet signalled. */
  ghost predicate Untold(s: State, g: Group) {
    exists id :: id in s.calls && s.calls[id].Stored? && g in ChangedBits(s.calls[id].req)
  }

  ghost predicate CallsOk(s: State) {
    forall id | id in s.calls :: HasSnapshot(s.calls[id]) ==>
      && s.calls[id].k < |s.taken|
      && ChangedBits(s.calls[id].req) <= s.taken[s.calls[id].k].changedMask
  }

  predicate NumbersOk(s: State) {
    && s.sequenceNumber == |s.taken| % U32
    && forall i | 0 <= i < |s.taken| :: s.taken[i].sequenceNumber == (i + 1) % U32
  }

  ghost predicate Fresh(s: State) {
    s.active ==> forall g: Group :: Untold(s, g) || SameGroup(s.config, LastTold(s), g)
  }

  ghost predicate Inv(s: State) {
    && CallsOk(s)
    && NumbersOk(s)
    && (forall g | g in s.changedMask :: Carried(s, g))
    && Fresh(s)
    && s.queueLive == s.active
  }

  /** A handler stores no field outside the groups it announces. */
  lemma StoresOnlyAnnounced(c: Config, req: Request, g: Group)
    requires g !in ChangedBits(req)
    ensures SameGroup(Stores(c, req), c, g)
  {
  }

  lemma StoreKeeps(s: State, id: nat, req: Request)
    requires Inv(s) && Enabled(s, Store(id, req))
    ensures Inv(Apply(s, Store(id, req)))
  {
    var t := Apply(s, Store(id, req));
    forall g: Group | !Untold(t, g)
      ensures SameGroup(t.config, LastTold(t), g)
    {
      assert t.calls[id] == Stored(req);
      assert g !in ChangedBits(req);
      forall x | x in s.calls
        ensures t.calls[x] == s.calls[x]
      {
      }
      assert !Untold(s, g);
      StoresOnlyAnnounced(s.config, req, g);
    }
    forall g | g in t.changedMask
      ensures Carried(t, g)
    {
      var x :| x in s.calls && HasSnapshot(s.calls[x]) && s.calls[x].k < |s.taken|
               && g in s.taken[s.calls[x].k].changedMask;
      CarriedStays(s, t, g, x);
    }
  }

  /** A call keeps carrying the bits of its snapshot as long as it is in flight. */
  lemma CarriedStays(s: State, t: State, g: Group, id: nat)
    requires id in s.calls && HasSnapshot(s.calls[id]) && s.calls[id].k < |s.taken|
    requires g in s.taken[s.calls[id].k].changedMask
    requires |s.taken| <= |t.taken| && s.taken == t.taken[..|s.taken|]
    requires id in t.calls && HasSnapshot(t.calls[id]) && t.calls[id].k == s.calls[id].k
    ensures Carried(t, g)
  {
    assert t.taken[t.calls[id].k] == s.taken[s.calls[id].k];
  }

  /** Every bit of the mask stays carried if no call that has a snapshot leaves and no bit joins. */
  lemma MaskStaysCarried(s: State, t: State)
    requires forall g | g in s.changedMask :: Carried(s, g)
    requires t.changedMask <= s.changedMask && t.taken == s.taken
    requires forall id | id in s.calls && HasSnapshot(s.calls[id]) ::
               id in t.calls && HasSnapshot(t.calls[id]) && t.calls[id].k == s.calls[id].k
    ensures forall g | g in t.changedMask :: Carried(t, g)
  {
    forall g | g in t.changedMask
      ensures Carried(t, g)
    {
      var x :| x in s.calls && HasSnapshot(s.calls[x]) && s.calls[x].k < |s.taken|
               && g in s.taken[s.calls[x].k].changedMask;
      CarriedStays(s, t, g, x);
    }
  }

  /** Freshness depends only on the stored calls, the configuration and the last snapshot. */
  lemma FreshStays(s: State, t: State)
    requires Fresh(s) && (t.active ==> s.active)
    requires t.config == s.config && t.taken == s.taken && t.first == s.first
    requires forall id | id in s.calls && s.calls[id].Stored? :: id in t.calls && t.calls[id] == s.calls[id]
    ensures Fresh(t)
  {
    if t.active {
      forall g: Group | !Untold(t, g)
        ensures SameGroup(t.config, LastTold(t), g)
      {
        assert !Untold(s, g);
      }
    }
  }

  /** The new snapshot carries its own bits and all that the mask holds. */
  lemma SnapCarries(s: State, id: nat)
    requires Inv(s) && Enabled(s, Snap(id)) && s.active
    ensures CallsOk(DoSnap(s, id))
    ensures forall g | g in DoSnap(s, id).changedMask :: Carried(DoSnap(s, id), g)
  {
    var t := DoSnap(s, id);
    assert t.calls[id].k == |s.taken| && t.taken[|s.taken|].changedMask == t.changedMask;
  }

  lemma SnapNumbers(s: State, id: nat)
    requires NumbersOk(s) && Enabled(s, Snap(id)) && s.active
    ensures NumbersOk(DoSnap(s, id))
  {
    NextResidue(|s.taken|);
  }

  lemma NextResidue(n: nat)
    ensures (n % U32 + 1) % U32 == (n + 1) % U32
  {
    var q, r := n / U32, n % U32;
    if r + 1 < U32 {
      DivModUnique(n + 1, U32, q, r + 1);
    } else {
      DivModUnique(n + 1, U32, q + 1, 0);
    }
  }

  lemma SnapKeeps(s: State, id: nat)
    requires Inv(s) && Enabled(s, Snap(id))
    ensures Inv(DoSnap(s, id))
  {
    var t := DoSnap(s, id);
    if !s.active {
      MaskStaysCarried(s, t);
    } else {
      SnapCarries(s, id);
      SnapNumbers(s, id);
      assert LastTold(t) == t.config;
    }
  }

  lemma ClearKeeps(s: State, id: nat)
    requires Inv(s) && Enabled(s, Clear(id))
    ensures Inv(Apply(s, Clear(id)))
  {
    var t := Apply(s, Clear(id));
    forall g | g in t.changedMask
      ensures Carried(t, g)
    {
      var x :| x in s.calls && HasSnapshot(s.calls[x]) && s.calls[x].k < |s.taken|
               && g in s.taken[s.calls[x].k].changedMask;
      assert x != id;
      CarriedStays(s, t, g, x);
    }
    FreshStays(s, t);
  }

  /** The protocol invariant holds through every section of every handler, every wait and destroy. */
  lemma StepKeeps(s: State, step: Step)
    requires Inv(s) && Enabled(s, step)
    ensures Inv(Apply(s, step))
  {
    match step
    case Store(id, req) => StoreKeeps(s, id, req);
    case Snap(id) => SnapKeeps(s, id);
    case Clear(id) => ClearKeeps(s, id);
    case _ =>
      MaskStaysCarried(s, Apply(s, step));
      FreshStays(s, Apply(s, step));
  }

  lemma {:induction false} RunKeeps(s: State, run: seq<Step>)
    requires Inv(s) && Legal(s, run)
    ensures Inv(Exec(s, run))
    decreases |run|
  {
    if run != [] {
      StepKeeps(s, run[0]);
      RunKeeps(Apply(s, run[0]), run[1..]);
    }
  }

  /**
   For any number of interleaved calls: each set bit of ChangedMask lies in the snapshot of a
   call in flight, so the mask is empty whenever none is; and each call in flight carries its
   own bits.
   */
  lemma MaskIsCarriedByCalls(config: Config, run: seq<Step>)
    requires Legal(Initial(config), run)
    ensures var t := Exec(Initial(config), run);
            && (forall g | g in t.changedMask :: Carried(t, g))
            && (t.calls == map[] ==> t.changedMask == {})
            && (forall id | id in t.calls && HasSnapshot(t.calls[id]) ::
                  t.calls[id].k < |t.taken| && ChangedBits(t.calls[id].req) <= t.taken[t.calls[id].k].changedMask)
  {
    RunKeeps(Initial(config), run);
    var t := Exec(Initial(config), run);
    if t.calls == map[] {
      assert forall g :: !Carried(t, g);
      assert forall g :: g !in t.changedMask;
    }
  }

  /** Two snapshots share a sequence number exactly when a multiple of 2^32 changes lies between them. */
  lemma SequenceNumbersRepeatIff(config: Config, run: seq<Step>, i: nat, j: nat)
    requires Legal(Initial(config), run) && i < j < |Exec(Initial(config), run).taken|
    ensures var t := Exec(Initial(config), run);
            t.taken[i].sequenceNumber == t.taken[j].sequenceNumber <==> (j - i) % U32 == 0
  {
    RunKeeps(Initial(config), run);
    EqualResidues(i + 1, j + 1);
  }

  lemma EqualResidues(a: nat, b: nat)
    requires a <= b
    ensures a % U32 == b % U32 <==> (b - a) % U32 == 0
  {
    var qa, qb := a / U32, b / U32;
    if a % U32 == b % U32 {
      DivModUnique(b - a, U32, qb - qa, 0);
    }
    if (b - a) % U32 == 0 {
      var q := (b - a) / U32;
      assert b == U32 * (q + qa) + a % U32;
      DivModUnique(b, U32, q + qa, a % U32);
    }
  }

  /**
   Freshness: on an active pair a configuration group differs from the last snapshot only
   while some handler has stored it and not yet signalled; with no handler in flight the whole
   configuration is what the last snapshot says.
   */
  lemma LastSnapshotIsFresh(config: Config, run: seq<Step>)
    requires Legal(Initial(config), run) && Exec(Initial(config), run).active
    ensures var t := Exec(Initial(config), run);
            && (forall g: Group :: Untold(t, g) || SameGroup(t.config, LastTold(t), g))
            && (t.calls == map[] ==> t.config == LastTold(t))
  {
    RunKeeps(Initial(config), run);
    var t := Exec(Initial(config), run);
    if t.calls == map[] {
      AllGroupsSame(t.config, LastTold(t));
    }
  }

  lemma AllGroupsSame(c: Config, d: Config)
    requires forall g: Group :: SameGroup(c, d, g)
    ensures c == d
  {
    assert SameGroup(c, d, Baud) && SameGroup(c, d, LineCtrl) && SameGroup(c, d, Dtr) && SameGroup(c, d, Rts)
        && SameGroup(c, d, Break) && SameGroup(c, d, HandFlow) && SameGroup(c, d, Chars) && SameGroup(c, d, WaitMask);
  }

  /* --------------------------------------------------------- order of delivery */

  /** The snapshots handed to waiters, by their place, in the order of delivery. */
  function Told(completions: seq<Completion>): seq<nat> {
    if completions == [] then []
    else
      var last := completions[|completions|-1];
      Told(completions[..|completions|-1]) + (if last.k.Some? then [last.k.value] else [])
  }

  predicate Ascending(ks: seq<nat>) {
    forall i, j | 0 <= i < j < |ks| :: ks[i] <= ks[j]
  }

  lemma ToldSnoc(completions: seq<Completion>, c: Completion)
    ensures Told(completions + [c]) == Told(completions) + (if c.k.Some? then [c.k.value] else [])
  {
    assert (completions + [c])[..|completions|] == completions;
  }

  lemma {:induction false} ToldPlain(completions: seq<Completion>, more: seq<Completion>)
    requires forall c | c in more :: c.k == None
    ensures Told(completions + more) == Told(completions)
  {
    if more == [] {
      assert completions + more == completions;
    } else {
      var init, last := more[..|more|-1], more[|more|-1];
      ToldPlain(completions, init);
      assert completions + more == (completions + init) + [last];
      ToldSnoc(completions + init, last);
    }
  }
}
