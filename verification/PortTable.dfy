/**
 Port pairs, the table that lists them, the files that hold them and the two symlink
 namespaces. Memory is a pool of structs by address: a struct that was freed is no longer in
 the pool, so every dereference is proved to hit allocated memory. Control requests are
 serialised, and each callback is one step.
 */
module PortTable {
  import opened Prelude

  const MAX_PORTS: nat := 64

  datatype Slot = Null | Reserved | Ptr(id: nat)

  /** GCOM_PORT_PAIR: what is live of it, who opened it, how many references it has. A device has its queues. */
  datatype PortPair = PortPair(portNumber: nat, companionIndex: nat, active: bool,
                               comSideOpen: bool, companionSideOpen: bool, refCount: int,
                               rings: bool, locks: bool, comDevice: bool, compDevice: bool)

  datatype Side = Com | Companion

  /** A file context; pair is None when the create was rejected. */
  datatype File = File(side: Side, pair: Option<nat>)

  datatype World = World(ports: seq<Slot>, portCount: int, pool: map<nat, PortPair>, nextId: nat,
                         files: map<nat, File>, comLinks: set<nat>, gcomLinks: set<nat>)

  /* ---------------------------------------------------------------- behaviour */

  /** Slot i holds an active pair. */
  predicate SlotActive(w: World, i: nat)
    requires i < |w.ports|
  {
    w.ports[i].Ptr? && w.ports[i].id in w.pool && w.pool[w.ports[i].id].active
  }

  predicate SlotHasNumber(w: World, i: nat, n: nat)
    requires i < |w.ports|
  {
    SlotActive(w, i) && w.pool[w.ports[i].id].portNumber == n
  }

  predicate InUse(w: World, n: nat) {
    exists i | 0 <= i < |w.ports| :: SlotHasNumber(w, i, n)
  }

  /** Free in the table and in both symlink namespaces. */
  predicate NumberFree(w: World, n: nat) {
    !InUse(w, n) && n !in w.comLinks && n !in w.gcomLinks
  }

  /** GcomFindFreePortNumber from a candidate on: the least free number below 256, or 0. */
  function FreeNumber(w: World, candidate: nat): (n: nat)
    requires 1 <= candidate <= 256
    ensures n == 0 ==> forall c | candidate <= c < 256 :: !NumberFree(w, c)
    ensures n != 0 ==> candidate <= n < 256 && NumberFree(w, n) && forall c | candidate <= c < n :: !NumberFree(w, c)
    decreases 256 - candidate
  {
    if candidate == 256 then 0
    else if NumberFree(w, candidate) then candidate
    else FreeNumber(w, candidate + 1)
  }

  /** The least index of a NULL slot from i on, or the length of the table. */
  function FirstNull(ports: seq<Slot>, i: nat): (slot: nat)
    requires i <= |ports|
    ensures i <= slot <= |ports|
    ensures forall j | i <= j < slot :: !ports[j].Null?
    ensures slot < |ports| ==> ports[slot].Null?
    decreases |ports| - i
  {
    if i == |ports| || ports[i].Null? then i else FirstNull(ports, i + 1)
  }

  /** Where GcomPortPairCreate may fail for reasons outside the table. */
  datatype Fault =
    | NoFault
    | PairAllocation
    | FirstRing
    | SecondRing
    | SignalLock
    | DataLock
    | ComDevice
    | CompanionDevice

  /** The number a create would use, or why it stops before reserving a slot. */
  function Choose(w: World, requested: nat): (NtStatus, nat) {
    if FirstNull(w.ports, 0) == |w.ports| then (InsufficientResources, 0)
    else if requested != 0 then
      if InUse(w, requested) || requested in w.comLinks then (ObjectNameCollision, 0) else (Success, requested)
    else
      var n := FreeNumber(w, 1);
      if n == 0 then (InsufficientResources, 0) else (Success, n)
  }

  /** Faults before the COM device can be seen. */
  predicate Early(fault: Fault) {
    !fault.NoFault? && !fault.CompanionDevice?
  }

  function EarlyStatus(fault: Fault): NtStatus {
    if fault.PairAllocation? || fault.FirstRing? || fault.SecondRing? then InsufficientResources else DeviceFailed
  }

  /** How a create ends once its COM device can be seen. */
  function FinishStatus(n: nat, companionFails: bool, gcomLinks: set<nat>): NtStatus {
    if companionFails then DeviceFailed else if n in gcomLinks then ObjectNameCollision else Success
  }

  /** How a create ends once it has a number. */
  function InstallStatus(n: nat, fault: Fault, gcomLinks: set<nat>): NtStatus {
    if Early(fault) then EarlyStatus(fault) else FinishStatus(n, fault.CompanionDevice?, gcomLinks)
  }

  function CreateStatus(w: World, requested: nat, fault: Fault): NtStatus {
    var (status, n) := Choose(w, requested);
    if status == Success then InstallStatus(n, fault, w.gcomLinks) else status
  }

  function NewPair(n: nat): PortPair {
    PortPair(n, n, true, false, false, 1, true, true, true, true)
  }

  /** A pair with number n installed in a slot. */
  function InstalledAt(w: World, slot: nat, n: nat): World
    requires slot < |w.ports|
  {
    w.(ports := w.ports[slot := Ptr(w.nextId)], portCount := w.portCount + 1,
       pool := w.pool[w.nextId := NewPair(n)], nextId := w.nextId + 1,
       comLinks := w.comLinks + {n}, gcomLinks := w.gcomLinks + {n})
  }

  /** A successful create takes the first NULL slot. */
  function Installed(w: World, n: nat): World
    requires FirstNull(w.ports, 0) < |w.ports|
  {
    InstalledAt(w, FirstNull(w.ports, 0), n)
  }

  /** The pair as it can first be seen: in its slot, active, with a COM device and no companion. */
  function PublishedAt(w: World, slot: nat, n: nat): World
    requires slot < |w.ports|
  {
    w.(ports := w.ports[slot := Ptr(w.nextId)], portCount := w.portCount + 1,
       pool := w.pool[w.nextId := NewPair(n).(compDevice := false)], nextId := w.nextId + 1,
       comLinks := w.comLinks + {n})
  }

  /** The companion device of pair id with its link. */
  function Completed(w: World, id: nat): World
    requires id in w.pool
  {
    w.(pool := w.pool[id := w.pool[id].(compDevice := true)], gcomLinks := w.gcomLinks + {w.pool[id].companionIndex})
  }

  /**
   The fail_cleanup exit after the COM device was seen: the slot is released and the struct is
   freed whatever its reference count, so that its address may be handed out again.
   */
  function Abandoned(w: World, slot: nat, id: nat): World
    requires slot < |w.ports| && id in w.pool
  {
    w.(ports := w.ports[slot := Null], portCount := w.portCount - 1, pool := w.pool - {id}, nextId := id,
       comLinks := w.comLinks - {w.pool[id].portNumber})
  }

  function Create(w: World, requested: nat, fault: Fault): World {
    if CreateStatus(w, requested, fault) == Success then Installed(w, Choose(w, requested).1) else w
  }

  /** t is w with pair id created in the first NULL slot, under the requested number or else the least free one. */
  ghost predicate CreatedAs(w: World, t: World, id: nat, requested: nat) {
    && id !in w.pool && id in t.pool && t.pool == w.pool[id := t.pool[id]] && t.files == w.files
    && (exists slot :: 0 <= slot < |w.ports| && w.ports[slot].Null?
                       && (forall i | 0 <= i < slot :: !w.ports[i].Null?) && t.ports == w.ports[slot := Ptr(id)])
    && t.portCount == w.portCount + 1
    && var p := t.pool[id];
       && p.active && !p.comSideOpen && !p.companionSideOpen && p.refCount == 1
       && NumberFree(w, p.portNumber) && p.companionIndex == p.portNumber
       && (requested != 0 ==> p.portNumber == requested)
       && (requested == 0 ==> 1 <= p.portNumber < 256 && forall c | 1 <= c < p.portNumber :: !NumberFree(w, c))
       && t.comLinks == w.comLinks + {p.portNumber} && t.gcomLinks == w.gcomLinks + {p.portNumber}
  }

  /** A pair torn down, its creation reference dropped. */
  function Dead(p: PortPair): PortPair {
    p.(active := false, rings := false, locks := false, comDevice := false, compDevice := false, refCount := p.refCount - 1)
  }

  /** The pool after the pairs in ids were destroyed: those without other references are freed. */
  function PoolAfter(pool: map<nat, PortPair>, ids: set<nat>): map<nat, PortPair> {
    map id | id in pool && (id in ids ==> pool[id].refCount != 1) :: if id in ids then Dead(pool[id]) else pool[id]
  }

  function PortsAfter(ports: seq<Slot>, ids: set<nat>): (r: seq<Slot>)
    ensures |r| == |ports|
  {
    seq(|ports|, i requires 0 <= i < |ports| => if ports[i].Ptr? && ports[i].id in ids then Null else ports[i])
  }

  function NumbersOf(pool: map<nat, PortPair>, ids: set<nat>): set<nat> {
    set id | id in ids && id in pool :: pool[id].portNumber
  }

  function CompanionsOf(pool: map<nat, PortPair>, ids: set<nat>): set<nat> {
    set id | id in ids && id in pool :: pool[id].companionIndex
  }

  /** The pairs in ids removed from the table and destroyed. */
  function DestroyIds(w: World, ids: set<nat>): World {
    w.(ports := PortsAfter(w.ports, ids), portCount := NonNull(PortsAfter(w.ports, ids)),
       pool := PoolAfter(w.pool, ids),
       comLinks := w.comLinks - NumbersOf(w.pool, ids), gcomLinks := w.gcomLinks - CompanionsOf(w.pool, ids))
  }

  function NonNull(ports: seq<Slot>): nat {
    if ports == [] then 0
    else NonNull(ports[..|ports|-1]) + (if ports[|ports|-1].Null? then 0 else 1)
  }

  /** Slot i holds an active pair that answers to companion index n. */
  predicate SlotMatches(w: World, i: nat, n: nat)
    requires i < |w.ports|
  {
    SlotActive(w, i) && w.pool[w.ports[i].id].companionIndex == n
  }

  function Matching(w: World, n: nat): set<nat> {
    set i | 0 <= i < |w.ports| && SlotMatches(w, i, n) :: w.ports[i].id
  }

  /** The active pairs in the first n slots. */
  function ActiveBelow(w: World, n: nat): set<nat>
    requires n <= |w.ports|
  {
    set i | 0 <= i < n && SlotActive(w, i) :: w.ports[i].id
  }

  function ActiveIds(w: World): set<nat> {
    ActiveBelow(w, |w.ports|)
  }

  /** GcomComEvtFileCreate and GcomCompEvtFileCreate on the device of pair id. */
  function Open(w: World, f: nat, side: Side, id: nat): (World, NtStatus)
    requires id in w.pool
  {
    var p := w.pool[id];
    if !p.active then (w.(files := w.files[f := File(side, None)]), DeviceNotConnected)
    else if (if side.Com? then p.comSideOpen else p.companionSideOpen) then
      (w.(files := w.files[f := File(side, None)]), SharingViolation)
    else
      var p' := if side.Com? then p.(comSideOpen := true) else p.(companionSideOpen := true);
      (w.(pool := w.pool[id := p'.(refCount := p.refCount + 1)], files := w.files[f := File(side, Some(id))]), Success)
  }

  /** GcomPortPairRelease. */
  function Release(pool: map<nat, PortPair>, id: nat): map<nat, PortPair>
    requires id in pool
  {
    if pool[id].refCount == 1 then pool - {id}
    else pool[id := pool[id].(refCount := pool[id].refCount - 1)]
  }

  /** GcomComEvtFileClose and GcomCompEvtFileClose. */
  function Close(w: World, f: nat): World
    requires f in w.files && (w.files[f].pair.Some? ==> w.files[f].pair.value in w.pool)
  {
    match w.files[f].pair
    case None => w.(files := w.files - {f})
    case Some(id) =>
      var p := w.pool[id];
      var p' := if w.files[f].side.Com? then p.(comSideOpen := false)
                else if p.active then p.(companionSideOpen := false) else p;
      w.(pool := Release(w.pool[id := p'], id), files := w.files - {f})
  }

  datatype Step =
    | CreatePort(requested: nat, fault: Fault)
    | DestroyPort(companionIndex: nat)
    | Cleanup
    | OpenFile(f: nat, side: Side, id: nat)
    | CloseFile(f: nat)
    | ForeignLinks(comLinks: set<nat>, gcomLinks: set<nat>)   // what other drivers own now

  /** The COM links held by our devices. */
  function OwnComLinks(w: World): set<nat> {
    set id | id in w.pool && w.pool[id].comDevice :: w.pool[id].portNumber
  }

  /** The GCOM links held by our devices. */
  function OwnGcomLinks(w: World): set<nat> {
    set id | id in w.pool && w.pool[id].compDevice :: w.pool[id].companionIndex
  }

  predicate HasDevice(p: PortPair, side: Side) {
    if side.Com? then p.comDevice else p.compDevice
  }

  /** An open reaches a pair only through the device of its side; other drivers leave our links alone. */
  predicate Enabled(w: World, step: Step) {
    match step
    case OpenFile(f, side, id) => f !in w.files && id in w.pool && HasDevice(w.pool[id], side)
    case CloseFile(f) => f in w.files && (w.files[f].pair.Some? ==> w.files[f].pair.value in w.pool)
    case ForeignLinks(comLinks, gcomLinks) =>
      comLinks !! OwnComLinks(w) && gcomLinks !! OwnGcomLinks(w)
    case _ => true
  }

  function Apply(w: World, step: Step): World
    requires Enabled(w, step)
  {
    match step
    case CreatePort(requested, fault) => Create(w, requested, fault)
    case DestroyPort(n) => DestroyIds(w, Matching(w, n))
    case Cleanup => DestroyIds(w, ActiveIds(w))
    case OpenFile(f, side, id) => Open(w, f, side, id).0
    case CloseFile(f) => Close(w, f)
    case ForeignLinks(comLinks, gcomLinks) =>
      w.(comLinks := comLinks + OwnComLinks(w), gcomLinks := gcomLinks + OwnGcomLinks(w))
  }

  predicate Legal(w: World, run: seq<Step>)
    decreases |run|
  {
    run == [] || (Enabled(w, run[0]) && Legal(Apply(w, run[0]), run[1..]))
  }

  function Exec(w: World, run: seq<Step>): World
    requires Legal(w, run)
    decreases |run|
  {
    if run == [] then w else Exec(Apply(w, run[0]), run[1..])
  }

  function Initial(comLinks: set<nat>, gcomLinks: set<nat>): World {
    World(seq(MAX_PORTS, _ => Null), 0, map[], 0, map[], comLinks, gcomLinks)
  }

  /* ------------------------------------------------------------------ invariant */

  /** The files that hold a reference to pair id. */
  function Holders(files: map<nat, File>, id: nat): set<nat> {
    set f | f in files && files[f].pair == Some(id)
  }

  function SideHolders(files: map<nat, File>, id: nat, side: Side): set<nat> {
    set f | f in files && files[f] == File(side, Some(id))
  }

  ghost predicate Listed(w: World, id: nat) {
    exists i :: 0 <= i < |w.ports| && w.ports[i] == Ptr(id)
  }

  /** Every pointer in the table may be dereferenced. */
  ghost predicate PointersLive(w: World) {
    forall i | 0 <= i < |w.ports| && w.ports[i].Ptr? :: w.ports[i].id in w.pool
  }

  /** Each slot is NULL or points to an allocated active pair; no pair and no number is listed twice. */
  ghost predicate TableOk(w: World) {
    && |w.ports| == MAX_PORTS
    && w.portCount == NonNull(w.ports)
    && (forall i | 0 <= i < |w.ports| :: !w.ports[i].Reserved?)
    && (forall i | 0 <= i < |w.ports| && w.ports[i].Ptr? :: w.ports[i].id in w.pool && w.pool[w.ports[i].id].active)
    && (forall i, j | 0 <= i < j < |w.ports| && w.ports[i].Ptr? && w.ports[j].Ptr? :: w.ports[i].id != w.ports[j].id)
  }

  /** Active pairs are listed, own their number in both namespaces, and share it with no other. */
  ghost predicate NumbersOk(w: World) {
    && (forall id | id in w.pool && w.pool[id].active ::
          Listed(w, id) && w.pool[id].companionIndex == w.pool[id].portNumber
          && w.pool[id].portNumber in w.comLinks && w.pool[id].portNumber in w.gcomLinks)
    && (forall a, b | a in w.pool && b in w.pool && w.pool[a].active && w.pool[b].active ::
          w.pool[a].portNumber == w.pool[b].portNumber ==> a == b)
  }

  /** Reference counts, and what a pair that can still be reached has alive. */
  ghost predicate RefsOk(w: World) {
    && (forall id | id in w.pool ::
          && id < w.nextId
          && w.pool[id].refCount == (if w.pool[id].active then 1 else 0) + |Holders(w.files, id)|
          && w.pool[id].refCount >= 1
          && (w.pool[id].active <==> w.pool[id].rings)
          && (w.pool[id].active <==> w.pool[id].locks)
          && (w.pool[id].active <==> w.pool[id].comDevice)
          && (w.pool[id].active <==> w.pool[id].compDevice))
    && (forall f | f in w.files && w.files[f].pair.Some? :: w.files[f].pair.value in w.pool)
  }

  predicate SideOpen(p: PortPair, side: Side) {
    if side.Com? then p.comSideOpen else p.companionSideOpen
  }

  /** The side's flag tells whether one file, and no more than one, holds it. */
  ghost predicate SideOk(w: World, id: nat, side: Side)
    requires id in w.pool
  {
    && (forall f, g | f in SideHolders(w.files, id, side) && g in SideHolders(w.files, id, side) :: f == g)
    && (SideOpen(w.pool[id], side) <==> SideHolders(w.files, id, side) != {})
  }

  ghost predicate OpensOk(w: World) {
    forall id | id in w.pool && w.pool[id].active :: SideOk(w, id, Com) && SideOk(w, id, Companion)
  }

  ghost predicate Inv(w: World) {
    TableOk(w) && NumbersOk(w) && RefsOk(w) && OpensOk(w)
  }
}
