/** The port table as the driver keeps it: an array of slots scanned and changed in place. */
module DeviceContexts {
  import opened Prelude
  import opened PortTable
  import opened PortTableRuns

  class DeviceContext {
    const ports: array<Slot>
    var portCount: int
    /** Allocated GCOM_PORT_PAIR structs, by address. */
    var pool: map<nat, PortPair>
    var nextId: nat
    var files: map<nat, File>
    var comLinks: set<nat>
    var gcomLinks: set<nat>

    function Abs(): World
      reads this, ports
    {
      World(ports[..], portCount, pool, nextId, files, comLinks, gcomLinks)
    }

    constructor (comLinks: set<nat>, gcomLinks: set<nat>)
      ensures fresh(ports) && Abs() == Initial(comLinks, gcomLinks) && Inv(Abs())
    {
      ports := new Slot[MAX_PORTS](_ => Null);
      portCount, pool, nextId, files := 0, map[], 0, map[];
      this.comLinks, this.gcomLinks := comLinks, gcomLinks;
      new;
      assert ports[..] == seq(MAX_PORTS, _ => Null);
      InitialOk(comLinks, gcomLinks);
    }

    /** Whether an active pair of the table answers to n. */
    method ScanForNumber(n: nat) returns (inUse: bool)
      requires PointersLive(Abs())
      ensures inUse == InUse(Abs(), n)
    {
      inUse := false;
      for i := 0 to ports.Length
        invariant !inUse && forall j | 0 <= j < i :: !SlotHasNumber(Abs(), j, n)
      {
        if ports[i].Ptr? && pool[ports[i].id].active && pool[ports[i].id].portNumber == n {
          assert SlotHasNumber(Abs(), i, n);
          return true;
        }
      }
    }

    /** GcomFindFreePortNumber: the least number in 1..255 free everywhere, or 0. */
    method FindFreePortNumber() returns (n: nat)
      requires PointersLive(Abs())
      ensures n == FreeNumber(Abs(), 1)
      ensures n == 0 ==> forall c | 1 <= c < 256 :: !NumberFree(Abs(), c)
      ensures n != 0 ==> n < 256 && NumberFree(Abs(), n) && forall c | 1 <= c < n :: !NumberFree(Abs(), c)
    {
      var candidate := 1;
      while candidate < 256
        invariant 1 <= candidate <= 256 && FreeNumber(Abs(), candidate) == FreeNumber(Abs(), 1)
      {
        var inUse := ScanForNumber(candidate);
        if !inUse && candidate !in comLinks && candidate !in gcomLinks {
          return candidate;
        }
        candidate := candidate + 1;
      }
      return 0;
    }

    method FindNullSlot() returns (slot: nat)
      ensures slot == FirstNull(ports[..], 0)
    {
      slot := 0;
      while slot < ports.Length && !ports[slot].Null?
        invariant slot <= ports.Length && FirstNull(ports[..], slot) == FirstNull(ports[..], 0)
      {
        slot := slot + 1;
      }
    }

    /** The fail_alloc exit: releases the slot only if it still holds the sentinel. */
    method FailAlloc(slotIndex: nat, pp: nat)
      requires slotIndex < ports.Length && pp in pool
      modifies this`portCount, this`pool, ports
      ensures pool == old(pool) - {pp}
      ensures ports[..] == if old(ports[slotIndex]).Reserved? then old(ports[..])[slotIndex := Null] else old(ports[..])
      ensures portCount == old(portCount) - (if old(ports[slotIndex]).Reserved? then 1 else 0)
    {
      if ports[slotIndex] == Reserved {
        ports[slotIndex] := Null;
        portCount := portCount - 1;
      }
      pool := pool - {pp};
    }

    /** GcomPortPairCreate, with every exit; a create that fails with nobody in between leaves everything as it was. */
    method PairCreate(requested: nat, fault: Fault) returns (status: NtStatus, created: Option<nat>)
      requires ports.Length == MAX_PORTS && nextId !in pool && PointersLive(Abs())
      modifies this, ports
      ensures status == CreateStatus(old(Abs()), requested, fault)
      ensures Abs() == Create(old(Abs()), requested, fault)
      ensures status != Success ==> Abs() == old(Abs()) && created == None
      ensures status == Success ==>
                created == Some(old(nextId)) && CreatedAs(old(Abs()), Abs(), created.value, requested)
    {
      ghost var w := Abs();
      CreateOutcome(w, requested, fault);
      hide CreatedAs;
      var slotIndex, pp;
      status, slotIndex, pp := PairPublish(requested, fault);
      if status != Success {
        return status, None;
      }
      PublishedThenFinished(w, slotIndex, Choose(w, requested).1);
      status := FinishCreate(slotIndex, pp, fault.CompanionDevice?);
      created := if status == Success then Some(pp) else None;
    }

    /** GcomPortPairCreate until the COM device can be seen. */
    method PairPublish(requested: nat, fault: Fault) returns (status: NtStatus, slotIndex: nat, pp: nat)
      requires ports.Length == MAX_PORTS && nextId !in pool && PointersLive(Abs())
      modifies this, ports
      ensures var (chosen, n) := Choose(old(Abs()), requested);
              && status == (if chosen != Success then chosen else if Early(fault) then EarlyStatus(fault) else Success)
              && (status == Success ==>
                    && slotIndex == FirstNull(old(ports[..]), 0) && slotIndex < ports.Length && pp == old(nextId)
                    && n !in old(comLinks) && Abs() == PublishedAt(old(Abs()), slotIndex, n)
                    && (requested != 0 ==> n == requested && !InUse(old(Abs()), n))
                    && (requested == 0 ==> 1 <= n < 256 && NumberFree(old(Abs()), n)
                                           && forall c | 1 <= c < n :: !NumberFree(old(Abs()), c)))
      ensures status != Success ==> Abs() == old(Abs())
    {
      pp := nextId;
      slotIndex := FindNullSlot();
      if slotIndex == MAX_PORTS {
        return InsufficientResources, slotIndex, pp;
      }
      var portNumber;
      if requested != 0 {
        var inUse := ScanForNumber(requested);
        if inUse || requested in comLinks {
          return ObjectNameCollision, slotIndex, pp;
        }
        portNumber := requested;
      } else {
        portNumber := FindFreePortNumber();
        if portNumber == 0 {
          return InsufficientResources, slotIndex, pp;
        }
      }
      status := PairInstall(slotIndex, portNumber, fault);
    }

    /** From the reservation of the slot to the COM device, with the exits in between. */
    method PairInstall(slotIndex: nat, portNumber: nat, fault: Fault) returns (status: NtStatus)
      requires slotIndex < ports.Length && ports[slotIndex] == Null
      requires nextId !in pool && portNumber !in comLinks
      modifies this, ports
      ensures status == if Early(fault) then EarlyStatus(fault) else Success
      ensures status != Success ==> Abs() == old(Abs())
      ensures status == Success ==> Abs() == PublishedAt(old(Abs()), slotIndex, portNumber)
    {
      ghost var slots, pairs := ports[..], pool;
      var companionIndex := portNumber;
      ports[slotIndex] := Reserved;
      portCount := portCount + 1;
      if fault.PairAllocation? {
        ports[slotIndex] := Null;
        portCount := portCount - 1;
        assert ports[..] == slots;
        return InsufficientResources;
      }
      var pp := nextId;
      pool := pool[pp := PortPair(portNumber, companionIndex, true, false, false, 1, false, false, false, false)];
      status := PairInit(slotIndex, pp, fault);
      assert slots[slotIndex := Reserved][slotIndex := Null] == slots;
      assert slots[slotIndex := Reserved][slotIndex := Ptr(pp)] == slots[slotIndex := Ptr(pp)];
      if status == Success {
        nextId := nextId + 1;
        assert pool == pairs[pp := NewPair(portNumber).(compDevice := false)];
      } else {
        assert pool == pairs;
      }
    }

    /** From the zeroed struct on: rings and locks, the real pointer in the table, the COM device with its link. */
    method PairInit(slotIndex: nat, pp: nat, fault: Fault) returns (status: NtStatus)
      requires slotIndex < ports.Length && ports[slotIndex] == Reserved && !fault.PairAllocation? && pp in pool
      requires var n := pool[pp].portNumber;
               n !in comLinks && pool[pp] == PortPair(n, n, true, false, false, 1, false, false, false, false)
      modifies this`portCount, this`pool, this`comLinks, ports
      ensures var n := old(pool)[pp].portNumber;
              && status == (if Early(fault) then EarlyStatus(fault) else Success)
              && (status == Success ==>
                    && ports[..] == old(ports[..])[slotIndex := Ptr(pp)] && portCount == old(portCount)
                    && pool == old(pool)[pp := NewPair(n).(compDevice := false)]
                    && comLinks == old(comLinks) + {n})
              && (status != Success ==>
                    && ports[..] == old(ports[..])[slotIndex := Null] && portCount == old(portCount) - 1
                    && pool == old(pool) - {pp} && comLinks == old(comLinks))
    {
      ghost var slots, pairs := ports[..], pool;
      if fault.FirstRing? || fault.SecondRing? || fault.SignalLock? || fault.DataLock? {
        FailAlloc(slotIndex, pp);
        return if fault.FirstRing? || fault.SecondRing? then InsufficientResources else DeviceFailed;
      }
      pool := pool[pp := pool[pp].(rings := true, locks := true)];
      ports[slotIndex] := Ptr(pp);
      assert ports[..] == slots[slotIndex := Ptr(pp)];
      if fault.ComDevice? {
        FailCleanup(slotIndex, pp);
        assert slots[slotIndex := Ptr(pp)][slotIndex := Null] == slots[slotIndex := Null];
        assert pool == pairs - {pp};
        return DeviceFailed;
      }
      comLinks := comLinks + {pool[pp].portNumber};
      pool := pool[pp := pool[pp].(comDevice := true)];
      assert pool == pairs[pp := pool[pp]];
      return Success;
    }

    /** The companion device with its link, or the fail_cleanup exit, whoever opened the COM device meanwhile. */
    method FinishCreate(slotIndex: nat, pp: nat, companionFails: bool) returns (status: NtStatus)
      requires slotIndex < ports.Length && ports[slotIndex] == Ptr(pp) && pp in pool
      modifies this, ports
      ensures status == FinishStatus(old(pool)[pp].companionIndex, companionFails, old(gcomLinks))
      ensures Abs() == if status == Success then Completed(old(Abs()), pp) else Abandoned(old(Abs()), slotIndex, pp)
    {
      if companionFails || pool[pp].companionIndex in gcomLinks {
        comLinks := comLinks - {pool[pp].portNumber};
        FailCleanup(slotIndex, pp);
        nextId := pp;
        return if companionFails then DeviceFailed else ObjectNameCollision;
      }
      gcomLinks := gcomLinks + {pool[pp].companionIndex};
      pool := pool[pp := pool[pp].(compDevice := true)];
      return Success;
    }

    /** fail_cleanup: takes the real pointer out of the table, then falls into fail_alloc. */
    method FailCleanup(slotIndex: nat, pp: nat)
      requires slotIndex < ports.Length && ports[slotIndex] == Ptr(pp) && pp in pool
      modifies this`portCount, this`pool, ports
      ensures ports[..] == old(ports[..])[slotIndex := Null] && portCount == old(portCount) - 1
      ensures pool == old(pool) - {pp}
    {
      ports[slotIndex] := Null;
      portCount := portCount - 1;
      FailAlloc(slotIndex, pp);
    }

    /** GcomPortPairRelease: frees the struct with its last reference. */
    method ReleasePair(id: nat)
      requires id in pool
      modifies this`pool
      ensures pool == Release(old(pool), id)
    {
      var newCount := pool[id].refCount - 1;
      pool := pool[id := pool[id].(refCount := newCount)];
      if newCount == 0 {
        pool := pool - {id};
        assert pool == old(pool) - {id};
      }
    }

    /** GcomPortPairDestroy; its own scan removes the pair at most once more, so never counts it twice. */
    method PairDestroy(id: nat)
      requires id in pool
      requires forall i, j | 0 <= i < j < ports.Length :: !(ports[i] == Ptr(id) && ports[j] == Ptr(id))
      modifies this`portCount, this`pool, this`comLinks, this`gcomLinks, ports
      ensures ports[..] == PortsAfter(old(ports[..]), {id})
      ensures portCount == old(portCount) - (NonNull(old(ports[..])) - NonNull(ports[..]))
      ensures pool == PoolAfter(old(pool), {id})
      ensures comLinks == old(comLinks) - {old(pool)[id].portNumber}
      ensures gcomLinks == old(gcomLinks) - {old(pool)[id].companionIndex}
    {
      pool := pool[id := pool[id].(active := false)];
      RemoveFromTable(id);
      TearDown(id);
      assert pool == old(pool)[id := Dead(old(pool)[id]).(refCount := old(pool)[id].refCount)];
      DeadIsReleased(old(pool), id);
      ReleasePair(id);
    }

    /** Devices with their queues and symlinks, rings and locks go. */
    method TearDown(id: nat)
      requires id in pool
      modifies this`pool, this`comLinks, this`gcomLinks
      ensures var pair := old(pool)[id];
              pool == old(pool)[id := pair.(comDevice := false, compDevice := false, rings := false, locks := false)]
      ensures comLinks == old(comLinks) - {old(pool)[id].portNumber}
      ensures gcomLinks == old(gcomLinks) - {old(pool)[id].companionIndex}
    {
      var pair := pool[id];
      comLinks := comLinks - {pair.portNumber};
      pair := pair.(comDevice := false);
      gcomLinks := gcomLinks - {pair.companionIndex};
      pair := pair.(compDevice := false);
      pair := pair.(rings := false);
      pair := pair.(locks := false);
      pool := pool[id := pair];
    }

    method RemoveFromTable(id: nat)
      requires forall i, j | 0 <= i < j < ports.Length :: !(ports[i] == Ptr(id) && ports[j] == Ptr(id))
      modifies this`portCount, ports
      ensures ports[..] == PortsAfter(old(ports[..]), {id})
      ensures portCount == old(portCount) - (NonNull(old(ports[..])) - NonNull(ports[..]))
    {
      ghost var slots := ports[..];
      for i := 0 to ports.Length
        invariant ports[..] == slots && portCount == old(portCount)
        invariant forall j | 0 <= j < i :: slots[j] != Ptr(id)
      {
        if ports[i] == Ptr(id) {
          ports[i] := Null;
          portCount := portCount - 1;
          NonNullUpdate(slots, i, Null);
          assert ports[..] == slots[i := Null];
          assert ports[..] == PortsAfter(slots, {id});
          return;
        }
      }
      assert PortsAfter(slots, {id}) == slots;
    }

    /** GcomHandleDestroyPort. */
    method DestroyPortIoctl(companionIndex: nat) returns (status: NtStatus)
      requires TableOk(Abs()) && DistinctCompanions(Abs())
      modifies this, ports
      ensures Abs() == DestroyIds(old(Abs()), Matching(old(Abs()), companionIndex))
      ensures status == if Matching(old(Abs()), companionIndex) == {} then NotFound else Success
    {
      ghost var w := Abs();
      var i := 0;
      while i < ports.Length
        invariant i <= ports.Length && Abs() == w
        invariant forall j | 0 <= j < i :: !SlotMatches(w, j, companionIndex)
      {
        if ports[i].Ptr? && pool[ports[i].id].companionIndex == companionIndex && pool[ports[i].id].active {
          OnlyMatch(w, i, companionIndex);
          RemoveAndDestroy(i);
          return Success;
        }
        i := i + 1;
      }
      NoMatch(w, companionIndex);
      NothingRemoved(w);
      return NotFound;
    }

    /** The matched slot is cleared and counted, the pair marked inactive, then destroyed. */
    method RemoveAndDestroy(i: nat)
      requires i < ports.Length && ports[i].Ptr? && TableOk(Abs())
      modifies this, ports
      ensures old(ports[i]).id in old(pool) && Abs() == DestroyIds(old(Abs()), {old(ports[i]).id})
    {
      ghost var w := Abs();
      var portPair := ports[i].id;
      ports[i] := Null;
      portCount := portCount - 1;
      pool := pool[portPair := pool[portPair].(active := false)];
      NonNullUpdate(w.ports, i, Null);
      assert ports[..] == w.ports[i := Null];
      SlotRemoved(w, i);
      PairDestroy(portPair);
      OneDestroyed(w, portPair);
    }

    /** GcomEvtSelfManagedIoCleanup: clears the table, then destroys what was in it. */
    method SelfManagedIoCleanup()
      requires TableOk(Abs())
      modifies this, ports
      ensures Abs() == DestroyIds(old(Abs()), ActiveIds(old(Abs()))) && portCount == 0
    {
      ghost var w := Abs();
      var toDestroy := ClearTable();
      forall id | id in toDestroy
        ensures id in w.pool
      {
        assert id in Elements(toDestroy);
      }
      DestroyListed(toDestroy, w);
      AllNull(w);
    }

    /** The second loop of the cleanup. */
    method DestroyListed(toDestroy: seq<nat>, ghost w: World)
      requires forall id | id in toDestroy :: id in w.pool
      requires forall i, j | 0 <= i < j < |toDestroy| :: toDestroy[i] != toDestroy[j]
      requires forall i | 0 <= i < ports.Length :: ports[i] == Null
      requires pool == w.pool && comLinks == w.comLinks && gcomLinks == w.gcomLinks
      modifies this`portCount, this`pool, this`comLinks, this`gcomLinks, ports
      ensures ports[..] == old(ports[..]) && portCount == old(portCount)
      ensures pool == PoolAfter(w.pool, Elements(toDestroy))
      ensures comLinks == w.comLinks - NumbersOf(w.pool, Elements(toDestroy))
      ensures gcomLinks == w.gcomLinks - CompanionsOf(w.pool, Elements(toDestroy))
    {
      ghost var empty := ports[..];
      NothingDestroyed(w);
      assert Elements(toDestroy[..0]) == {};
      for k := 0 to |toDestroy|
        invariant ports[..] == empty && portCount == old(portCount)
        invariant pool == PoolAfter(w.pool, Elements(toDestroy[..k]))
        invariant comLinks == w.comLinks - NumbersOf(w.pool, Elements(toDestroy[..k]))
        invariant gcomLinks == w.gcomLinks - CompanionsOf(w.pool, Elements(toDestroy[..k]))
      {
        ElementsSnoc(toDestroy, k);
        DestroyNext(toDestroy[k], w, Elements(toDestroy[..k]));
      }
      assert toDestroy[..|toDestroy|] == toDestroy;
    }

    method DestroyNext(id: nat, ghost w: World, ghost done: set<nat>)
      requires id in w.pool && id !in done && pool == PoolAfter(w.pool, done)
      requires comLinks == w.comLinks - NumbersOf(w.pool, done)
      requires gcomLinks == w.gcomLinks - CompanionsOf(w.pool, done)
      requires forall i | 0 <= i < ports.Length :: ports[i] == Null
      modifies this`portCount, this`pool, this`comLinks, this`gcomLinks, ports
      ensures ports[..] == old(ports[..]) && portCount == old(portCount)
      ensures pool == PoolAfter(w.pool, done + {id})
      ensures comLinks == w.comLinks - NumbersOf(w.pool, done + {id})
      ensures gcomLinks == w.gcomLinks - CompanionsOf(w.pool, done + {id})
    {
      OneMore(w, done, id);
      pool := pool[id := pool[id].(active := false)];
      PairDestroy(id);
      assert ports[..] == old(ports[..]);
    }

    /** The first loop of the cleanup, under the table lock. */
    method ClearTable() returns (toDestroy: seq<nat>)
      requires TableOk(Abs())
      modifies this`portCount, ports
      ensures Elements(toDestroy) == ActiveIds(old(Abs()))
      ensures forall i, j | 0 <= i < j < |toDestroy| :: toDestroy[i] != toDestroy[j]
      ensures ports[..] == PortsAfter(old(ports[..]), ActiveIds(old(Abs())))
      ensures forall i | 0 <= i < ports.Length :: ports[i] == Null
      ensures portCount == NonNull(ports[..])
    {
      ghost var w := Abs();
      toDestroy := [];
      for i := 0 to ports.Length
        invariant portCount == NonNull(ports[..])
        invariant forall j | 0 <= j < i :: ports[j] == Null
        invariant forall j | i <= j < ports.Length :: ports[j] == w.ports[j]
        invariant Elements(toDestroy) == ActiveBelow(w, i)
        invariant forall a, b | 0 <= a < b < |toDestroy| :: toDestroy[a] != toDestroy[b]
      {
        assert ports[i] == w.ports[i];
        ActiveNext(w, i);
        if ports[i].Ptr? && pool[ports[i].id].active {
          assert ports[i].id !in Elements(toDestroy);
          NonNullUpdate(ports[..], i, Null);
          toDestroy := toDestroy + [ports[i].id];
          ghost var before := ports[..];
          ports[i] := Null;
          assert ports[..] == before[i := Null];
          portCount := portCount - 1;
        }
      }
      assert ports[..] == PortsAfter(w.ports, ActiveIds(w));
    }

    /** Other drivers come to own other symlinks. */
    method OthersLink(comLinks: set<nat>, gcomLinks: set<nat>)
      modifies this`comLinks, this`gcomLinks
      ensures this.comLinks == comLinks + OwnComLinks(old(Abs()))
      ensures this.gcomLinks == gcomLinks + OwnGcomLinks(old(Abs()))
    {
      ghost var w := Abs();
      this.comLinks := comLinks + OwnComLinks(Abs());
      assert OwnGcomLinks(Abs()) == OwnGcomLinks(w);
      this.gcomLinks := gcomLinks + OwnGcomLinks(Abs());
    }

    /** GcomComEvtFileCreate and GcomCompEvtFileCreate. */
    method FileCreate(f: nat, side: Side, id: nat) returns (status: NtStatus)
      requires f !in files && id in pool
      modifies this`pool, this`files
      ensures (Abs(), status) == Open(old(Abs()), f, side, id)
    {
      if !pool[id].active {
        files := files[f := File(side, None)];
        return DeviceNotConnected;
      }
      if (side.Com? && pool[id].comSideOpen) || (side.Companion? && pool[id].companionSideOpen) {
        files := files[f := File(side, None)];
        return SharingViolation;
      }
      if side.Com? {
        pool := pool[id := pool[id].(comSideOpen := true)];
      } else {
        pool := pool[id := pool[id].(companionSideOpen := true)];
      }
      ghost var updated := pool[id];
      assert pool == old(pool)[id := updated];
      pool := pool[id := pool[id].(refCount := pool[id].refCount + 1)];
      assert pool == old(pool)[id := updated.(refCount := updated.refCount + 1)];
      files := files[f := File(side, Some(id))];
      return Success;
    }

    /** GcomComEvtFileClose and GcomCompEvtFileClose. */
    method FileClose(f: nat)
      requires f in files && (files[f].pair.Some? ==> files[f].pair.value in pool)
      modifies this`pool, this`files
      ensures Abs() == Close(old(Abs()), f)
    {
      if files[f].pair.Some? {
        var id := files[f].pair.value;
        if files[f].side.Com? {
          pool := pool[id := pool[id].(comSideOpen := false)];
        } else if pool[id].active {
          pool := pool[id := pool[id].(companionSideOpen := false)];
        } else {
          assert pool[id := pool[id]] == pool;
        }
        ReleasePair(id);
      }
      files := files - {f};
    }
  }

  /** One serialised control request, cleanup, open or close, run by the method that handles it. */
  method Perform(ctx: DeviceContext, step: Step)
    requires Inv(ctx.Abs()) && Enabled(ctx.Abs(), step)
    modifies ctx, ctx.ports
    ensures ctx.Abs() == Apply(old(ctx.Abs()), step)
  {
    CompanionsAreDistinct(ctx.Abs());
    match step
    case CreatePort(requested, fault) => var _, _ := ctx.PairCreate(requested, fault);
    case DestroyPort(n) => var _ := ctx.DestroyPortIoctl(n);
    case Cleanup => ctx.SelfManagedIoCleanup();
    case OpenFile(f, side, id) => var _ := ctx.FileCreate(f, side, id);
    case CloseFile(f) => ctx.FileClose(f);
    case ForeignLinks(comLinks, gcomLinks) => ctx.OthersLink(comLinks, gcomLinks);
  }

  /** The table in memory goes through exactly the states of the machine of module PortTable. */
  method PerformAll(ctx: DeviceContext, run: seq<Step>)
    requires Inv(ctx.Abs()) && Legal(ctx.Abs(), run)
    modifies ctx, ctx.ports
    ensures ctx.Abs() == Exec(old(ctx.Abs()), run) && Inv(ctx.Abs())
  {
    var rest := run;
    while rest != []
      invariant Inv(ctx.Abs()) && Legal(ctx.Abs(), rest)
      invariant Exec(ctx.Abs(), rest) == Exec(old(ctx.Abs()), run)
      decreases |rest|
    {
      StepKeeps(ctx.Abs(), rest[0]);
      Perform(ctx, rest[0]);
      rest := rest[1..];
    }
  }

  lemma DeadIsReleased(pool: map<nat, PortPair>, id: nat)
    requires id in pool
    ensures Release(pool[id := Dead(pool[id]).(refCount := pool[id].refCount)], id) == PoolAfter(pool, {id})
  {
  }

  function Elements(xs: seq<nat>): set<nat> {
    set x | x in xs
  }

  lemma ElementsSnoc(xs: seq<nat>, k: nat)
    requires k < |xs|
    ensures Elements(xs[..k + 1]) == Elements(xs[..k]) + {xs[k]}
  {
    assert xs[..k + 1] == xs[..k] + [xs[k]];
  }

  /** No two slots answer to one companion index. */
  ghost predicate DistinctCompanions(w: World) {
    forall i, j, n | 0 <= i < |w.ports| && 0 <= j < |w.ports| && SlotMatches(w, i, n) && SlotMatches(w, j, n) :: i == j
  }

  lemma CompanionsAreDistinct(w: World)
    requires Inv(w)
    ensures DistinctCompanions(w)
  {
  }

  /** So the first match is the only one. */
  lemma OnlyMatch(w: World, i: nat, n: nat)
    requires DistinctCompanions(w) && i < |w.ports| && SlotMatches(w, i, n)
    ensures Matching(w, n) == {w.ports[i].id}
  {
    forall j | 0 <= j < |w.ports| && SlotMatches(w, j, n)
      ensures w.ports[j].id == w.ports[i].id
    {
    }
  }

  lemma NoMatch(w: World, n: nat)
    requires forall i | 0 <= i < |w.ports| :: !SlotMatches(w, i, n)
    ensures Matching(w, n) == {}
  {
  }

  lemma SlotRemoved(w: World, i: nat)
    requires TableOk(w) && i < |w.ports| && w.ports[i].Ptr?
    ensures w.ports[i := Null] == PortsAfter(w.ports, {w.ports[i].id})
    ensures PortsAfter(w.ports[i := Null], {w.ports[i].id}) == w.ports[i := Null]
  {
  }

  lemma ActiveNext(w: World, i: nat)
    requires TableOk(w) && i < |w.ports|
    ensures ActiveBelow(w, i + 1) == ActiveBelow(w, i) + (if w.ports[i].Ptr? then {w.ports[i].id} else {})
    ensures w.ports[i].Ptr? ==> w.ports[i].id !in ActiveBelow(w, i)
  {
  }

  lemma NothingDestroyed(w: World)
    ensures PoolAfter(w.pool, {}) == w.pool
    ensures w.comLinks - NumbersOf(w.pool, {}) == w.comLinks
    ensures w.gcomLinks - CompanionsOf(w.pool, {}) == w.gcomLinks
  {
  }

  lemma NothingRemoved(w: World)
    requires TableOk(w)
    ensures DestroyIds(w, {}) == w
  {
    NothingDestroyed(w);
    assert PortsAfter(w.ports, {}) == w.ports;
  }

  lemma OneDestroyed(w: World, id: nat)
    requires id in w.pool
    ensures NumbersOf(w.pool, {id}) == {w.pool[id].portNumber}
    ensures CompanionsOf(w.pool, {id}) == {w.pool[id].companionIndex}
    ensures PoolAfter(w.pool[id := w.pool[id].(active := false)], {id}) == PoolAfter(w.pool, {id})
  {
  }

  /** Destroying one more pair after those in done. */
  lemma OneMore(w: World, done: set<nat>, id: nat)
    requires id in w.pool && id !in done
    ensures var pool := PoolAfter(w.pool, done);
            id in pool && PoolAfter(pool[id := pool[id].(active := false)], {id}) == PoolAfter(w.pool, done + {id})
    ensures NumbersOf(w.pool, done + {id}) == NumbersOf(w.pool, done) + {w.pool[id].portNumber}
    ensures CompanionsOf(w.pool, done + {id}) == CompanionsOf(w.pool, done) + {w.pool[id].companionIndex}
  {
  }

  lemma AllNull(w: World)
    requires TableOk(w)
    ensures NonNull(PortsAfter(w.ports, ActiveIds(w))) == 0
  {
    assert PortsAfter(w.ports, ActiveIds(w)) == seq(MAX_PORTS, _ => Null);
    NonNullOfNulls(MAX_PORTS);
  }
}
