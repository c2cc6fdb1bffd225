/** What creates, destroys, cleanups, opens and closes keep, and what therefore holds over whole runs. */
module PortTableRuns {
  import opened Prelude
  import opened PortTable

  lemma {:induction false} NonNullUpdate(ports: seq<Slot>, i: nat, s: Slot)
    requires i < |ports|
    ensures NonNull(ports[i := s]) ==
            NonNull(ports) - (if ports[i].Null? then 0 else 1) + (if s.Null? then 0 else 1)
  {
    var ports' := ports[i := s];
    if i == |ports| - 1 {
      assert ports'[..|ports|-1] == ports[..|ports|-1];
    } else {
      assert ports'[..|ports|-1] == ports[..|ports|-1][i := s];
      NonNullUpdate(ports[..|ports|-1], i, s);
    }
  }

  lemma {:induction false} NonNullOfNulls(n: nat)
    ensures NonNull(seq(n, _ => Null)) == 0
  {
    if n > 0 {
      assert seq(n, _ => Null)[..n-1] == seq(n - 1, _ => Null);
      NonNullOfNulls(n - 1);
    }
  }

  /* -------------------------------------------------------------------- create */

  lemma InstalledTable(w: World, n: nat)
    requires Inv(w) && FirstNull(w.ports, 0) < |w.ports|
    ensures TableOk(Installed(w, n))
  {
    hide NumbersOk, OpensOk;
    NonNullUpdate(w.ports, FirstNull(w.ports, 0), Ptr(w.nextId));
  }

  lemma InstalledNumbers(w: World, n: nat)
    requires Inv(w) && FirstNull(w.ports, 0) < |w.ports| && !InUse(w, n)
    ensures NumbersOk(Installed(w, n))
  {
    hide RefsOk, OpensOk, NonNull;
    var t, slot := Installed(w, n), FirstNull(w.ports, 0);
    forall id | id in t.pool && t.pool[id].active
      ensures Listed(t, id)
    {
      if id == w.nextId {
        assert t.ports[slot] == Ptr(id);
      } else {
        var i :| 0 <= i < |w.ports| && w.ports[i] == Ptr(id);
        assert t.ports[i] == Ptr(id);
      }
    }
    forall a | a in w.pool && w.pool[a].active
      ensures w.pool[a].portNumber != n
    {
      var i :| 0 <= i < |w.ports| && w.ports[i] == Ptr(a);
      assert !SlotHasNumber(w, i, n);
    }
  }

  /** No file holds an address that was never handed out. */
  lemma Unheld(w: World, side: Side)
    requires RefsOk(w)
    ensures Holders(w.files, w.nextId) == {} && SideHolders(w.files, w.nextId, side) == {}
  {
  }

  lemma InstalledRefs(w: World, n: nat)
    requires Inv(w) && FirstNull(w.ports, 0) < |w.ports|
    ensures RefsOk(Installed(w, n))
  {
    Unheld(w, Com);
  }

  lemma InstalledOpens(w: World, n: nat)
    requires Inv(w) && FirstNull(w.ports, 0) < |w.ports|
    ensures OpensOk(Installed(w, n))
  {
    Unheld(w, Com);
    Unheld(w, Companion);
    var t := Installed(w, n);
    forall x | x in t.pool && t.pool[x].active
      ensures SideOk(t, x, Com) && SideOk(t, x, Companion)
    {
      assert x != w.nextId ==> SideOk(w, x, Com) && SideOk(w, x, Companion);
    }
  }

  lemma InstalledKeeps(w: World, n: nat)
    requires Inv(w) && FirstNull(w.ports, 0) < |w.ports| && !InUse(w, n)
    ensures Inv(Installed(w, n))
  {
    hide TableOk, NumbersOk, RefsOk, OpensOk;
    InstalledTable(w, n);
    InstalledNumbers(w, n);
    InstalledRefs(w, n);
    InstalledOpens(w, n);
  }

  /** A published pair that nobody opened is completed to an installed one, or leaves no trace. */
  lemma PublishedThenFinished(w: World, slot: nat, n: nat)
    requires slot < |w.ports| && w.ports[slot] == Null && w.nextId !in w.pool
    ensures Completed(PublishedAt(w, slot, n), w.nextId) == InstalledAt(w, slot, n)
    ensures n !in w.comLinks ==> Abandoned(PublishedAt(w, slot, n), slot, w.nextId) == w
  {
    var t := PublishedAt(w, slot, n);
    assert Completed(t, w.nextId).pool == InstalledAt(w, slot, n).pool;
    assert t.ports[slot := Null] == w.ports;
    assert t.pool - {w.nextId} == w.pool;
    assert n !in w.comLinks ==> t.comLinks - {n} == w.comLinks;
  }

  lemma CreateKeeps(w: World, requested: nat, fault: Fault)
    requires Inv(w)
    ensures Inv(Create(w, requested, fault))
  {
    hide TableOk, NumbersOk, RefsOk, OpensOk;
    if CreateStatus(w, requested, fault) == Success {
      InstalledKeeps(w, Choose(w, requested).1);
    }
  }

  /* ------------------------------------------------------------ what a create does */

  lemma InstalledIsCreated(w: World, requested: nat)
    requires w.nextId !in w.pool && CreateStatus(w, requested, NoFault) == Success
    ensures CreatedAs(w, Installed(w, Choose(w, requested).1), w.nextId, requested)
  {
    var n, slot := Choose(w, requested).1, FirstNull(w.ports, 0);
    var t := Installed(w, n);
    assert NumberFree(w, n);
    assert t.pool == w.pool[w.nextId := t.pool[w.nextId]];
    assert w.ports[slot].Null? && t.ports == w.ports[slot := Ptr(w.nextId)];
  }

  lemma OnlyWithoutFault(w: World, requested: nat, fault: Fault)
    requires CreateStatus(w, requested, fault) == Success
    ensures fault == NoFault
  {
  }

  /** A create either makes one pair, under the number asked for or the least free one, or leaves everything alone. */
  lemma CreateOutcome(w: World, requested: nat, fault: Fault)
    requires w.nextId !in w.pool
    ensures CreateStatus(w, requested, fault) != Success ==> Create(w, requested, fault) == w
    ensures CreateStatus(w, requested, fault) == Success ==>
              fault == NoFault && CreatedAs(w, Create(w, requested, fault), w.nextId, requested)
  {
    hide CreatedAs, CreateStatus, Choose, Installed, FirstNull;
    if CreateStatus(w, requested, fault) == Success {
      OnlyWithoutFault(w, requested, fault);
      InstalledIsCreated(w, requested);
    }
  }

  ghost predicate SomeSlotNull(w: World) {
    exists i :: 0 <= i < |w.ports| && w.ports[i].Null?
  }

  ghost predicate SomeNumberFree(w: World) {
    exists c: nat :: 1 <= c < 256 && NumberFree(w, c)
  }

  /** With nothing failing a create succeeds exactly with a NULL slot and a number that is free: its own or any below 256. */
  lemma CreateSucceedsExactly(w: World, requested: nat)
    ensures var status := CreateStatus(w, requested, NoFault);
            if !SomeSlotNull(w) then status == InsufficientResources
            else if requested != 0 then status == if NumberFree(w, requested) then Success else ObjectNameCollision
            else status == if SomeNumberFree(w) then Success else InsufficientResources
  {
    var slot := FirstNull(w.ports, 0);
    assert slot < |w.ports| ==> w.ports[slot].Null?;
    assert SomeSlotNull(w) <==> slot < |w.ports|;
    var n := FreeNumber(w, 1);
    assert SomeNumberFree(w) <==> n != 0;
    hide FreeNumber, FirstNull;
  }

  /**
   A failure after the number was chosen is reported as lack of memory for the struct and the
   rings, else as a device failure.
   */
  lemma FaultOutcome(w: World, requested: nat, fault: Fault)
    requires fault != NoFault && SomeSlotNull(w)
    requires if requested != 0 then !InUse(w, requested) && requested !in w.comLinks else SomeNumberFree(w)
    ensures CreateStatus(w, requested, fault) ==
            match fault
            case PairAllocation => InsufficientResources
            case FirstRing => InsufficientResources
            case SecondRing => InsufficientResources
            case _ => DeviceFailed
  {
    var n := FreeNumber(w, 1);
    assert SomeNumberFree(w) <==> n != 0;
    hide FreeNumber;
  }

  /* ------------------------------------------------------------------- destroy */

  lemma DestroyedTable(w: World, ids: set<nat>)
    requires Inv(w) && ids <= ActiveIds(w)
    ensures TableOk(DestroyIds(w, ids))
  {
    hide NumbersOk, RefsOk, OpensOk, NumbersOf, CompanionsOf, NonNull;
    var t := DestroyIds(w, ids);
    forall i | 0 <= i < |t.ports| && t.ports[i].Ptr?
      ensures t.ports[i].id in t.pool && t.pool[t.ports[i].id].active
    {
      assert t.ports[i] == w.ports[i];
    }
  }

  lemma DestroyedNumbers(w: World, ids: set<nat>)
    requires Inv(w) && ids <= ActiveIds(w)
    ensures NumbersOk(DestroyIds(w, ids))
  {
    hide RefsOk, OpensOk, NonNull;
    var t := DestroyIds(w, ids);
    forall id | id in t.pool && t.pool[id].active
      ensures Listed(t, id) && t.pool[id].portNumber in t.comLinks && t.pool[id].portNumber in t.gcomLinks
    {
      DestroyedPair(w, ids, id);
      var i :| 0 <= i < |w.ports| && w.ports[i] == Ptr(id);
      assert t.ports[i] == Ptr(id);
      forall other | other in ids && other in w.pool
        ensures w.pool[other].portNumber != w.pool[id].portNumber
        ensures w.pool[other].companionIndex != w.pool[id].portNumber
      {
        assert w.pool[other].active && other != id;
      }
    }
  }

  /** A destroyed pair had its creation reference, and is kept exactly while files hold it. */
  lemma DestroyedPair(w: World, ids: set<nat>, id: nat)
    requires Inv(w) && ids <= ActiveIds(w) && id in w.pool
    ensures id in ids ==> w.pool[id].active
    ensures id in DestroyIds(w, ids).pool <==> !(id in ids && Holders(w.files, id) == {})
    ensures id in DestroyIds(w, ids).pool ==>
              DestroyIds(w, ids).pool[id] == if id in ids then Dead(w.pool[id]) else w.pool[id]
  {
    hide TableOk, NumbersOk, OpensOk, PortsAfter, NonNull;
  }

  lemma DestroyedRefs(w: World, ids: set<nat>)
    requires Inv(w) && ids <= ActiveIds(w)
    ensures RefsOk(DestroyIds(w, ids))
  {
    hide TableOk, NumbersOk, OpensOk, PortsAfter, NonNull;
    var t := DestroyIds(w, ids);
    forall id | id in t.pool
      ensures id in w.pool && t.pool[id] == if id in ids then Dead(w.pool[id]) else w.pool[id]
      ensures id in ids ==> w.pool[id].active && Holders(w.files, id) != {}
    {
      DestroyedPair(w, ids, id);
    }
    forall f | f in t.files && t.files[f].pair.Some?
      ensures t.files[f].pair.value in t.pool
    {
      DestroyedPair(w, ids, t.files[f].pair.value);
      assert f in Holders(w.files, w.files[f].pair.value);
    }
  }

  lemma DestroyedOpens(w: World, ids: set<nat>)
    requires Inv(w) && ids <= ActiveIds(w)
    ensures OpensOk(DestroyIds(w, ids))
  {
    hide TableOk, NumbersOk, RefsOk, PortsAfter, NonNull;
    var t := DestroyIds(w, ids);
    forall x | x in t.pool && t.pool[x].active
      ensures SideOk(t, x, Com) && SideOk(t, x, Companion)
    {
      DestroyedPair(w, ids, x);
      assert SideOk(w, x, Com) && SideOk(w, x, Companion);
    }
  }

  /** Destroying any active pairs, one as for a destroy request or all as at cleanup. */
  lemma DestroyKeeps(w: World, ids: set<nat>)
    requires Inv(w) && ids <= ActiveIds(w)
    ensures Inv(DestroyIds(w, ids))
  {
    DestroyedTable(w, ids);
    DestroyedNumbers(w, ids);
    DestroyedRefs(w, ids);
    DestroyedOpens(w, ids);
  }

  /* ------------------------------------------------------------- open and close */

  lemma HoldersAdd(files: map<nat, File>, f: nat, file: File, id: nat)
    requires f !in files
    ensures |Holders(files[f := file], id)| == |Holders(files, id)| + (if file.pair == Some(id) then 1 else 0)
  {
    assert Holders(files[f := file], id) == Holders(files, id) + (if file.pair == Some(id) then {f} else {});
  }

  lemma SideHoldersAdd(files: map<nat, File>, f: nat, file: File, id: nat, side: Side)
    requires f !in files
    ensures SideHolders(files[f := file], id, side) ==
            SideHolders(files, id, side) + (if file == File(side, Some(id)) then {f} else {})
  {
  }

  lemma HoldersRemove(files: map<nat, File>, f: nat, id: nat)
    requires f in files
    ensures |Holders(files - {f}, id)| == |Holders(files, id)| - (if files[f].pair == Some(id) then 1 else 0)
  {
    assert Holders(files - {f}, id) == Holders(files, id) - {f};
  }

  lemma SideHoldersRemove(files: map<nat, File>, f: nat, id: nat, side: Side)
    requires f in files
    ensures SideHolders(files - {f}, id, side) == SideHolders(files, id, side) - {f}
  {
  }

  /** The same files hold each pair. */
  ghost predicate SameHolders(files: map<nat, File>, files': map<nat, File>) {
    && (forall x :: Holders(files', x) == Holders(files, x))
    && (forall x, s :: SideHolders(files', x, s) == SideHolders(files, x, s))
    && (forall f | f in files' && files'[f].pair.Some? :: f in files && files[f] == files'[f])
  }

  lemma FilesStayTable(w: World, files: map<nat, File>)
    requires Inv(w)
    ensures TableOk(w.(files := files)) && NumbersOk(w.(files := files))
  {
    hide RefsOk, OpensOk, NonNull;
    var t := w.(files := files);
    forall x | x in t.pool && t.pool[x].active
      ensures Listed(t, x)
    {
      assert Listed(w, x);
    }
  }

  lemma FilesStayHeld(w: World, files: map<nat, File>)
    requires RefsOk(w) && OpensOk(w) && SameHolders(w.files, files)
    ensures RefsOk(w.(files := files)) && OpensOk(w.(files := files))
  {
    hide Holders, SideHolders;
    var t := w.(files := files);
    forall x | x in t.pool && t.pool[x].active
      ensures SideOk(t, x, Com) && SideOk(t, x, Companion)
    {
      assert SideOk(w, x, Com) && SideOk(w, x, Companion);
    }
  }

  /** Files that hold nothing come and go without effect. */
  lemma FilesStay(w: World, files: map<nat, File>)
    requires Inv(w) && SameHolders(w.files, files)
    ensures Inv(w.(files := files))
  {
    hide TableOk, NumbersOk, RefsOk, OpensOk, SameHolders;
    FilesStayTable(w, files);
    FilesStayHeld(w, files);
  }

  lemma RejectedOpenKeeps(w: World, f: nat, side: Side)
    requires Inv(w) && f !in w.files
    ensures Inv(w.(files := w.files[f := File(side, None)]))
  {
    var files := w.files[f := File(side, None)];
    forall x, s
      ensures Holders(files, x) == Holders(w.files, x) && SideHolders(files, x, s) == SideHolders(w.files, x, s)
    {
      assert Holders(files, x) == Holders(w.files, x);
      SideHoldersAdd(w.files, f, File(side, None), x, s);
    }
    FilesStay(w, files);
  }

  lemma OpenTable(w: World, t: World, f: nat, side: Side, id: nat)
    requires Inv(w) && f !in w.files && id in w.pool && Open(w, f, side, id) == (t, Success)
    ensures TableOk(t) && NumbersOk(t)
  {
    hide RefsOk, OpensOk, Holders, SideHolders;
    assert forall x | x in t.pool :: x in w.pool && t.pool[x].active == w.pool[x].active
                                     && t.pool[x].portNumber == w.pool[x].portNumber
                                     && t.pool[x].companionIndex == w.pool[x].companionIndex;
    forall x | x in t.pool && t.pool[x].active
      ensures Listed(t, x)
    {
      assert Listed(w, x);
    }
  }

  lemma OpenRefs(w: World, t: World, f: nat, side: Side, id: nat)
    requires Inv(w) && f !in w.files && id in w.pool && Open(w, f, side, id) == (t, Success)
    ensures RefsOk(t)
  {
    hide TableOk, NumbersOk, OpensOk, Holders;
    forall x | x in t.pool
      ensures |Holders(t.files, x)| == |Holders(w.files, x)| + (if x == id then 1 else 0)
    {
      HoldersAdd(w.files, f, File(side, Some(id)), x);
    }
  }

  lemma OpenOpens(w: World, t: World, f: nat, side: Side, id: nat)
    requires Inv(w) && f !in w.files && id in w.pool && Open(w, f, side, id) == (t, Success)
    ensures OpensOk(t)
  {
    forall x | x in t.pool && t.pool[x].active
      ensures SideOk(t, x, Com) && SideOk(t, x, Companion)
    {
      OpenSide(w, t, f, side, id, x, Com);
      OpenSide(w, t, f, side, id, x, Companion);
    }
  }

  lemma BothSidesOk(w: World, id: nat, side: Side)
    requires OpensOk(w) && id in w.pool && w.pool[id].active
    ensures SideOk(w, id, side)
  {
    match side
    case Com =>
    case Companion =>
  }

  lemma OpenSide(w: World, t: World, f: nat, side: Side, id: nat, x: nat, s: Side)
    requires Inv(w) && f !in w.files && id in w.pool && Open(w, f, side, id) == (t, Success)
    requires x in t.pool && t.pool[x].active
    ensures SideOk(t, x, s)
  {
    hide TableOk, NumbersOk, RefsOk;
    SideHoldersAdd(w.files, f, File(side, Some(id)), x, s);
    BothSidesOk(w, x, s);
  }

  lemma OpenKeeps(w: World, f: nat, side: Side, id: nat)
    requires Inv(w) && f !in w.files && id in w.pool
    ensures Inv(Open(w, f, side, id).0)
  {
    var (t, status) := Open(w, f, side, id);
    if status == Success {
      OpenTable(w, t, f, side, id);
      OpenRefs(w, t, f, side, id);
      OpenOpens(w, t, f, side, id);
    } else {
      RejectedOpenKeeps(w, f, side);
    }
  }

  lemma ClosePool(w: World, f: nat, id: nat)
    requires Inv(w) && f in w.files && w.files[f].pair == Some(id)
    ensures id in w.pool && |Holders(w.files, id)| >= 1
    ensures w.pool[id].active ==> w.pool[id].refCount >= 2
    ensures var t := Close(w, f);
            && (forall x | x in t.pool :: x in w.pool && t.pool[x].active == w.pool[x].active
                  && t.pool[x].portNumber == w.pool[x].portNumber && t.pool[x].companionIndex == w.pool[x].companionIndex
                  && t.pool[x].rings == w.pool[x].rings && t.pool[x].locks == w.pool[x].locks
                  && t.pool[x].comDevice == w.pool[x].comDevice && t.pool[x].compDevice == w.pool[x].compDevice)
            && (forall x | x in w.pool && x != id :: x in t.pool && t.pool[x] == w.pool[x])
            && (id in t.pool <==> w.pool[id].refCount != 1)
            && (id in t.pool ==> t.pool[id].refCount == w.pool[id].refCount - 1)
  {
    hide TableOk, NumbersOk, OpensOk;
    assert f in Holders(w.files, id);
  }

  lemma CloseTable(w: World, f: nat, id: nat)
    requires Inv(w) && f in w.files && w.files[f].pair == Some(id)
    ensures id in w.pool && TableOk(Close(w, f)) && NumbersOk(Close(w, f))
  {
    hide RefsOk, OpensOk;
    ClosePool(w, f, id);
    var t := Close(w, f);
    forall x | x in t.pool && t.pool[x].active
      ensures Listed(t, x)
    {
      assert Listed(w, x);
    }
  }

  lemma CloseRefs(w: World, f: nat, id: nat)
    requires Inv(w) && f in w.files && w.files[f].pair == Some(id)
    ensures id in w.pool && RefsOk(Close(w, f))
  {
    hide TableOk, NumbersOk, OpensOk;
    ClosePool(w, f, id);
    var t := Close(w, f);
    assert t.files == w.files - {f};
    hide Holders, Close;
    forall x | x in t.pool
      ensures |Holders(t.files, x)| == |Holders(w.files, x)| - (if x == id then 1 else 0)
    {
      HoldersRemove(w.files, f, x);
    }
    forall g | g in t.files && t.files[g].pair.Some?
      ensures t.files[g].pair.value in t.pool
    {
      if t.files[g].pair == Some(id) { StillHeld(w, f, g, id); }
    }
  }

  /** Two files holding a pair keep it allocated when one of them closes. */
  lemma StillHeld(w: World, f: nat, g: nat, id: nat)
    requires RefsOk(w) && f in w.files && g in w.files && f != g
    requires w.files[f].pair == Some(id) && w.files[g].pair == Some(id)
    ensures id in w.pool && w.pool[id].refCount >= 2
  {
    assert {f, g} <= Holders(w.files, id);
    TwoMembers(Holders(w.files, id), f, g);
  }

  lemma TwoMembers(s: set<nat>, a: nat, b: nat)
    requires a in s && b in s && a != b
    ensures |s| >= 2
  {
    assert |s - {a}| == |s| - 1;
    assert b in s - {a};
  }

  /** On an active pair the closing file was its side's only one. */
  lemma ClosedSide(w: World, f: nat, id: nat)
    requires Inv(w) && f in w.files && w.files[f].pair == Some(id) && id in w.pool && w.pool[id].active
    ensures SideHolders(w.files - {f}, id, w.files[f].side) == {}
  {
    hide TableOk, NumbersOk, RefsOk;
    SideHoldersRemove(w.files, f, id, w.files[f].side);
    assert f in SideHolders(w.files, id, w.files[f].side);
    BothSidesOk(w, id, w.files[f].side);
    OnlyMember(SideHolders(w.files, id, w.files[f].side), f);
  }

  /** Every other side keeps its files. */
  lemma OtherSide(w: World, f: nat, id: nat, x: nat, side: Side)
    requires f in w.files && w.files[f].pair == Some(id) && (x != id || side != w.files[f].side)
    ensures SideHolders(w.files - {f}, x, side) == SideHolders(w.files, x, side)
  {
    SideHoldersRemove(w.files, f, x, side);
    assert f !in SideHolders(w.files, x, side);
  }

  lemma CloseOpens(w: World, f: nat, id: nat)
    requires Inv(w) && f in w.files && w.files[f].pair == Some(id)
    ensures id in w.pool && OpensOk(Close(w, f))
  {
    ClosePool(w, f, id);
    var t := Close(w, f);
    forall x | x in t.pool && t.pool[x].active
      ensures SideOk(t, x, Com) && SideOk(t, x, Companion)
    {
      CloseSide(w, f, id, x, Com);
      CloseSide(w, f, id, x, Companion);
    }
  }

  lemma CloseSide(w: World, f: nat, id: nat, x: nat, side: Side)
    requires Inv(w) && f in w.files && w.files[f].pair == Some(id) && id in w.pool
    requires x in Close(w, f).pool && Close(w, f).pool[x].active
    ensures SideOk(Close(w, f), x, side)
  {
    hide TableOk, NumbersOk, RefsOk;
    ClosePool(w, f, id);
    ClosedFlag(w, f, id, x, side);
    hide Close, SideHolders, SideOpen;
    if x == id && side == w.files[f].side {
      ClosedSide(w, f, id);
    } else {
      OtherSide(w, f, id, x, side);
      BothSidesOk(w, x, side);
    }
  }

  lemma ClosedFlag(w: World, f: nat, id: nat, x: nat, side: Side)
    requires f in w.files && w.files[f].pair == Some(id) && id in w.pool && x in w.pool && w.pool[x].active
    requires x in Close(w, f).pool
    ensures Close(w, f).files == w.files - {f}
    ensures SideOpen(Close(w, f).pool[x], side) ==
            if x == id && side == w.files[f].side then false else SideOpen(w.pool[x], side)
  {
  }

  lemma OnlyMember(s: set<nat>, f: nat)
    requires f in s && forall a, b | a in s && b in s :: a == b
    ensures s - {f} == {}
  {
  }

  lemma CloseKeeps(w: World, f: nat)
    requires Inv(w) && f in w.files
    ensures w.files[f].pair.Some? ==> w.files[f].pair.value in w.pool
    ensures Inv(Close(w, f))
  {
    hide TableOk, NumbersOk, OpensOk;
    match w.files[f].pair
    case Some(id) =>
      CloseTable(w, f, id);
      CloseRefs(w, f, id);
      CloseOpens(w, f, id);
    case None =>
      var files := w.files - {f};
      forall x, s
        ensures Holders(files, x) == Holders(w.files, x) && SideHolders(files, x, s) == SideHolders(w.files, x, s)
      {
        assert Holders(files, x) == Holders(w.files, x);
        SideHoldersRemove(w.files, f, x, s);
      }
      FilesStay(w, files);
  }

  /* --------------------------------------------- what destroys, opens and closes do */

  /** After a destroy by companion index no live pair has it, every other live pair is untouched, and the number is free. */
  lemma DestroyOutcome(w: World, n: nat)
    requires Inv(w)
    ensures var ids := Matching(w, n);
            var t := DestroyIds(w, ids);
            && (forall id | id in t.pool && t.pool[id].active :: t.pool[id].companionIndex != n)
            && (forall id | id in w.pool && w.pool[id].active && w.pool[id].companionIndex != n ::
                  id in t.pool && t.pool[id] == w.pool[id] && Listed(t, id))
            && (forall id | id in w.pool && w.pool[id].active && w.pool[id].companionIndex == n ::
                  NumberFree(t, n) && !Listed(t, id) && (id in t.pool <==> Holders(w.files, id) != {}))
            && t.files == w.files
  {
    var ids := Matching(w, n);
    var t := DestroyIds(w, ids);
    MatchingIsActive(w, n);
    forall id | id in w.pool && w.pool[id].active
      ensures id in ids <==> w.pool[id].companionIndex == n
      ensures w.pool[id].companionIndex != n ==> id in t.pool && t.pool[id] == w.pool[id] && Listed(t, id)
      ensures w.pool[id].companionIndex == n ==>
                NumberFree(t, n) && !Listed(t, id) && (id in t.pool <==> Holders(w.files, id) != {})
    {
      MatchesByIndex(w, n, id);
      DestroyedPair(w, ids, id);
      if w.pool[id].companionIndex != n {
        StaysListed(w, ids, id);
      } else {
        NumberFreed(w, n, id);
      }
    }
    forall id | id in t.pool && t.pool[id].active
      ensures t.pool[id].companionIndex != n
    {
      DestroyedPair(w, ids, id);
      MatchesByIndex(w, n, id);
    }
  }

  lemma MatchingIsActive(w: World, n: nat)
    ensures Matching(w, n) <= ActiveIds(w)
  {
  }

  lemma MatchesByIndex(w: World, n: nat, id: nat)
    requires Inv(w) && id in w.pool
    ensures w.pool[id].active ==> (id in Matching(w, n) <==> w.pool[id].companionIndex == n)
  {
    hide RefsOk, OpensOk, NonNull;
    if w.pool[id].active {
      assert Listed(w, id);
      var i :| 0 <= i < |w.ports| && w.ports[i] == Ptr(id);
      assert SlotMatches(w, i, w.pool[id].companionIndex);
    }
  }

  lemma StaysListed(w: World, ids: set<nat>, id: nat)
    requires Inv(w) && id in w.pool && w.pool[id].active && id !in ids
    ensures Listed(DestroyIds(w, ids), id)
  {
    hide RefsOk, OpensOk, NonNull;
    assert Listed(w, id);
    var i :| 0 <= i < |w.ports| && w.ports[i] == Ptr(id);
    assert DestroyIds(w, ids).ports[i] == Ptr(id);
  }

  lemma NumberFreed(w: World, n: nat, id: nat)
    requires Inv(w) && id in Matching(w, n) && id in w.pool && w.pool[id].active && w.pool[id].companionIndex == n
    ensures var t := DestroyIds(w, Matching(w, n)); NumberFree(t, n) && !Listed(t, id)
  {
    hide RefsOk, OpensOk, NonNull;
    var ids := Matching(w, n);
    var t := DestroyIds(w, ids);
    assert w.pool[id].portNumber == n;
    assert n in NumbersOf(w.pool, ids) && n in CompanionsOf(w.pool, ids);
    forall i | 0 <= i < |t.ports|
      ensures !SlotHasNumber(t, i, n) && t.ports[i] != Ptr(id)
    {
      if t.ports[i].Ptr? {
        assert t.ports[i] == w.ports[i] && w.ports[i].id !in ids;
        MatchesByIndex(w, n, w.ports[i].id);
      }
    }
  }

  /** A cleanup leaves no live pair, no slot in use and a count of 0; only files keep structs allocated. */
  lemma CleanupOutcome(w: World)
    requires Inv(w)
    ensures var t := DestroyIds(w, ActiveIds(w));
            && (forall id | id in t.pool :: !t.pool[id].active && Holders(t.files, id) != {})
            && (forall i | 0 <= i < |t.ports| :: t.ports[i] == Null) && t.portCount == 0
  {
    var ids := ActiveIds(w);
    var t := DestroyIds(w, ids);
    DestroyKeeps(w, ids);
    forall id | id in t.pool
      ensures !t.pool[id].active && Holders(t.files, id) != {}
    {
      DestroyedPair(w, ids, id);
      if w.pool[id].active { ActiveIsListed(w, id); }
      StillReferenced(t, id);
    }
    hide RefsOk, OpensOk, NonNull;
    forall i | 0 <= i < |t.ports|
      ensures t.ports[i] == Null
    {
      if w.ports[i].Ptr? { assert SlotActive(w, i); }
    }
    assert t.ports == seq(MAX_PORTS, _ => Null);
    NonNullOfNulls(MAX_PORTS);
  }

  lemma ActiveIsListed(w: World, id: nat)
    requires Inv(w) && id in w.pool && w.pool[id].active
    ensures id in ActiveIds(w)
  {
    hide RefsOk, OpensOk, NonNull;
    assert Listed(w, id);
    var i :| 0 <= i < |w.ports| && w.ports[i] == Ptr(id);
    assert SlotActive(w, i);
  }

  lemma StillReferenced(w: World, id: nat)
    requires Inv(w) && id in w.pool && !w.pool[id].active
    ensures Holders(w.files, id) != {}
  {
    hide TableOk, NumbersOk, OpensOk;
  }

  /**
   An open succeeds exactly on a live pair whose side no file holds; then this file alone holds it.
   Otherwise it is refused, as not connected or as shared, and holds nothing.
   */
  lemma OpenOutcome(w: World, f: nat, side: Side, id: nat)
    requires Inv(w) && f !in w.files && id in w.pool
    ensures var (t, status) := Open(w, f, side, id);
            && status == (if !w.pool[id].active then DeviceNotConnected
                          else if SideHolders(w.files, id, side) != {} then SharingViolation
                          else Success)
            && (status == Success ==> SideHolders(t.files, id, side) == {f})
            && (status != Success ==> t.pool == w.pool && t.files == w.files[f := File(side, None)])
  {
    hide TableOk, NumbersOk, RefsOk;
    if w.pool[id].active { BothSidesOk(w, id, side); }
    SideHoldersAdd(w.files, f, File(side, Some(id)), id, side);
  }

  /** A close of a file that holds a side of a live pair leaves that side free for the next open. */
  lemma CloseOutcome(w: World, f: nat, id: nat, next: nat)
    requires Inv(w) && f in w.files && w.files[f].pair == Some(id) && next !in w.files - {f}
    ensures id in w.pool
    ensures w.pool[id].active ==>
              var t := Close(w, f);
              id in t.pool && t.pool[id].active && next !in t.files
              && Open(t, next, w.files[f].side, id).1 == Success
  {
    ClosePool(w, f, id);
    if w.pool[id].active {
      CloseKeeps(w, f);
      ClosedSide(w, f, id);
      ClosedFlag(w, f, id, id, w.files[f].side);
      hide Inv, Close;
      OpenOutcome(Close(w, f), next, w.files[f].side, id);
    }
  }

  /* ----------------------------------------------------------------- whole runs */

  /** Only NumbersOk looks at the symlinks. */
  lemma LinksMatterToNumbers(w: World, comLinks: set<nat>, gcomLinks: set<nat>)
    requires Inv(w) && NumbersOk(w.(comLinks := comLinks, gcomLinks := gcomLinks))
    ensures Inv(w.(comLinks := comLinks, gcomLinks := gcomLinks))
  {
    var t := w.(comLinks := comLinks, gcomLinks := gcomLinks);
    forall x | x in t.pool && t.pool[x].active
      ensures SideOk(t, x, Com) && SideOk(t, x, Companion)
    {
      assert SideOk(w, x, Com) && SideOk(w, x, Companion);
    }
  }

  lemma ForeignNumbers(w: World, t: World)
    requires Inv(w) && t.ports == w.ports && t.pool == w.pool
    requires OwnComLinks(w) <= t.comLinks && OwnGcomLinks(w) <= t.gcomLinks
    ensures NumbersOk(t)
  {
    forall id | id in t.pool && t.pool[id].active
      ensures Listed(t, id) && t.pool[id].portNumber in t.comLinks && t.pool[id].portNumber in t.gcomLinks
    {
      assert Listed(w, id);
      assert w.pool[id].portNumber in OwnComLinks(w) && w.pool[id].companionIndex in OwnGcomLinks(w);
    }
  }

  lemma ForeignKeeps(w: World, comLinks: set<nat>, gcomLinks: set<nat>)
    requires Inv(w)
    ensures Inv(w.(comLinks := comLinks + OwnComLinks(w), gcomLinks := gcomLinks + OwnGcomLinks(w)))
  {
    var com, gcom := comLinks + OwnComLinks(w), gcomLinks + OwnGcomLinks(w);
    ForeignNumbers(w, w.(comLinks := com, gcomLinks := gcom));
    LinksMatterToNumbers(w, com, gcom);
  }

  /** Every control request, cleanup, open, close and foreign link keeps the invariant. */
  lemma StepKeeps(w: World, step: Step)
    requires Inv(w) && Enabled(w, step)
    ensures Inv(Apply(w, step))
  {
    match step
    case CreatePort(requested, fault) => CreateKeeps(w, requested, fault);
    case DestroyPort(n) => DestroyKeeps(w, Matching(w, n));
    case Cleanup => DestroyKeeps(w, ActiveIds(w));
    case OpenFile(f, side, id) => OpenKeeps(w, f, side, id);
    case CloseFile(f) => CloseKeeps(w, f);
    case ForeignLinks(comLinks, gcomLinks) => ForeignKeeps(w, comLinks, gcomLinks);
  }

  lemma InitialOk(comLinks: set<nat>, gcomLinks: set<nat>)
    ensures Inv(Initial(comLinks, gcomLinks))
  {
    NonNullOfNulls(MAX_PORTS);
  }

  lemma {:induction false} RunKeeps(w: World, run: seq<Step>)
    requires Inv(w) && Legal(w, run)
    ensures Inv(Exec(w, run))
    decreases |run|
  {
    if run != [] {
      StepKeeps(w, run[0]);
      RunKeeps(Apply(w, run[0]), run[1..]);
    }
  }

  lemma AtMostOne(s: set<nat>)
    ensures (forall a, b | a in s && b in s :: a == b) ==> |s| <= 1
  {
    if s != {} {
      var f :| f in s;
      if forall a, b | a in s && b in s :: a == b {
        OnlyMember(s, f);
        assert |s - {f}| == |s| - 1;
      }
    }
  }

  /** The world with port 10 alone in the table. */
  function OnePort(): World {
    Installed(Initial({}, {}), 10)
  }

  lemma CreateFirst()
    ensures Apply(Initial({}, {}), CreatePort(10, NoFault)) == OnePort()
    ensures FirstNull(Initial({}, {}).ports, 0) == 0
    ensures Inv(OnePort()) && OnePort().pool == map[0 := NewPair(10)] && OnePort().ports[0] == Ptr(0)
  {
    var w := Initial({}, {});
    assert w.ports[0] == Null;
    assert !InUse(w, 10);
    InitialOk({}, {});
    StepKeeps(w, CreatePort(10, NoFault));
  }

  lemma MatchingFirst(w: World)
    requires w.ports == OnePort().ports && 0 in w.pool && w.pool[0].active && w.pool[0].companionIndex == 10
    ensures Matching(w, 10) == {0}
  {
    CreateFirst();
    assert SlotMatches(w, 0, 10);
  }

  /**
   Locks do not survive until the last reference is dropped: a pair destroyed while its COM side
   is open stays allocated for that file, without its locks.
   */
  lemma LocksGoBeforeLastReference()
    ensures var run := [CreatePort(10, NoFault), OpenFile(0, Com, 0), DestroyPort(10)];
            && Legal(Initial({}, {}), run)
            && var t := Exec(Initial({}, {}), run);
               && 0 in t.files && t.files[0] == File(Com, Some(0))
               && 0 in t.pool && t.pool[0].refCount == 1 && !t.pool[0].locks
  {
    var a, b, c := CreatePort(10, NoFault), OpenFile(0, Com, 0), DestroyPort(10);
    CreateFirst();
    var w1 := OnePort();
    var w2 := Apply(w1, b);
    MatchingFirst(w2);
    var w3 := Apply(w2, c);
    assert w3 == DestroyIds(w2, {0});
    assert [a, b, c][1..] == [b, c] && [b, c][1..] == [c] && [c][1..] == [];
    assert Legal(w3, []) && Exec(w3, []) == w3;
    assert Legal(w2, [c]) && Exec(w2, [c]) == w3;
    assert Legal(w1, [b, c]) && Exec(w1, [b, c]) == w3;
  }
}
