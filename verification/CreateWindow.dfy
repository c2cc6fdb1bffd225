/**
 A create that others may look into. GcomPortPairCreate makes the COM device visible and may then
 wait up to a second before it makes the companion device; other control requests wait for it,
 opens and closes do not. When the companion device fails, the struct is freed whatever its
 reference count.
 */
module CreateWindows {
  import opened Prelude
  import opened PortTable
  import opened PortTableRuns
  import opened DeviceContexts

  /** The create under way: its slot, its struct, its number. */
  datatype Creating = Creating(slot: nat, id: nat, n: nat)

  datatype State = State(w: World, creating: Option<Creating>)

  datatype Step =
    | Publish(requested: nat)           // the COM device of a new pair can be seen
    | Complete                          // its companion device too
    | Abandon                           // the companion device failed, or its link was held
    | Whole(step: PortTable.Step)       // anything that is one step

  /** Only opens, closes and other drivers' links fall inside a create. */
  predicate Enabled(s: State, step: Step) {
    match step
    case Publish(requested) => s.creating.None? && Choose(s.w, requested).0 == Success
    case Complete =>
      s.creating.Some? && s.creating.value.id in s.w.pool
      && s.w.pool[s.creating.value.id].companionIndex !in s.w.gcomLinks
    case Abandon => s.creating.Some? && s.creating.value.id in s.w.pool && s.creating.value.slot < |s.w.ports|
    case Whole(step) =>
      PortTable.Enabled(s.w, step)
      && (s.creating.None? || step.OpenFile? || step.CloseFile? || step.ForeignLinks?)
  }

  function Apply(s: State, step: Step): State
    requires Enabled(s, step)
  {
    match step
    case Publish(requested) =>
      var slot, n := FirstNull(s.w.ports, 0), Choose(s.w, requested).1;
      State(PublishedAt(s.w, slot, n), Some(Creating(slot, s.w.nextId, n)))
    case Complete => State(Completed(s.w, s.creating.value.id), None)
    case Abandon => State(Abandoned(s.w, s.creating.value.slot, s.creating.value.id), None)
    case Whole(step) => s.(w := PortTable.Apply(s.w, step))
  }

  predicate Legal(s: State, run: seq<Step>)
    decreases |run|
  {
    run == [] || (Enabled(s, run[0]) && Legal(Apply(s, run[0]), run[1..]))
  }

  function Exec(s: State, run: seq<Step>): State
    requires Legal(s, run)
    decreases |run|
  {
    if run == [] then s else Exec(Apply(s, run[0]), run[1..])
  }

  function Start(comLinks: set<nat>, gcomLinks: set<nat>): State {
    State(Initial(comLinks, gcomLinks), None)
  }

  /* ------------------------------------------------------------------ invariant */

  /** The table invariant, of a create under way as of the world in which it has its companion. */
  ghost predicate Ok(s: State) {
    match s.creating
    case None => Inv(s.w)
    case Some(c) => CreatingOk(s.w, c) && Inv(Completed(s.w, c.id))
  }

  ghost predicate CreatingOk(w: World, c: Creating) {
    && c.slot < |w.ports| && w.ports[c.slot] == Ptr(c.id) && w.nextId == c.id + 1
    && c.id in w.pool && w.pool[c.id].active && !w.pool[c.id].compDevice
    && w.pool[c.id].portNumber == c.n && w.pool[c.id].companionIndex == c.n
  }

  lemma PublishKeeps(s: State, requested: nat)
    requires Ok(s) && Enabled(s, Publish(requested))
    ensures Ok(Apply(s, Publish(requested)))
  {
    var w, n := s.w, Choose(s.w, requested).1;
    InstalledKeeps(w, n);
    hide TableOk, NumbersOk, OpensOk;
    PublishedThenFinished(w, FirstNull(w.ports, 0), n);
  }

  /* ------------------------------------------------- what others do inside a create */

  lemma SetTwice(pool: map<nat, PortPair>, c: nat, p: PortPair, q: PortPair)
    ensures pool[c := p][c := q] == pool[c := q]
  {
  }

  lemma SetBoth(pool: map<nat, PortPair>, c: nat, p: PortPair, id: nat, q: PortPair)
    requires c != id
    ensures pool[c := p][id := q] == pool[id := q][c := p]
  {
  }

  /** A pair with the opening file's flag and reference. */
  function OpenedPair(p: PortPair, side: Side): PortPair {
    (if side.Com? then p.(comSideOpen := true) else p.(companionSideOpen := true)).(refCount := p.refCount + 1)
  }

  lemma OpenPool(w: World, f: nat, side: Side, id: nat)
    requires id in w.pool
    ensures var (t, status) := Open(w, f, side, id);
            && (status == Success <==> w.pool[id].active && !SideOpen(w.pool[id], side))
            && t == w.(pool := if status == Success then w.pool[id := OpenedPair(w.pool[id], side)] else w.pool,
                       files := w.files[f := File(side, if status == Success then Some(id) else None)])
  {
  }

  lemma OpenCommutes(w: World, c: nat, f: nat, side: Side, id: nat)
    requires c in w.pool && id in w.pool
    ensures var t := Open(w, f, side, id).0;
            && c in t.pool && Completed(t, c) == Open(Completed(w, c), f, side, id).0
            && (t.pool[c] == w.pool[c] || t.pool[c] == OpenedPair(w.pool[c], side))
  {
    OpenPool(w, f, side, id);
    OpenPool(Completed(w, c), f, side, id);
    hide Open;
    var p, q := w.pool[c].(compDevice := true), OpenedPair(w.pool[id], side);
    if id == c {
      SetTwice(w.pool, c, q, q.(compDevice := true));
      SetTwice(w.pool, c, p, OpenedPair(p, side));
    } else {
      SetBoth(w.pool, c, p, id, q);
    }
  }

  lemma OpenInside(w: World, c: Creating, f: nat, side: Side, id: nat)
    requires CreatingOk(w, c) && Inv(Completed(w, c.id)) && PortTable.Enabled(w, OpenFile(f, side, id))
    ensures CreatingOk(Open(w, f, side, id).0, c) && Inv(Completed(Open(w, f, side, id).0, c.id))
  {
    hide Inv;
    OpenCommutes(w, c.id, f, side, id);
    OpenKeeps(Completed(w, c.id), f, side, id);
  }

  /** A pair without the closing file's flag and reference. */
  function ClosedPair(p: PortPair, side: Side): PortPair {
    (if side.Com? then p.(comSideOpen := false)
     else if p.active then p.(companionSideOpen := false) else p).(refCount := p.refCount - 1)
  }

  lemma ClosedPool(w: World, f: nat, id: nat)
    requires f in w.files && w.files[f].pair == Some(id) && id in w.pool
    ensures Close(w, f) == w.(files := w.files - {f},
                              pool := if w.pool[id].refCount == 1 then w.pool - {id}
                                      else w.pool[id := ClosedPair(w.pool[id], w.files[f].side)])
  {
    assert w.pool[id := w.pool[id]] == w.pool;
  }

  lemma RemoveOther(pool: map<nat, PortPair>, c: nat, p: PortPair, id: nat)
    requires c != id
    ensures (pool - {id})[c := p] == pool[c := p] - {id}
  {
  }

  lemma CloseCommutes(w: World, c: nat, f: nat)
    requires c in w.pool && f in w.files && (w.files[f].pair.Some? ==> w.files[f].pair.value in w.pool)
    requires c in Close(w, f).pool
    ensures var t := Close(w, f);
            && Completed(t, c) == Close(Completed(w, c), f)
            && (t.pool[c] == w.pool[c] || t.pool[c] == ClosedPair(w.pool[c], w.files[f].side))
  {
    if w.files[f].pair.Some? {
      var id := w.files[f].pair.value;
      ClosedPool(w, f, id);
      ClosedPool(Completed(w, c), f, id);
      hide Close;
      var p, q := w.pool[c].(compDevice := true), ClosedPair(w.pool[id], w.files[f].side);
      if id == c {
        SetTwice(w.pool, c, q, q.(compDevice := true));
        SetTwice(w.pool, c, p, ClosedPair(p, w.files[f].side));
      } else {
        SetBoth(w.pool, c, p, id, q);
        RemoveOther(w.pool, c, p, id);
      }
    }
  }

  /** The creation reference outlasts every close. */
  lemma CreatingStays(w: World, c: Creating, f: nat)
    requires CreatingOk(w, c) && Inv(Completed(w, c.id)) && PortTable.Enabled(w, CloseFile(f))
    ensures c.id in Close(w, f).pool
  {
    if w.files[f].pair == Some(c.id) {
      ClosePool(Completed(w, c.id), f, c.id);
      hide Inv;
      assert w.pool[c.id].refCount >= 2;
    }
  }

  lemma CloseInside(w: World, c: Creating, f: nat)
    requires CreatingOk(w, c) && Inv(Completed(w, c.id)) && PortTable.Enabled(w, CloseFile(f))
    ensures CreatingOk(Close(w, f), c) && Inv(Completed(Close(w, f), c.id))
  {
    hide Inv;
    CreatingStays(w, c, f);
    CloseCommutes(w, c.id, f);
    CloseKeeps(Completed(w, c.id), f);
  }

  lemma ForeignCommutes(w: World, c: nat, comLinks: set<nat>, gcomLinks: set<nat>)
    requires c in w.pool
    ensures OwnComLinks(Completed(w, c)) == OwnComLinks(w)
    ensures OwnGcomLinks(Completed(w, c)) == OwnGcomLinks(w) + {w.pool[c].companionIndex}
  {
    var v := Completed(w, c);
    assert forall id :: id in v.pool <==> id in w.pool;
    assert v.pool[c].companionIndex in OwnGcomLinks(v);
    forall n | n in OwnGcomLinks(w)
      ensures n in OwnGcomLinks(v)
    {
      var id :| id in w.pool && w.pool[id].compDevice && w.pool[id].companionIndex == n;
      assert v.pool[id].compDevice && v.pool[id].companionIndex == n;
    }
  }

  lemma ForeignInside(w: World, c: Creating, comLinks: set<nat>, gcomLinks: set<nat>)
    requires CreatingOk(w, c) && Inv(Completed(w, c.id))
    ensures var t := w.(comLinks := comLinks + OwnComLinks(w), gcomLinks := gcomLinks + OwnGcomLinks(w));
            CreatingOk(t, c) && Inv(Completed(t, c.id))
  {
    hide Inv;
    var t := w.(comLinks := comLinks + OwnComLinks(w), gcomLinks := gcomLinks + OwnGcomLinks(w));
    ForeignKeeps(Completed(w, c.id), comLinks, gcomLinks);
    ForeignCommutes(w, c.id, comLinks, gcomLinks);
    hide OwnComLinks, OwnGcomLinks;
    assert Completed(t, c.id).gcomLinks == gcomLinks + OwnGcomLinks(Completed(w, c.id));
  }

  lemma WholeKeeps(s: State, step: PortTable.Step)
    requires Ok(s) && Enabled(s, Whole(step))
    ensures Ok(Apply(s, Whole(step)))
  {
    match s.creating
    case None => StepKeeps(s.w, step);
    case Some(c) =>
      match step
      case OpenFile(f, side, id) => OpenInside(s.w, c, f, side, id);
      case CloseFile(f) => CloseInside(s.w, c, f);
      case ForeignLinks(comLinks, gcomLinks) => ForeignInside(s.w, c, comLinks, gcomLinks);
      case _ =>
  }

  /* --------------------------------------------------------- a create that fails then */

  /** A file holds a struct that was freed. */
  ghost predicate Dangling(w: World) {
    exists f :: f in w.files && w.files[f].pair.Some? && w.files[f].pair.value !in w.pool
  }

  lemma LowerNextId(w: World, k: nat)
    requires Inv(w) && forall id | id in w.pool :: id < k
    ensures Inv(w.(nextId := k))
  {
    var t := w.(nextId := k);
    forall x | x in t.pool && t.pool[x].active
      ensures Listed(t, x) && SideOk(t, x, Com) && SideOk(t, x, Companion)
    {
      assert Listed(w, x) && SideOk(w, x, Com) && SideOk(w, x, Companion);
    }
  }

  /** With no other reference the struct goes as if the completed pair were destroyed. */
  lemma AbandonedIsDestroyed(w: World, c: Creating)
    requires CreatingOk(w, c) && TableOk(Completed(w, c.id)) && w.pool[c.id].refCount == 1
    ensures var d := DestroyIds(Completed(w, c.id), {c.id});
            && d.gcomLinks == w.gcomLinks - {c.n}
            && Abandoned(w, c.slot, c.id) == d.(gcomLinks := w.gcomLinks, nextId := c.id)
  {
    var v := Completed(w, c.id);
    var d := DestroyIds(v, {c.id});
    OneDestroyed(v, c.id);
    SlotRemoved(v, c.slot);
    NonNullUpdate(w.ports, c.slot, Null);
    assert d.pool == w.pool - {c.id} by {
      hide TableOk, PortsAfter, NonNull;
    }
    hide TableOk, PoolAfter, PortsAfter, NonNull, NumbersOf, CompanionsOf;
    assert d.gcomLinks == w.gcomLinks - {c.n};
  }

  lemma CreatorsReference(w: World, c: Creating)
    requires CreatingOk(w, c) && Inv(Completed(w, c.id)) && Holders(w.files, c.id) == {}
    ensures w.pool[c.id].refCount == 1 && TableOk(Completed(w, c.id))
    ensures {c.id} <= ActiveIds(Completed(w, c.id))
    ensures forall id | id in w.pool && id != c.id :: id < c.id
  {
    hide NumbersOk, OpensOk;
    var v := Completed(w, c.id);
    assert SlotActive(v, c.slot);
    assert forall id | id in w.pool :: id in v.pool;
  }

  lemma AbandonKeeps(w: World, c: Creating)
    requires CreatingOk(w, c) && Inv(Completed(w, c.id)) && Holders(w.files, c.id) == {}
    ensures Inv(Abandoned(w, c.slot, c.id))
  {
    hide TableOk, RefsOk, OpensOk, ActiveIds, Holders;
    var v := Completed(w, c.id);
    var d := DestroyIds(v, {c.id});
    CreatorsReference(w, c);
    AbandonedIsDestroyed(w, c);
    DestroyKeeps(v, {c.id});
    hide DestroyIds, Completed, CreatingOk;
    MoreLinks(d, w.gcomLinks);
    LowerNextId(d.(gcomLinks := w.gcomLinks), c.id);
  }

  lemma MoreLinks(w: World, gcomLinks: set<nat>)
    requires Inv(w) && w.gcomLinks <= gcomLinks
    ensures Inv(w.(gcomLinks := gcomLinks))
  {
    assert NumbersOk(w.(gcomLinks := gcomLinks)) by {
      var t := w.(gcomLinks := gcomLinks);
      forall id | id in t.pool && t.pool[id].active
        ensures Listed(t, id)
      {
        assert Listed(w, id);
      }
    }
    LinksMatterToNumbers(w, w.comLinks, gcomLinks);
  }

  lemma HeldIsDangling(w: World, c: Creating)
    requires CreatingOk(w, c) && Holders(w.files, c.id) != {}
    ensures Dangling(Abandoned(w, c.slot, c.id))
  {
    var f :| f in Holders(w.files, c.id);
    assert Abandoned(w, c.slot, c.id).files[f].pair == Some(c.id);
  }

  /** No file holds the pair of a create that is abandoned now. */
  ghost predicate Unheld(s: State, step: Step) {
    step.Abandon? && s.creating.Some? ==> Holders(s.w.files, s.creating.value.id) == {}
  }

  /** A step keeps the invariant, or is an abandoned create whose pair a file holds: then that file dangles. */
  lemma StepKeepsIff(s: State, step: Step)
    requires Ok(s) && Enabled(s, step)
    ensures Unheld(s, step) ==> Ok(Apply(s, step))
    ensures !Unheld(s, step) ==> Dangling(Apply(s, step).w)
  {
    hide Inv, Completed, Abandoned, CreatingOk, Holders, Dangling, PublishedAt;
    match step
    case Publish(requested) => PublishKeeps(s, requested);
    case Complete =>
    case Abandon =>
      if Unheld(s, step) {
        AbandonKeeps(s.w, s.creating.value);
      } else {
        HeldIsDangling(s.w, s.creating.value);
      }
    case Whole(step) => WholeKeeps(s, step);
  }

  /* ----------------------------------------------------------------- whole runs */

  /** p holds in every state of the run. */
  ghost predicate Throughout(p: State -> bool, s: State, run: seq<Step>)
    requires Legal(s, run)
    decreases |run|
  {
    p(s) && (run == [] || Throughout(p, Apply(s, run[0]), run[1..]))
  }

  /** Whenever a create is abandoned, no file holds its pair. */
  ghost predicate UnheldThroughout(s: State, run: seq<Step>)
    requires Legal(s, run)
    decreases |run|
  {
    run == [] || (Unheld(s, run[0]) && UnheldThroughout(Apply(s, run[0]), run[1..]))
  }

  lemma {:induction false} ThroughoutIff(p: State -> bool, s: State, run: seq<Step>)
    requires Ok(s) && Legal(s, run)
    requires forall u | Ok(u) :: p(u)
    requires forall u: State | Dangling(u.w) :: !p(u)
    ensures Throughout(p, s, run) <==> UnheldThroughout(s, run)
    decreases |run|
  {
    if run != [] {
      hide Ok, Enabled, Apply, Unheld, Dangling;
      var t := Apply(s, run[0]);
      StepKeepsIff(s, run[0]);
      if Unheld(s, run[0]) {
        ThroughoutIff(p, t, run[1..]);
      } else {
        assert !p(t);
        assert !Throughout(p, t, run[1..]);
      }
    }
  }

  /** References are counted, a struct lives exactly while it has one, and each side has at most one file. */
  ghost predicate Lifetime(s: State) {
    && (forall id | id in s.w.pool ::
          s.w.pool[id].refCount == (if s.w.pool[id].active then 1 else 0) + |Holders(s.w.files, id)|)
    && (forall id :: id in s.w.pool <==> (Listed(s.w, id) || Holders(s.w.files, id) != {}))
    && (forall id, side | id in s.w.pool && s.w.pool[id].active :: |SideHolders(s.w.files, id, side)| <= 1)
  }

  lemma InvLifetime(w: World)
    requires Inv(w)
    ensures Lifetime(State(w, None))
  {
    forall id
      ensures id in w.pool <==> (Listed(w, id) || Holders(w.files, id) != {})
    {
      if Holders(w.files, id) != {} {
        var f :| f in Holders(w.files, id);
        assert w.files[f].pair == Some(id);
      }
    }
    forall id, side | id in w.pool && w.pool[id].active
      ensures |SideHolders(w.files, id, side)| <= 1
    {
      BothSidesOk(w, id, side);
      AtMostOne(SideHolders(w.files, id, side));
    }
  }

  lemma OkLifetime(s: State)
    requires Ok(s)
    ensures Lifetime(s)
  {
    match s.creating
    case None => InvLifetime(s.w);
    case Some(c) =>
      var v := Completed(s.w, c.id);
      InvLifetime(v);
      forall id
        ensures Listed(s.w, id) <==> Listed(v, id)
      {
      }
  }

  lemma DanglingLifetime(s: State)
    requires Dangling(s.w)
    ensures !Lifetime(s)
  {
    var f :| f in s.w.files && s.w.files[f].pair.Some? && s.w.files[f].pair.value !in s.w.pool;
    assert f in Holders(s.w.files, s.w.files[f].pair.value);
  }

  /**
   The lifetime theorem: in every state of a run references are counted right and a struct is
   allocated exactly while there is one, if and only if no create is abandoned while a file holds
   its pair.
   */
  lemma StructLivesWhileReferencedIff(comLinks: set<nat>, gcomLinks: set<nat>, run: seq<Step>)
    requires Legal(Start(comLinks, gcomLinks), run)
    ensures Throughout(Lifetime, Start(comLinks, gcomLinks), run) <==> UnheldThroughout(Start(comLinks, gcomLinks), run)
  {
    InitialOk(comLinks, gcomLinks);
    forall u | Ok(u)
      ensures Lifetime(u)
    {
      OkLifetime(u);
    }
    forall u: State | Dangling(u.w)
      ensures !Lifetime(u)
    {
      DanglingLifetime(u);
    }
    ThroughoutIff(Lifetime, Start(comLinks, gcomLinks), run);
  }

  /** What the callbacks of an open file use is there; the queues of a companion still to come are not. */
  ghost predicate CallbacksSafe(s: State) {
    forall f | f in s.w.files && s.w.files[f].pair.Some? ::
      && s.w.files[f].pair.value in s.w.pool
      && var p := s.w.pool[s.w.files[f].pair.value];
         p.active ==>
           && p.rings && p.locks && p.comDevice
           && (p.compDevice <==> !(s.creating.Some? && s.creating.value.id == s.w.files[f].pair.value))
  }

  lemma OkCallbacks(s: State)
    requires Ok(s)
    ensures CallbacksSafe(s)
  {
    if s.creating.Some? {
      var v := Completed(s.w, s.creating.value.id);
      forall f | f in s.w.files && s.w.files[f].pair.Some?
        ensures s.w.files[f].pair.value in v.pool
      {
      }
    }
  }

  /** A callback on any open file finds its struct, its rings and its locks in every state, under the same condition. */
  lemma CallbacksTouchLiveMemoryIff(comLinks: set<nat>, gcomLinks: set<nat>, run: seq<Step>)
    requires Legal(Start(comLinks, gcomLinks), run)
    ensures Throughout(CallbacksSafe, Start(comLinks, gcomLinks), run)
            <==> UnheldThroughout(Start(comLinks, gcomLinks), run)
  {
    InitialOk(comLinks, gcomLinks);
    forall u | Ok(u)
      ensures CallbacksSafe(u)
    {
      OkCallbacks(u);
    }
    ThroughoutIff(CallbacksSafe, Start(comLinks, gcomLinks), run);
  }

  /** PortCount counts the slots in use; listed pairs are live, with equal and distinct numbers. */
  ghost predicate TableConsistent(s: State) {
    var w := s.w;
    && |w.ports| == MAX_PORTS && w.portCount == NonNull(w.ports)
    && (forall i | 0 <= i < |w.ports| && w.ports[i].Ptr? ::
          && w.ports[i].id in w.pool && w.pool[w.ports[i].id].active
          && w.pool[w.ports[i].id].companionIndex == w.pool[w.ports[i].id].portNumber)
    && (forall i, j | 0 <= i < j < |w.ports| && w.ports[i].Ptr? && w.ports[j].Ptr? ::
          && w.ports[i].id in w.pool && w.ports[j].id in w.pool
          && w.pool[w.ports[i].id].portNumber != w.pool[w.ports[j].id].portNumber)
  }

  lemma OkTable(s: State)
    requires Ok(s)
    ensures TableConsistent(s)
  {
    hide RefsOk, OpensOk, NonNull;
    if s.creating.Some? {
      var v := Completed(s.w, s.creating.value.id);
      assert forall id | id in v.pool :: id in s.w.pool && v.pool[id].active == s.w.pool[id].active
                                         && v.pool[id].portNumber == s.w.pool[id].portNumber
                                         && v.pool[id].companionIndex == s.w.pool[id].companionIndex;
    }
  }

  lemma {:induction false} OkThroughout(s: State, run: seq<Step>)
    requires Ok(s) && Legal(s, run) && UnheldThroughout(s, run)
    ensures Throughout(Ok, s, run) && Throughout(TableConsistent, s, run)
    decreases |run|
  {
    hide Ok, TableConsistent, Enabled, Apply, Unheld;
    OkTable(s);
    if run != [] {
      StepKeepsIff(s, run[0]);
      OkThroughout(Apply(s, run[0]), run[1..]);
    }
  }

  /** The table theorem: under that condition the table is consistent in every state, a create under way included. */
  lemma TableIsConsistent(comLinks: set<nat>, gcomLinks: set<nat>, run: seq<Step>)
    requires Legal(Start(comLinks, gcomLinks), run) && UnheldThroughout(Start(comLinks, gcomLinks), run)
    ensures Throughout(TableConsistent, Start(comLinks, gcomLinks), run)
  {
    InitialOk(comLinks, gcomLinks);
    OkThroughout(Start(comLinks, gcomLinks), run);
  }

  /** What an allocated pair has alive: all while it is active, its companion device once created. */
  ghost predicate FlagsOk(s: State) {
    forall id | id in s.w.pool ::
      var p, creating := s.w.pool[id], s.creating.Some? && s.creating.value.id == id;
      && (p.active <==> p.rings) && (p.active <==> p.locks) && (p.active <==> p.comDevice)
      && (p.compDevice <==> p.active && !creating) && (creating ==> p.active)
  }

  lemma FlagsStep(s: State, step: Step)
    requires FlagsOk(s) && Enabled(s, step)
    ensures FlagsOk(Apply(s, step))
  {
    hide Choose, FirstNull, CreateStatus, Matching, ActiveIds, PortsAfter, NonNull, NumbersOf, CompanionsOf;
    match step
    case Whole(OpenFile(f, side, id)) => OpenPool(s.w, f, side, id);
    case _ =>
  }

  lemma {:induction false} FlagsRun(s: State, run: seq<Step>)
    requires FlagsOk(s) && Legal(s, run)
    ensures FlagsOk(Exec(s, run))
    decreases |run|
  {
    hide FlagsOk, Enabled, Apply;
    if run != [] {
      FlagsStep(s, run[0]);
      FlagsRun(Apply(s, run[0]), run[1..]);
    }
  }

  /**
   Over every run, whatever falls inside a create: the locks, rings and COM device of an allocated
   pair live exactly while it is active, its companion device once it was created.
   */
  lemma LocksLiveIffActive(comLinks: set<nat>, gcomLinks: set<nat>, run: seq<Step>, id: nat)
    requires Legal(Start(comLinks, gcomLinks), run)
    ensures var t := Exec(Start(comLinks, gcomLinks), run);
            id in t.w.pool ==>
              && (t.w.pool[id].locks <==> t.w.pool[id].active)
              && (t.w.pool[id].rings <==> t.w.pool[id].active)
              && (t.w.pool[id].comDevice <==> t.w.pool[id].active)
              && (t.w.pool[id].compDevice <==>
                    t.w.pool[id].active && !(t.creating.Some? && t.creating.value.id == id))
  {
    FlagsRun(Start(comLinks, gcomLinks), run);
  }

  /* ---------------------------------------------------------- the condition can fail */

  /** A create whose GCOM link is held, and an open as soon as the COM device can be seen. */
  function HeldRun(requested: nat, f: nat, id: nat): seq<Step> {
    [Publish(requested), Whole(OpenFile(f, Com, id)), Abandon]
  }

  lemma HeldRunDangles(w: World, requested: nat, f: nat)
    requires Inv(w) && Choose(w, requested).0 == Success && f !in w.files
    ensures Legal(State(w, None), HeldRun(requested, f, w.nextId))
    ensures var t := Exec(State(w, None), HeldRun(requested, f, w.nextId)).w;
            && f in t.files && t.files[f] == File(Com, Some(w.nextId)) && w.nextId !in t.pool
            && t.gcomLinks == w.gcomLinks
  {
    hide Inv;
    var a, b, c := Publish(requested), Whole(OpenFile(f, Com, w.nextId)), Abandon;
    var s := State(w, None);
    var s1 := Apply(s, a);
    var s2 := Apply(s1, b);
    var s3 := Apply(s2, c);
    assert [a, b, c][1..] == [b, c] && [b, c][1..] == [c] && [c][1..] == [];
    assert Legal(s3, []) && Exec(s3, []) == s3;
    assert Legal(s2, [c]) && Exec(s2, [c]) == s3;
    assert Legal(s1, [b, c]) && Exec(s1, [b, c]) == s3;
  }

  lemma {:induction false} LastState(p: State -> bool, s: State, run: seq<Step>)
    requires Legal(s, run) && Throughout(p, s, run)
    ensures p(Exec(s, run))
    decreases |run|
  {
    if run != [] {
      LastState(p, Apply(s, run[0]), run[1..]);
    }
  }

  lemma FirstChoice()
    ensures Inv(Initial({}, {10})) && Choose(Initial({}, {10}), 10).0 == Success
  {
    InitialOk({}, {10});
    assert Initial({}, {10}).ports[0] == Null;
    assert !InUse(Initial({}, {10}), 10);
  }

  /** From the empty table: number 10 is asked for while another driver owns the link GCOM10. */
  lemma OpenInsideCreateDangles()
    ensures var run := HeldRun(10, 0, 0);
            && Legal(Start({}, {10}), run)
            && !Throughout(Lifetime, Start({}, {10}), run)
            && var t := Exec(Start({}, {10}), run).w;
               10 in t.gcomLinks && 0 in t.files && t.files[0] == File(Com, Some(0)) && 0 !in t.pool
  {
    var s, run := Start({}, {10}), HeldRun(10, 0, 0);
    FirstChoice();
    HeldRunDangles(s.w, 10, 0);
    hide Legal, Exec, Inv, Throughout;
    DanglingLifetime(Exec(s, run));
    if Throughout(Lifetime, s, run) {
      LastState(Lifetime, s, run);
    }
  }

  /* ------------------------------------------------------------ the table in memory */

  /** An open, a close or another driver's link inside a create, run by its handler. */
  method PerformInside(ctx: DeviceContext, step: PortTable.Step)
    requires PortTable.Enabled(ctx.Abs(), step) && (step.OpenFile? || step.CloseFile? || step.ForeignLinks?)
    modifies ctx, ctx.ports
    ensures ctx.Abs() == PortTable.Apply(old(ctx.Abs()), step)
  {
    match step
    case OpenFile(f, side, id) => var _ := ctx.FileCreate(f, side, id);
    case CloseFile(f) => ctx.FileClose(f);
    case ForeignLinks(comLinks, gcomLinks) => ctx.OthersLink(comLinks, gcomLinks);
  }

  /** The other handlers, while creating waits. */
  method PerformAllInside(ctx: DeviceContext, others: seq<Step>, ghost creating: Creating)
    requires forall o | o in others :: o.Whole?
    requires Ok(State(ctx.Abs(), Some(creating))) && Legal(State(ctx.Abs(), Some(creating)), others)
    modifies ctx, ctx.ports
    ensures State(ctx.Abs(), Some(creating)) == Exec(State(old(ctx.Abs()), Some(creating)), others)
    ensures Ok(State(ctx.Abs(), Some(creating)))
  {
    var rest := others;
    while rest != []
      invariant forall o | o in rest :: o.Whole?
      invariant Ok(State(ctx.Abs(), Some(creating))) && Legal(State(ctx.Abs(), Some(creating)), rest)
      invariant Exec(State(ctx.Abs(), Some(creating)), rest) == Exec(State(old(ctx.Abs()), Some(creating)), others)
      decreases |rest|
    {
      assert rest[0] in rest;
      StepKeepsIff(State(ctx.Abs(), Some(creating)), rest[0]);
      PerformInside(ctx, rest[0].step);
      rest := rest[1..];
    }
  }

  /** GcomPortPairCreate with the others' handlers between its two devices: the steps of this machine. */
  method PairCreateDuring(ctx: DeviceContext, requested: nat, fault: Fault, others: seq<Step>) returns (status: NtStatus)
    requires Inv(ctx.Abs()) && forall o | o in others :: o.Whole?
    requires Enabled(State(ctx.Abs(), None), Publish(requested)) && !Early(fault) ==>
               Legal(Apply(State(ctx.Abs(), None), Publish(requested)), others)
    modifies ctx, ctx.ports
    ensures var s := State(old(ctx.Abs()), None);
            if Enabled(s, Publish(requested)) && !Early(fault) then
              var t := Exec(Apply(s, Publish(requested)), others);
              && Ok(t) && t.creating.Some?
              && status == FinishStatus(Choose(s.w, requested).1, fault.CompanionDevice?, t.w.gcomLinks)
              && var last := if status == Success then Complete else Abandon;
                 Enabled(t, last) && State(ctx.Abs(), None) == Apply(t, last)
            else
              ctx.Abs() == s.w && status == CreateStatus(s.w, requested, fault)
  {
    ghost var s := State(ctx.Abs(), None);
    var slotIndex, pp;
    status, slotIndex, pp := ctx.PairPublish(requested, fault);
    if status != Success {
      return;
    }
    PublishKeeps(s, requested);
    PerformAllInside(ctx, others, Creating(slotIndex, pp, Choose(s.w, requested).1));
    status := ctx.FinishCreate(slotIndex, pp, fault.CompanionDevice?);
  }
}
