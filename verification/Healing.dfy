/**
 createPort and its recovery from a port number held by a crashed process: one listing, one
 destroy, one retry. Other processes may act between any two of its requests.
 */
module Healing {
  import opened Prelude
  import opened PortTable
  import opened PortTableRuns
  import opened DeviceContexts
  import opened PortLists

  predicate Stale(e: PortInfo, n: nat) {
    e.portNumber == n && !e.companionSideOpen
  }

  /** ports.find: the first stale entry. */
  function FindStale(es: seq<PortInfo>, n: nat): (found: Option<PortInfo>)
    ensures found.None? <==> forall e | e in es :: !Stale(e, n)
    ensures found.Some? ==> found.value in es && Stale(found.value, n)
  {
    if es == [] then None
    else if Stale(es[0], n) then Some(es[0])
    else FindStale(es[1..], n)
  }

  /** tryHealZombie; window is what others do between its listing and its destroy. */
  function TryHeal(w: World, n: nat, window: seq<Step>): (bool, World)
    requires Legal(w, window)
  {
    match FindStale(Listing(w), n)
    case None => (false, w)
    case Some(e) =>
      var t := Exec(w, window);
      var ids := Matching(t, e.companionIndex);
      (ids != {}, DestroyIds(t, ids))
  }

  /** What others do between the requests of createPort: before its listing, its destroy and its retry. */
  datatype Windows = Windows(listing: seq<Step>, destroy: seq<Step>, retry: seq<Step>)

  /** The first request collides and the recovery is tried. */
  predicate Recovers(w: World, n: nat, heal: bool, fault: Fault) {
    CreateStatus(w, n, fault) == ObjectNameCollision && heal && n != 0
  }

  predicate RecoveryLegal(w: World, n: nat, others: Windows) {
    && Legal(w, others.listing)
    && var v := Exec(w, others.listing);
       && Legal(v, others.destroy)
       && var (healed, t) := TryHeal(v, n, others.destroy);
          healed ==> Legal(t, others.retry)
  }

  predicate WindowsLegal(w: World, n: nat, heal: bool, fault: Fault, others: Windows) {
    Recovers(w, n, heal, fault) ==> RecoveryLegal(w, n, others)
  }

  /** The recovery, and the retry if it healed. */
  function Recovery(w: World, n: nat, others: Windows, retryFault: Fault): (World, NtStatus)
    requires RecoveryLegal(w, n, others)
  {
    var (healed, t) := TryHeal(Exec(w, others.listing), n, others.destroy);
    if !healed then (t, ObjectNameCollision)
    else
      var u := Exec(t, others.retry);
      (Create(u, n, retryFault), CreateStatus(u, n, retryFault))
  }

  /** createPort up to the opening of the companion; fault and retryFault strike its two requests. */
  function CreatePortCall(w: World, n: nat, heal: bool, fault: Fault, others: Windows, retryFault: Fault): (World, NtStatus)
    requires WindowsLegal(w, n, heal, fault, others)
  {
    if Recovers(w, n, heal, fault) then Recovery(w, n, others, retryFault)
    else (Create(w, n, fault), CreateStatus(w, n, fault))
  }

  method TryHealZombie(ctx: DeviceContext, n: nat, window: seq<Step>) returns (healed: bool)
    requires Inv(ctx.Abs()) && NumbersFit(ctx.Abs()) && Legal(ctx.Abs(), window)
    modifies ctx, ctx.ports
    ensures (healed, ctx.Abs()) == TryHeal(old(ctx.Abs()), n, window)
  {
    var ports := ListPorts(ctx);
    var i := 0;
    while i < |ports| && !Stale(ports[i], n)
      invariant i <= |ports| && FindStale(ports[i..], n) == FindStale(ports, n)
    {
      i := i + 1;
    }
    if i == |ports| {
      return false;
    }
    PerformAll(ctx, window);
    CompanionsAreDistinct(ctx.Abs());
    var status := ctx.DestroyPortIoctl(ports[i].companionIndex);
    return status == Success;
  }

  /** The retry, made once and only after a successful heal. */
  method HealAndRetry(ctx: DeviceContext, n: nat, window: seq<Step>, after: seq<Step>, retryFault: Fault)
    returns (healed: bool, status: NtStatus)
    requires Inv(ctx.Abs()) && NumbersFit(ctx.Abs()) && Legal(ctx.Abs(), window)
    requires var (h, t) := TryHeal(ctx.Abs(), n, window); h ==> Legal(t, after)
    modifies ctx, ctx.ports
    ensures var (h, t) := TryHeal(old(ctx.Abs()), n, window);
            && healed == h
            && (h ==> ctx.Abs() == Create(Exec(t, after), n, retryFault))
            && (h ==> status == CreateStatus(Exec(t, after), n, retryFault))
            && (!h ==> ctx.Abs() == t)
  {
    hide TryHeal, Inv, NumbersFit, CreateStatus, Create, Legal, Exec;
    HealKeeps(ctx.Abs(), n, window);
    healed := TryHealZombie(ctx, n, window);
    status := ObjectNameCollision;
    if healed {
      PerformAll(ctx, after);
      NextIsFresh(ctx.Abs());
      var created;
      status, created := ctx.PairCreate(n, retryFault);
    }
  }

  /** What follows a collision: the others, then the recovery. */
  method Recover(ctx: DeviceContext, n: nat, others: Windows, retryFault: Fault) returns (status: NtStatus)
    requires Inv(ctx.Abs()) && NumbersFit(ctx.Abs()) && forall step | step in others.listing :: UlongRequest(step)
    requires RecoveryLegal(ctx.Abs(), n, others)
    modifies ctx, ctx.ports
    ensures (ctx.Abs(), status) == Recovery(old(ctx.Abs()), n, others, retryFault)
  {
    hide TryHeal, Inv, NumbersFit, CreateStatus, Create, Legal, Exec, UlongRequest;
    RunKeepsFits(ctx.Abs(), others.listing);
    PerformAll(ctx, others.listing);
    var healed;
    healed, status := HealAndRetry(ctx, n, others.destroy, others.retry, retryFault);
    if !healed {
      status := ObjectNameCollision;
    }
  }

  method CreatePort(ctx: DeviceContext, n: nat, heal: bool, fault: Fault, others: Windows, retryFault: Fault)
    returns (status: NtStatus)
    requires Inv(ctx.Abs()) && NumbersFit(ctx.Abs()) && WindowsLegal(ctx.Abs(), n, heal, fault, others)
    requires forall step | step in others.listing :: UlongRequest(step)
    modifies ctx, ctx.ports
    ensures (ctx.Abs(), status) == CreatePortCall(old(ctx.Abs()), n, heal, fault, others, retryFault)
  {
    hide Inv, NumbersFit, CreateStatus, Create, UlongRequest, RecoveryLegal, Recovery;
    NextIsFresh(ctx.Abs());
    var created;
    status, created := ctx.PairCreate(n, fault);
    if status == ObjectNameCollision && heal && n != 0 {
      status := Recover(ctx, n, others, retryFault);
    }
  }

  lemma NextIsFresh(w: World)
    requires Inv(w)
    ensures |w.ports| == MAX_PORTS && w.nextId !in w.pool && PointersLive(w)
  {
  }

  lemma HealKeeps(w: World, n: nat, window: seq<Step>)
    requires Inv(w) && Legal(w, window)
    ensures Inv(TryHeal(w, n, window).1)
  {
    RunKeeps(w, window);
    var t := Exec(w, window);
    forall k
      ensures Inv(DestroyIds(t, Matching(t, k)))
    {
      DestroyKeeps(t, Matching(t, k));
    }
  }

  /* ---------------------------------------------------------------- what is destroyed */

  /** A live pair with number n whose companion nobody holds. */
  predicate Zombie(w: World, id: nat, n: nat) {
    id in w.pool && w.pool[id].active && w.pool[id].portNumber == n && !w.pool[id].companionSideOpen
  }

  lemma ListedZombie(w: World, id: nat, n: nat)
    requires Inv(w) && Zombie(w, id, n)
    ensures FindStale(Listing(w), n).Some?
  {
    var i :| 0 <= i < |w.ports| && w.ports[i] == Ptr(id);
    ListingIsSlotOrder(w, i);
    assert Listing(w)[Rank(w, i)] in Listing(w);
  }

  lemma StaleIsZombie(w: World, n: nat) returns (id: nat)
    requires Inv(w) && FindStale(Listing(w), n).Some?
    ensures Zombie(w, id, n) && FindStale(Listing(w), n).value.companionIndex == n
    ensures Matching(w, n) == {id}
  {
    var k :| 0 <= k < |Listing(w)| && Listing(w)[k] == FindStale(Listing(w), n).value;
    var i := EntryHasSlot(w, |w.ports|, k);
    id := w.ports[i].id;
    CompanionsAreDistinct(w);
    OnlyMatch(w, i, n);
  }

  /**
   With nobody in between, the recovery destroys the pair with the requested number and a
   closed companion, and no other; it reports success exactly when there is one.
   */
  lemma HealsExactlyTheZombie(w: World, n: nat, id: nat)
    requires Inv(w)
    ensures Zombie(w, id, n) ==> TryHeal(w, n, []) == (true, DestroyIds(w, {id}))
    ensures (forall x :: !Zombie(w, x, n)) ==> TryHeal(w, n, []) == (false, w)
  {
    if Zombie(w, id, n) {
      ListedZombie(w, id, n);
      var z := StaleIsZombie(w, n);
      assert z == id;
    } else if FindStale(Listing(w), n).Some? {
      var z := StaleIsZombie(w, n);
    }
  }

  /** Destroying one pair leaves every other pair, slot and file as it was. */
  lemma OthersStay(w: World, id: nat, other: nat)
    requires other in w.pool && other != id
    ensures var t := DestroyIds(w, {id});
            && other in t.pool && t.pool[other] == w.pool[other] && t.files == w.files
            && forall i | 0 <= i < |w.ports| && w.ports[i] == Ptr(other) :: t.ports[i] == Ptr(other)
  {
  }

  lemma DestroyKeepsAddresses(w: World, id: nat)
    requires w.nextId !in w.pool
    ensures DestroyIds(w, {id}).nextId !in DestroyIds(w, {id}).pool
  {
  }

  lemma CreateAddsOnly(w: World, n: nat, fault: Fault, other: nat)
    requires w.nextId !in w.pool && other in w.pool
    ensures var t := Create(w, n, fault); other in t.pool && t.pool[other] == w.pool[other]
  {
  }

  /** Nobody acts between the requests. */
  const NOBODY := Windows([], [], [])

  lemma AloneCall(w: World, n: nat, heal: bool, fault: Fault, retryFault: Fault)
    ensures WindowsLegal(w, n, heal, fault, NOBODY)
    ensures CreatePortCall(w, n, heal, fault, NOBODY, retryFault) ==
            if !Recovers(w, n, heal, fault) then (Create(w, n, fault), CreateStatus(w, n, fault))
            else
              var (healed, t) := TryHeal(w, n, []);
              if healed then (Create(t, n, retryFault), CreateStatus(t, n, retryFault)) else (t, ObjectNameCollision)
  {
    hide TryHeal, Create, CreateStatus;
  }

  /** With nobody in between, no call, whatever fails in it, changes a pair that is not a zombie with its number. */
  lemma AloneBystandersStay(w: World, n: nat, heal: bool, fault: Fault, retryFault: Fault, other: nat)
    requires Inv(w) && other in w.pool && !Zombie(w, other, n)
    ensures WindowsLegal(w, n, heal, fault, NOBODY)
    ensures var t := CreatePortCall(w, n, heal, fault, NOBODY, retryFault).0;
            other in t.pool && t.pool[other] == w.pool[other]
  {
    hide Create, CreateStatus, Inv;
    NextIsFresh(w);
    CreateAddsOnly(w, n, fault, other);
    AloneCall(w, n, heal, fault, retryFault);
    hide CreatePortCall, WindowsLegal, TryHeal, Recovers;
    if z :| Zombie(w, z, n) {
      HealsExactlyTheZombie(w, n, z);
      OthersStay(w, z, other);
      DestroyKeepsAddresses(w, z);
      CreateAddsOnly(DestroyIds(w, {z}), n, retryFault, other);
    } else {
      HealsExactlyTheZombie(w, n, other);
    }
  }

  /** An active pair answers to companion index n. */
  ghost predicate Answers(w: World, id: nat, n: nat) {
    id in w.pool && w.pool[id].active && w.pool[id].companionIndex == n
  }

  ghost predicate ZombieListed(w: World, n: nat) {
    exists id :: Zombie(w, id, n)
  }

  ghost predicate SomeoneAnswers(w: World, n: nat) {
    exists id :: Answers(w, id, n)
  }

  lemma AnswersIff(w: World, n: nat)
    requires Inv(w)
    ensures SomeoneAnswers(w, n) <==> Matching(w, n) != {}
    ensures forall id | id in Matching(w, n) :: Answers(w, id, n)
  {
    if id :| Answers(w, id, n) {
      MatchingHolds(w, n, id);
    }
    if id :| id in Matching(w, n) {
      assert Answers(w, id, n);
    }
  }

  /**
   Whatever happens between its listing and its destroy, the recovery destroys the pairs that
   answer to n at that moment if a zombie was listed, and nothing if none was.
   */
  lemma HealsWhoAnswers(w: World, n: nat, window: seq<Step>)
    requires Inv(w) && Legal(w, window)
    ensures !ZombieListed(w, n) ==> TryHeal(w, n, window) == (false, w)
    ensures ZombieListed(w, n) ==>
              var t := Exec(w, window);
              Inv(t) && TryHeal(w, n, window) == (SomeoneAnswers(t, n), DestroyIds(t, Matching(t, n)))
  {
    if FindStale(Listing(w), n).Some? {
      var z := StaleIsZombie(w, n);
      RunKeeps(w, window);
      AnswersIff(Exec(w, window), n);
    } else if z :| Zombie(w, z, n) {
      ListedZombie(w, z, n);
    }
  }

  lemma UnmatchedStays(w: World, ids: set<nat>, other: nat)
    requires other in w.pool && other !in ids
    ensures other in DestroyIds(w, ids).pool && DestroyIds(w, ids).pool[other] == w.pool[other]
  {
  }

  /** Pair other is as it was. */
  predicate Untouched(w: World, t: World, other: nat) {
    other in w.pool ==> other in t.pool && t.pool[other] == w.pool[other]
  }

  lemma HealTouches(w: World, n: nat, window: seq<Step>, other: nat)
    requires Inv(w) && Legal(w, window) && ZombieListed(w, n) && !Answers(Exec(w, window), other, n)
    ensures Untouched(Exec(w, window), TryHeal(w, n, window).1, other)
  {
    HealsWhoAnswers(w, n, window);
    var t := Exec(w, window);
    AnswersIff(t, n);
    hide Inv, TryHeal, DestroyIds, Matching, Answers;
    if other in t.pool {
      UnmatchedStays(t, Matching(t, n), other);
    }
  }

  /**
   Whatever others do in between, the own requests of a call change at most one pair: the two
   creates change none; the destroy, made only after a zombie was listed, changes none but the
   pair that answers to n when it runs.
   */
  lemma BystandersStay(w: World, n: nat, heal: bool, fault: Fault, others: Windows, retryFault: Fault, other: nat)
    requires Inv(w) && WindowsLegal(w, n, heal, fault, others)
    ensures Untouched(w, Create(w, n, fault), other)
    ensures Recovers(w, n, heal, fault) ==>
              var v := Exec(w, others.listing);
              var (healed, d) := TryHeal(v, n, others.destroy);
              && (!ZombieListed(v, n) ==> !healed && d == v)
              && (ZombieListed(v, n) && !Answers(Exec(v, others.destroy), other, n) ==>
                    Untouched(Exec(v, others.destroy), d, other))
              && (healed ==>
                    Untouched(Exec(d, others.retry), CreatePortCall(w, n, heal, fault, others, retryFault).0, other))
  {
    hide Create, CreateStatus, Inv, Exec, Legal, TryHeal, Answers, ZombieListed;
    CreateTouchesNone(w, n, fault, other);
    if Recovers(w, n, heal, fault) {
      RunKeeps(w, others.listing);
      var v := Exec(w, others.listing);
      HealsWhoAnswers(v, n, others.destroy);
      if ZombieListed(v, n) && !Answers(Exec(v, others.destroy), other, n) {
        HealTouches(v, n, others.destroy, other);
      }
      var (healed, d) := TryHeal(v, n, others.destroy);
      if healed {
        HealKeeps(v, n, others.destroy);
        RunKeeps(d, others.retry);
        CreateTouchesNone(Exec(d, others.retry), n, retryFault, other);
      }
    }
  }

  lemma CreateTouchesNone(w: World, n: nat, fault: Fault, other: nat)
    requires Inv(w)
    ensures Untouched(w, Create(w, n, fault), other)
  {
    NextIsFresh(w);
    hide Inv, Create;
    if other in w.pool {
      CreateAddsOnly(w, n, fault, other);
    }
  }

  /**
   The recovery is tried only by a caller that asked for a number and did not opt out, after a
   collision: in every other call the request is made once, its outcome is the outcome, and no
   pair is destroyed.
   */
  lemma OptOutDestroysNothing(w: World, n: nat, heal: bool, fault: Fault, others: Windows, retryFault: Fault, other: nat)
    requires Inv(w) && WindowsLegal(w, n, heal, fault, others)
    requires !heal || n == 0 || CreateStatus(w, n, fault) != ObjectNameCollision
    ensures var (t, status) := CreatePortCall(w, n, heal, fault, others, retryFault);
            status == CreateStatus(w, n, fault) && Untouched(w, t, other)
            && (status == Success ==> CreatedAs(w, t, w.nextId, n)) && (status != Success ==> t == w)
  {
    NextIsFresh(w);
    CreateTouchesNone(w, n, fault, other);
    CreateOutcome(w, n, fault);
  }

  /**
   A recovery that healed nothing reports the collision; one that healed ends as its retry does,
   on a pair just created.
   */
  lemma RecoveryOutcome(w: World, n: nat, others: Windows, retryFault: Fault)
    requires Inv(w) && RecoveryLegal(w, n, others)
    ensures var v := Exec(w, others.listing);
            var (healed, d) := TryHeal(v, n, others.destroy);
            var (t, status) := Recovery(w, n, others, retryFault);
            && (!healed ==> status == ObjectNameCollision && t == d)
            && (healed ==>
                  var u := Exec(d, others.retry);
                  && (status == Success ==> CreatedAs(u, t, u.nextId, n)) && (status != Success ==> t == u))
  {
    hide Inv, TryHeal, Exec, Legal, CreatedAs, Create, CreateStatus;
    var v := Exec(w, others.listing);
    RunKeeps(w, others.listing);
    var (healed, d) := TryHeal(v, n, others.destroy);
    if healed {
      HealKeeps(v, n, others.destroy);
      RunKeeps(d, others.retry);
      NextIsFresh(Exec(d, others.retry));
      CreateOutcome(Exec(d, others.retry), n, retryFault);
    }
  }

  /* ---------------------------------------------------------------- when it succeeds */

  lemma FreedNumberIsFree(w: World, id: nat, n: nat)
    requires Inv(w) && Zombie(w, id, n)
    ensures NumberFree(DestroyIds(w, {id}), n)
  {
    var t := DestroyIds(w, {id});
    assert w.pool[id].portNumber in NumbersOf(w.pool, {id}) && w.pool[id].companionIndex in CompanionsOf(w.pool, {id});
    forall i | 0 <= i < |t.ports|
      ensures !SlotHasNumber(t, i, n)
    {
    }
  }

  lemma SlotStaysNull(w: World, id: nat)
    ensures FirstNull(w.ports, 0) < |w.ports| ==> FirstNull(DestroyIds(w, {id}).ports, 0) < |w.ports|
  {
    var t := DestroyIds(w, {id});
    var i := FirstNull(w.ports, 0);
    assert i < |w.ports| ==> t.ports[i].Null?;
  }

  lemma ZombieIsInUse(w: World, id: nat, n: nat)
    requires Inv(w) && Zombie(w, id, n)
    ensures InUse(w, n)
  {
    var i :| 0 <= i < |w.ports| && w.ports[i] == Ptr(id);
    assert SlotHasNumber(w, i, n);
  }

  predicate HasSlot(w: World) {
    FirstNull(w.ports, 0) < |w.ports|
  }

  /** A single request for a number succeeds exactly with a NULL slot and a free number. */
  lemma RequestStatus(w: World, n: nat)
    requires n != 0
    ensures CreateStatus(w, n, NoFault) == Success <==> HasSlot(w) && NumberFree(w, n)
    ensures CreateStatus(w, n, NoFault) == ObjectNameCollision <==> HasSlot(w) && !NumberFree(w, n)
  {
  }

  /** The world in which the retry is made, if it is. */
  function AtRetry(v: World, n: nat, others: Windows): World
    requires Legal(v, others.destroy)
    requires var (healed, t) := TryHeal(v, n, others.destroy); healed ==> Legal(t, others.retry)
  {
    var (healed, t) := TryHeal(v, n, others.destroy);
    if healed then Exec(t, others.retry) else t
  }

  /**
   With nothing failing, whatever others do in between, asking for number n succeeds exactly when
   there is a NULL slot and n is free at once, or there is one and n is not free, a zombie with n
   is listed, somebody answers to n when the destroy runs, and at the retry there is a NULL slot
   and n is free.
   */
  lemma CreateSucceedsIff(w: World, n: nat, others: Windows)
    requires Inv(w) && n != 0 && WindowsLegal(w, n, true, NoFault, others)
    ensures Recovers(w, n, true, NoFault) <==> HasSlot(w) && !NumberFree(w, n)
    ensures var success := CreatePortCall(w, n, true, NoFault, others, NoFault).1 == Success;
            if !Recovers(w, n, true, NoFault) then
              success <==> HasSlot(w) && NumberFree(w, n)
            else
              var v := Exec(w, others.listing);
              success <==>
                && ZombieListed(v, n)
                && SomeoneAnswers(Exec(v, others.destroy), n)
                && HasSlot(AtRetry(v, n, others)) && NumberFree(AtRetry(v, n, others), n)
  {
    hide Inv, CreateStatus, HasSlot, NumberFree, Exec, Legal, TryHeal, ZombieListed, SomeoneAnswers;
    RequestStatus(w, n);
    if Recovers(w, n, true, NoFault) {
      RunKeeps(w, others.listing);
      var v := Exec(w, others.listing);
      HealsWhoAnswers(v, n, others.destroy);
      RequestStatus(AtRetry(v, n, others), n);
    }
  }

  /**
   With nobody in between that is: exactly when the table has a NULL slot and n is free or held by
   a zombie. A full table is not healed, though destroying the zombie would make room.
   */
  lemma AloneSucceedsIff(w: World, n: nat)
    requires Inv(w) && n != 0
    ensures CreatePortCall(w, n, true, NoFault, NOBODY, NoFault).1 == Success
            <==> HasSlot(w) && (NumberFree(w, n) || exists id :: Zombie(w, id, n))
  {
    hide Inv, CreatePortCall;
    AloneCall(w, n, true, NoFault, NoFault);
    if id :| Zombie(w, id, n) {
      ZombieIsInUse(w, id, n);
      HealsExactlyTheZombie(w, n, id);
      FreedNumberIsFree(w, id, n);
      SlotStaysNull(w, id);
    } else {
      HealsExactlyTheZombie(w, n, 0);
    }
  }

  /* ------------------------------------------------------- others between the requests */

  /** Some process opens the closed companion of the live pair that answers to n. */
  predicate OpensCompanion(w: World, step: Step, n: nat) {
    step.OpenFile? && step.side.Companion? && step.id in w.pool && w.pool[step.id].active
    && w.pool[step.id].companionIndex == n && !w.pool[step.id].companionSideOpen
  }

  predicate NobodyOpens(w: World, window: seq<Step>, n: nat)
    requires Legal(w, window)
    decreases |window|
  {
    window == [] || (!OpensCompanion(w, window[0], n) && NobodyOpens(Apply(w, window[0]), window[1..], n))
  }

  /** No companion that answers to n is open. */
  ghost predicate CompanionClosed(w: World, n: nat) {
    forall id | id in w.pool && w.pool[id].active && w.pool[id].companionIndex == n :: !w.pool[id].companionSideOpen
  }

  lemma ClosedStays(w: World, step: Step, n: nat)
    requires Inv(w) && Enabled(w, step) && CompanionClosed(w, n) && !OpensCompanion(w, step, n)
    ensures CompanionClosed(Apply(w, step), n)
  {
    hide TableOk, NumbersOk, RefsOk, OpensOk, Close, DestroyIds, CreateStatus, Choose;
    var t := Apply(w, step);
    match step
    case CreatePort(requested, fault) =>
    case DestroyPort(m) => DestroyedClosed(w, Matching(w, m), n);
    case Cleanup => DestroyedClosed(w, ActiveIds(w), n);
    case OpenFile(f, side, id) =>
    case CloseFile(f) => ClosedByClose(w, f, n);
    case ForeignLinks(comLinks, gcomLinks) =>
  }

  lemma DestroyedClosed(w: World, ids: set<nat>, n: nat)
    requires CompanionClosed(w, n)
    ensures CompanionClosed(DestroyIds(w, ids), n)
  {
  }

  lemma ClosedByClose(w: World, f: nat, n: nat)
    requires CompanionClosed(w, n) && f in w.files && (w.files[f].pair.Some? ==> w.files[f].pair.value in w.pool)
    ensures CompanionClosed(Close(w, f), n)
  {
  }

  lemma {:induction false} ClosedThroughWindow(w: World, window: seq<Step>, n: nat)
    requires Inv(w) && Legal(w, window) && CompanionClosed(w, n) && NobodyOpens(w, window, n)
    ensures CompanionClosed(Exec(w, window), n)
    decreases |window|
  {
    if window != [] {
      ClosedStays(w, window[0], n);
      StepKeeps(w, window[0]);
      ClosedThroughWindow(Apply(w, window[0]), window[1..], n);
    }
  }

  /**
   Whatever others do before the destroy, creates, destroys and COM-side opens included, no
   pair with an open companion is destroyed as long as nobody opens that companion.
   */
  lemma LivePortsSurvive(w: World, window: seq<Step>, n: nat, id: nat)
    requires Inv(w) && Legal(w, window) && FindStale(Listing(w), n).Some? && NobodyOpens(w, window, n)
    requires id in Matching(Exec(w, window), n)
    ensures id in Exec(w, window).pool && !Exec(w, window).pool[id].companionSideOpen
  {
    var z := StaleIsZombie(w, n);
    ZombieMeansClosed(w, z, n);
    ClosedThroughWindow(w, window, n);
  }

  /** The pair just opened is then the one that answers to n. */
  lemma OpenedAnswers(w: World, step: Step, n: nat)
    requires Inv(w) && Enabled(w, step) && OpensCompanion(w, step, n) && CompanionClosed(w, n)
    ensures var t := Apply(w, step);
            && Inv(t) && Matching(t, n) == {step.id} && step.id in t.pool && t.pool[step.id].companionSideOpen
  {
    var t := Apply(w, step);
    assert Listed(w, step.id);
    var i :| 0 <= i < |w.ports| && w.ports[i] == Ptr(step.id);
    assert SlotMatches(t, i, n);
    StepKeeps(w, step);
    CompanionsAreDistinct(t);
    OnlyMatch(t, i, n);
  }

  lemma OneStep(w: World, step: Step)
    requires Enabled(w, step)
    ensures Legal(w, [step]) && Exec(w, [step]) == Apply(w, step)
  {
    assert [step][1..] == [];
  }

  /**
   The promise that a port with an open companion is never disturbed fails: one step in between
   makes the recovery destroy such a port if and only if it opens the companion that was just
   seen closed.
   */
  lemma OpenInBetweenIsDestroyed(w: World, step: Step, n: nat)
    requires Inv(w) && Enabled(w, step) && FindStale(Listing(w), n).Some?
    ensures (exists id :: id in Matching(Apply(w, step), n) && id in Apply(w, step).pool
                          && Apply(w, step).pool[id].companionSideOpen)
            <==> OpensCompanion(w, step, n)
    ensures OpensCompanion(w, step, n) ==>
              Legal(w, [step]) && TryHeal(w, n, [step]) == (true, DestroyIds(Apply(w, step), {step.id}))
  {
    hide Inv, Apply, Enabled;
    var z := StaleIsZombie(w, n);
    ZombieMeansClosed(w, z, n);
    OneStep(w, step);
    if OpensCompanion(w, step, n) {
      OpenedAnswers(w, step, n);
      assert step.id in Matching(Apply(w, step), n);
    } else {
      ClosedStays(w, step, n);
    }
  }

  lemma ZombieMeansClosed(w: World, id: nat, n: nat)
    requires Inv(w) && Zombie(w, id, n)
    ensures CompanionClosed(w, n)
  {
  }

  /* ------------------------------------------------------- any course of events in between */

  /** File f has the companion of the live pair that answers to n open. */
  predicate HeldBy(w: World, f: nat, n: nat) {
    && f in w.files && w.files[f].side.Companion? && w.files[f].pair.Some?
    && var id := w.files[f].pair.value;
       id in w.pool && w.pool[id].active && w.pool[id].companionIndex == n
  }

  /** The step neither closes file f nor destroys the pair that answers to n. */
  predicate Keeps(step: Step, f: nat, n: nat) {
    step != CloseFile(f) && step != DestroyPort(n) && !step.Cleanup?
  }

  predicate KeptOpen(window: seq<Step>, f: nat, n: nat) {
    forall step | step in window :: Keeps(step, f, n)
  }

  /** Within the window a file opens that companion and from then on is neither closed nor loses its pair. */
  predicate OpensAndKeeps(w: World, window: seq<Step>, n: nat)
    requires Legal(w, window)
    decreases |window|
  {
    window != []
    && ((OpensCompanion(w, window[0], n) && KeptOpen(window[1..], window[0].f, n))
        || OpensAndKeeps(Apply(w, window[0]), window[1..], n))
  }

  lemma HeldThroughDestroy(w: World, ids: set<nat>, f: nat, n: nat)
    requires Inv(w) && ids <= ActiveIds(w)
    ensures HeldBy(DestroyIds(w, ids), f, n) <==> HeldBy(w, f, n) && w.files[f].pair.value !in ids
  {
    if f in w.files && w.files[f].pair.Some? {
      DestroyedPair(w, ids, w.files[f].pair.value);
    }
  }

  lemma MatchingHolds(w: World, m: nat, id: nat)
    requires Inv(w) && id in w.pool && w.pool[id].active
    ensures id in Matching(w, m) <==> w.pool[id].companionIndex == m
    ensures id in ActiveIds(w)
  {
    assert Listed(w, id);
    var i :| 0 <= i < |w.ports| && w.ports[i] == Ptr(id);
    assert SlotMatches(w, i, w.pool[id].companionIndex);
  }

  lemma HeldThroughClose(w: World, g: nat, f: nat, n: nat)
    requires Inv(w) && Enabled(w, CloseFile(g))
    ensures HeldBy(Close(w, g), f, n) <==> HeldBy(w, f, n) && f != g
  {
    hide TableOk, NumbersOk, OpensOk, Holders;
    if w.files[g].pair.Some? {
      ClosePool(w, g, w.files[g].pair.value);
    }
  }

  lemma HeldThroughOpen(w: World, step: Step, f: nat, n: nat)
    requires Inv(w) && Enabled(w, step) && step.OpenFile?
    ensures HeldBy(Apply(w, step), f, n) <==> HeldBy(w, f, n) || (OpensCompanion(w, step, n) && step.f == f)
  {
    hide TableOk, NumbersOk, OpensOk, Holders;
  }

  lemma HeldThroughCreate(w: World, requested: nat, fault: Fault, f: nat, n: nat)
    requires Inv(w)
    ensures HeldBy(Create(w, requested, fault), f, n) <==> HeldBy(w, f, n)
  {
    var t := Create(w, requested, fault);
    assert forall id | id in w.pool :: id in t.pool && t.pool[id] == w.pool[id];
  }

  lemma HeldStep(w: World, step: Step, f: nat, n: nat)
    requires Inv(w) && Enabled(w, step)
    ensures HeldBy(Apply(w, step), f, n)
            <==> (HeldBy(w, f, n) && Keeps(step, f, n)) || (OpensCompanion(w, step, n) && step.f == f)
  {
    hide Inv, Create, DestroyIds, Close, Open, Matching, ActiveIds;
    match step
    case CreatePort(requested, fault) => HeldThroughCreate(w, requested, fault, f, n);
    case DestroyPort(m) =>
      MatchingAreActive(w, m);
      HeldThroughDestroy(w, Matching(w, m), f, n);
      if HeldBy(w, f, n) { MatchingHolds(w, m, w.files[f].pair.value); }
    case Cleanup =>
      HeldThroughDestroy(w, ActiveIds(w), f, n);
      if HeldBy(w, f, n) { MatchingHolds(w, n, w.files[f].pair.value); }
    case OpenFile(_, _, _) => HeldThroughOpen(w, step, f, n);
    case CloseFile(g) => HeldThroughClose(w, g, f, n);
    case ForeignLinks(_, _) =>
  }

  lemma MatchingAreActive(w: World, m: nat)
    ensures Matching(w, m) <= ActiveIds(w)
  {
  }

  lemma KeptCons(step: Step, rest: seq<Step>, f: nat, n: nat)
    ensures KeptOpen([step] + rest, f, n) <==> Keeps(step, f, n) && KeptOpen(rest, f, n)
  {
    if KeptOpen([step] + rest, f, n) {
      assert step in [step] + rest;
      forall s | s in rest
        ensures Keeps(s, f, n)
      {
        assert s in [step] + rest;
      }
    }
  }

  /** File f holds the companion now and through the window. */
  predicate HeldOn(w: World, window: seq<Step>, f: nat, n: nat) {
    HeldBy(w, f, n) && KeptOpen(window, f, n)
  }

  lemma HeldOnStep(w: World, window: seq<Step>, n: nat)
    requires Inv(w) && Legal(w, window) && window != []
    ensures (exists f :: HeldOn(Apply(w, window[0]), window[1..], f, n))
            <==> (exists f :: HeldOn(w, window, f, n))
                 || (OpensCompanion(w, window[0], n) && KeptOpen(window[1..], window[0].f, n))
  {
    hide Inv, HeldBy, Keeps, KeptOpen, Apply;
    var step, rest := window[0], window[1..];
    assert window == [step] + rest;
    var t := Apply(w, step);
    if f :| HeldOn(t, rest, f, n) {
      HeldStep(w, step, f, n);
      KeptCons(step, rest, f, n);
      assert HeldBy(w, f, n) && Keeps(step, f, n) ==> HeldOn(w, window, f, n);
    }
    if f :| HeldOn(w, window, f, n) {
      HeldStep(w, step, f, n);
      KeptCons(step, rest, f, n);
      assert HeldOn(t, rest, f, n);
    }
    if OpensCompanion(w, step, n) && KeptOpen(rest, step.f, n) {
      HeldStep(w, step, step.f, n);
      assert HeldOn(t, rest, step.f, n);
    }
  }

  lemma {:induction false} HeldRun(w: World, window: seq<Step>, n: nat)
    requires Inv(w) && Legal(w, window)
    ensures (exists f :: HeldBy(Exec(w, window), f, n))
            <==> (exists f :: HeldOn(w, window, f, n)) || OpensAndKeeps(w, window, n)
    decreases |window|
  {
    hide Inv, HeldBy, Keeps, Apply;
    if window == [] {
      assert Exec(w, window) == w;
      forall f
        ensures HeldOn(w, window, f, n) <==> HeldBy(w, f, n)
      {
      }
      assert (exists f :: HeldBy(w, f, n)) <==> exists f :: HeldOn(w, window, f, n);
    } else {
      StepKeeps(w, window[0]);
      HeldOnStep(w, window, n);
      var next, rest := Apply(w, window[0]), window[1..];
      HeldRun(next, rest, n);
      assert Exec(w, window) == Exec(next, rest);
      assert OpensAndKeeps(w, window, n)
          <==> (OpensCompanion(w, window[0], n) && KeptOpen(rest, window[0].f, n)) || OpensAndKeeps(next, rest, n);
      assert (exists f :: HeldBy(Exec(w, window), f, n)) <==> exists f :: HeldBy(Exec(next, rest), f, n);
    }
  }

  /** An open companion is one that a file holds. */
  lemma OpenMeansHeld(w: World, n: nat)
    requires Inv(w)
    ensures (exists id :: id in Matching(w, n) && id in w.pool && w.pool[id].companionSideOpen)
            <==> exists f :: HeldBy(w, f, n)
  {
    if id :| id in Matching(w, n) && id in w.pool && w.pool[id].companionSideOpen {
      assert SideOk(w, id, Companion);
      var f :| f in SideHolders(w.files, id, Companion);
      assert HeldBy(w, f, n);
    }
    if f :| HeldBy(w, f, n) {
      var id := w.files[f].pair.value;
      MatchingHolds(w, n, id);
      assert SideOk(w, id, Companion);
      assert f in SideHolders(w.files, id, Companion);
    }
  }

  /**
   Exactly when the recovery destroys a port with an open companion, whatever happens between
   its listing and its destroy: when in that window some process opens that companion and
   neither closes it nor loses the port again.
   */
  lemma OpenPortDestroyedIff(w: World, window: seq<Step>, n: nat)
    requires Inv(w) && Legal(w, window) && FindStale(Listing(w), n).Some?
    ensures var t := Exec(w, window);
            && TryHeal(w, n, window) == (Matching(t, n) != {}, DestroyIds(t, Matching(t, n)))
            && ((exists id :: id in Matching(t, n) && id in t.pool && t.pool[id].companionSideOpen)
                <==> OpensAndKeeps(w, window, n))
  {
    var z := StaleIsZombie(w, n);
    RunKeeps(w, window);
    OpenMeansHeld(Exec(w, window), n);
    HeldRun(w, window, n);
    forall f
      ensures !HeldOn(w, window, f, n)
    {
      ClosedIsNotHeld(w, f, n, z);
    }
  }

  lemma ClosedIsNotHeld(w: World, f: nat, n: nat, z: nat)
    requires Inv(w) && Zombie(w, z, n)
    ensures !HeldBy(w, f, n)
  {
    assert SideOk(w, z, Companion);
    assert f !in SideHolders(w.files, z, Companion);
  }

  /** This does happen: a process opens the companion of port 10 just before it is destroyed under its feet. */
  lemma LivePortIsDisturbed()
    ensures var w, open := OnePort(), OpenFile(0, Companion, 0);
            && Legal(Initial({}, {}), [Step.CreatePort(10, NoFault)])
            && Exec(Initial({}, {}), [Step.CreatePort(10, NoFault)]) == w
            && Inv(w) && FindStale(Listing(w), 10).Some? && Enabled(w, open) && OpensCompanion(w, open, 10)
            && Legal(w, [open])
            && var (healed, t) := TryHeal(w, 10, [open]);
               healed && 0 in t.files && t.files[0] == File(Companion, Some(0)) && 0 in t.pool && !t.pool[0].active
  {
    var w, open := OnePort(), OpenFile(0, Companion, 0);
    CreateFirst();
    OneStep(Initial({}, {}), Step.CreatePort(10, NoFault));
    assert Zombie(w, 0, 10);
    ListedZombie(w, 0, 10);
    OpenInBetweenIsDestroyed(w, open, 10);
    assert Apply(w, open).pool[0].refCount == 2;
  }

  /* ------------------------------------------------------------------- a full table */

  function Numbers(k: nat): (ns: set<nat>)
    ensures forall n :: n in ns <==> 1 <= n <= k
  {
    if k == 0 then {} else Numbers(k - 1) + {k}
  }

  function Pairs(k: nat): (pool: map<nat, PortPair>)
    ensures forall id: nat :: (id in pool <==> id < k) && (id in pool ==> pool[id] == NewPair(id + 1))
  {
    if k == 0 then map[] else Pairs(k - 1)[k - 1 := NewPair(k)]
  }

  /** The world after creating ports 1 to k. */
  function Crowd(k: nat): World {
    World(seq(MAX_PORTS, i requires 0 <= i => if i < k then Ptr(i) else Null), k, Pairs(k), k, map[],
          Numbers(k), Numbers(k))
  }

  lemma CrowdGrows(k: nat)
    requires k < MAX_PORTS
    ensures Apply(Crowd(k), Step.CreatePort(k + 1, NoFault)) == Crowd(k + 1)
  {
    var w, t := Crowd(k), Crowd(k + 1);
    assert w.ports[k] == Null;
    assert FirstNull(w.ports, 0) == k;
    assert !InUse(w, k + 1);
    assert w.ports[k := Ptr(k)] == t.ports;
    assert w.pool[k := NewPair(k + 1)] == t.pool;
    assert w.comLinks + {k + 1} == t.comLinks;
  }

  function Creates(k: nat): seq<Step>
    decreases MAX_PORTS - k
  {
    if k >= MAX_PORTS then [] else [Step.CreatePort(k + 1, NoFault)] + Creates(k + 1)
  }

  lemma {:induction false} CrowdFills(k: nat)
    requires k <= MAX_PORTS
    ensures Legal(Crowd(k), Creates(k)) && Exec(Crowd(k), Creates(k)) == Crowd(MAX_PORTS)
    decreases MAX_PORTS - k
  {
    hide Crowd, Apply, Legal, Exec;
    if k < MAX_PORTS {
      CrowdGrows(k);
      CrowdFills(k + 1);
      RunCons(Crowd(k), Step.CreatePort(k + 1, NoFault), Creates(k + 1));
    } else {
      RunNil(Crowd(k));
    }
  }

  lemma RunNil(w: World)
    ensures Legal(w, []) && Exec(w, []) == w
  {
  }

  lemma RunCons(w: World, step: Step, rest: seq<Step>)
    requires Enabled(w, step) && Legal(Apply(w, step), rest)
    ensures Legal(w, [step] + rest) && Exec(w, [step] + rest) == Exec(Apply(w, step), rest)
  {
    assert ([step] + rest)[1..] == rest;
  }

  lemma CrowdStarts()
    ensures Crowd(0) == Initial({}, {})
  {
    assert Crowd(0).ports == Initial({}, {}).ports;
    assert Crowd(0).pool == map[];
  }

  lemma FullCrowd()
    ensures var w := Crowd(MAX_PORTS);
            Zombie(w, 0, 1) && FirstNull(w.ports, 0) == MAX_PORTS == |w.ports|
  {
  }

  /** A zombie in a full table is not healed: creation stops before it looks at the number. */
  lemma FullTableIsNotHealed()
    ensures Legal(Initial({}, {}), Creates(0)) && Exec(Initial({}, {}), Creates(0)) == Crowd(MAX_PORTS)
    ensures var w := Crowd(MAX_PORTS);
            Zombie(w, 0, 1) && CreatePortCall(w, 1, true, NoFault, NOBODY, NoFault) == (w, InsufficientResources)
  {
    hide Creates, Inv, Legal, Exec, FirstNull;
    CrowdStarts();
    CrowdFills(0);
    FullCrowd();
  }
}
