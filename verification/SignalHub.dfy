/** GcomSignalChanged as one handler runs it, and what a companion watcher sees when handlers run one at a time. */
module SignalHubs {
  import opened Prelude
  import opened Bits
  import opened Signals
  import opened SignalSettings

  /** How a pended wait is completed with the snapshot at place k. */
  function Answer(w: Waiter, k: nat): Completion {
    if w.fits then Completion(w, Success, Some(k)) else Completion(w, BufferTooSmall, None)
  }

  function Answers(ws: seq<Waiter>, k: nat): seq<Completion> {
    seq(|ws|, i requires 0 <= i < |ws| => Answer(ws[i], k))
  }

  /** What one handler does with no other in flight: every wait is told, no bit stays behind. */
  function Alone(s: State, req: Request): State {
    if !s.active then s
    else
      var next, config := (s.sequenceNumber + 1) % U32, Stores(s.config, req);
      s.(sequenceNumber := next, changedMask := {}, config := config,
         taken := s.taken + [Snapshot(next, ChangedBits(req), config)],
         waiters := [], completions := s.completions + Answers(s.waiters, |s.taken|))
  }

  class SignalHub {
    var active: bool
    var sequenceNumber: nat
    var changedMask: set<Group>
    var settings: Config
    var signalWaitQueue: seq<Waiter>
    /** The history: the initial settings, the snapshots and the completions. */
    var first: Config
    var taken: seq<Snapshot>
    var completions: seq<Completion>

    function Abs(): State
      reads this
    {
      State(active, active, sequenceNumber, changedMask, settings, signalWaitQueue, map[], first, taken, completions)
    }

    constructor (settings: Config)
      ensures Abs() == Initial(settings)
    {
      active, sequenceNumber, changedMask, this.settings, signalWaitQueue := true, 0, {}, settings, [];
      first, taken, completions := settings, [], [];
    }

    method SignalChanged(changedBits: set<Group>)
      modifies this
      ensures Abs() == if !old(active) then old(Abs()) else
                var next, mask := (old(sequenceNumber) + 1) % U32, old(changedMask) + changedBits;
                old(Abs()).(sequenceNumber := next, changedMask := {},
                            taken := old(taken) + [Snapshot(next, mask, old(settings))],
                            waiters := [],
                            completions := old(completions) + Answers(old(signalWaitQueue), |old(taken)|))
    {
      if !active {
        return;
      }
      sequenceNumber := (sequenceNumber + 1) % U32;
      changedMask := changedMask + changedBits;
      var snapshot, k := Snapshot(sequenceNumber, changedMask, settings), |taken|;
      taken := taken + [snapshot];
      while signalWaitQueue != []
        invariant active && sequenceNumber == snapshot.sequenceNumber && changedMask == snapshot.changedMask
        invariant settings == old(settings) && first == old(first) && taken == old(taken) + [snapshot]
        invariant completions + Answers(signalWaitQueue, k) == old(completions) + Answers(old(signalWaitQueue), k)
        decreases |signalWaitQueue|
      {
        var waitReq := signalWaitQueue[0];
        assert Answers(signalWaitQueue, k) == [Answer(waitReq, k)] + Answers(signalWaitQueue[1..], k);
        signalWaitQueue := signalWaitQueue[1..];
        completions := completions + [Answer(waitReq, k)];
      }
      changedMask := changedMask - snapshot.changedMask;
    }

    /**
     A COM-side handler: store the fields under the lock, then signal. The snapshot it takes shows
     the values the request names and otherwise those before it, and its bits are the request's.
     */
    method Handle(req: Request)
      requires changedMask == {}
      modifies this
      ensures Abs() == Alone(old(Abs()), req)
      ensures old(active) ==>
                && |taken| == |old(taken)| + 1 && LastWriterWins(taken[|taken|-1].config, [req], old(settings))
                && forall g :: g in taken[|taken|-1].changedMask <==> Announces(req, g)
    {
      if !active {
        return;
      }
      assert changedMask + ChangedBits(req) == ChangedBits(req);
      HandlesOne(settings, req);
      hide LastWriterWins, Announces, ChangedBits, Stores;
      settings := Stores(settings, req);
      SignalChanged(ChangedBits(req));
    }

    /** IOCTL_GCOM_WAIT_SIGNAL_CHANGE. */
    method WaitSignalChange(w: Waiter, forwards: bool) returns (pended: bool)
      modifies this
      ensures Abs() == Apply(old(Abs()), Wait(w, forwards))
      ensures pended <==> old(active) && forwards
    {
      pended := false;
      if !active {
        completions := completions + [Completion(w, DeviceNotConnected, None)];
      } else if forwards {
        signalWaitQueue := signalWaitQueue + [w];
        pended := true;
      } else {
        completions := completions + [Completion(w, ForwardFailed, None)];
      }
    }

    /** CancelIoEx on a pended wait. */
    method CancelPendedWait(i: nat)
      requires i < |signalWaitQueue|
      modifies this
      ensures Abs() == Apply(old(Abs()), CancelWait(i))
    {
      completions := completions + [Completion(signalWaitQueue[i], Cancelled, None)];
      signalWaitQueue := Without(signalWaitQueue, i);
    }

    /** The part of GcomPortPairDestroy that concerns the signal queue: deleting the device cancels every wait. */
    method Teardown()
      requires active
      modifies this
      ensures Abs() == Apply(old(Abs()), Destroy)
    {
      active := false;
      while signalWaitQueue != []
        invariant completions + Cancels(signalWaitQueue) == old(completions) + Cancels(old(signalWaitQueue))
        invariant !active && unchanged(`sequenceNumber, `changedMask, `settings, `first, `taken)
        decreases |signalWaitQueue|
      {
        var w := signalWaitQueue[0];
        assert Cancels(signalWaitQueue) == [Completion(w, Cancelled, None)] + Cancels(signalWaitQueue[1..]);
        signalWaitQueue := signalWaitQueue[1..];
        completions := completions + [Completion(w, Cancelled, None)];
      }
      assert completions + Cancels([]) == completions;
      assert Apply(old(Abs()), Destroy).completions == old(completions) + Cancels(old(signalWaitQueue));
    }
  }

  /** What one request stores and announces. */
  lemma HandlesOne(settings: Config, req: Request)
    ensures LastWriterWins(Stores(settings, req), [req], settings)
    ensures forall g :: g in ChangedBits(req) <==> Announces(req, g)
  {
    hide LastWriterWins, Stores, Announces, ChangedBits;
    NothingNamed(settings);
    StoreNamesLast(settings, [], settings, req);
    assert [] + [req] == [req];
    forall g
      ensures g in ChangedBits(req) <==> Announces(req, g)
    {
      BitsAreTheNamed(req, g);
    }
  }

  function Cancels(ws: seq<Waiter>): seq<Completion> {
    seq(|ws|, i requires 0 <= i < |ws| => Completion(ws[i], Cancelled, None))
  }

  /* ------------------------------------------- Alone is a run of the protocol */

  /** The sections of one handler, one after another. */
  ghost function Sections(req: Request, waits: nat): seq<Step> {
    [Store(0, req), Snap(0)] + seq(waits, _ => Deliver(0)) + [EndLoop(0), Clear(0)]
  }

  lemma {:induction false} DeliverRun(s: State, waits: nat, tail: seq<Step>)
    requires 0 in s.calls && s.calls[0].Delivering? && waits == |s.waiters|
    requires var t := s.(waiters := [], completions := s.completions + Answers(s.waiters, s.calls[0].k));
             Legal(t, tail)
    ensures var t := s.(waiters := [], completions := s.completions + Answers(s.waiters, s.calls[0].k));
            var run := seq(waits, _ => Deliver(0)) + tail;
            Legal(s, run) && Exec(s, run) == Exec(t, tail)
    decreases waits
  {
    var k, run := s.calls[0].k, seq(waits, _ => Deliver(0)) + tail;
    var t := s.(waiters := [], completions := s.completions + Answers(s.waiters, k));
    if waits == 0 {
      assert run == tail;
      assert t == s by { assert s.completions + Answers(s.waiters, k) == s.completions; }
    } else {
      var s' := DoDeliver(s, 0);
      assert Answers(s.waiters, k) == [Answer(s.waiters[0], k)] + Answers(s.waiters[1..], k);
      Assoc(s.completions, [Answer(s.waiters[0], k)], Answers(s.waiters[1..], k));
      DeliverRun(s', waits - 1, tail);
      assert run[0] == Deliver(0) && run[1..] == seq(waits - 1, _ => Deliver(0)) + tail;
    }
  }

  /** The state when the delivery loop of a lone handler ends. */
  function AfterLoop(s: State, req: Request): State {
    var next, config := (s.sequenceNumber + 1) % U32, Stores(s.config, req);
    s.(sequenceNumber := next, changedMask := ChangedBits(req), config := config,
       taken := s.taken + [Snapshot(next, ChangedBits(req), config)],
       calls := map[0 := Delivering(req, |s.taken|)],
       waiters := [], completions := s.completions + Answers(s.waiters, |s.taken|))
  }

  lemma LoneEnd(s: State, req: Request)
    requires s.active && s.calls == map[]
    ensures var tail := [EndLoop(0), Clear(0)];
            Legal(AfterLoop(s, req), tail) && Exec(AfterLoop(s, req), tail) == Alone(s, req)
  {
    var s3, tail := AfterLoop(s, req), [EndLoop(0), Clear(0)];
    var s4 := Apply(s3, EndLoop(0));
    var s5 := Apply(s4, Clear(0));
    assert s5.calls == map[] && s5.changedMask == {};
    assert s5 == Alone(s, req);
    assert tail[1..] == [Clear(0)];
    assert Legal(s5, []) && Legal(s4, [Clear(0)]) && Exec(s4, [Clear(0)]) == s5;
  }

  lemma LoneStart(s: State, req: Request)
    requires s.active && s.queueLive && s.calls == map[] && s.changedMask == {}
    ensures Enabled(s, Store(0, req)) && Enabled(Apply(s, Store(0, req)), Snap(0))
    ensures var s2 := Apply(Apply(s, Store(0, req)), Snap(0));
            && s2.waiters == s.waiters && s2.calls == map[0 := Delivering(req, |s.taken|)]
            && s2.(waiters := [], completions := s.completions + Answers(s.waiters, |s.taken|)) == AfterLoop(s, req)
  {
    assert s.changedMask + ChangedBits(req) == ChangedBits(req);
  }

  /** What GcomSignalChanged does in one go is the run of its sections in the concurrent protocol. */
  lemma AloneIsARun(s: State, req: Request)
    requires Inv(s) && s.active && s.calls == map[] && s.changedMask == {}
    ensures var run := Sections(req, |s.waiters|);
            Legal(s, run) && Exec(s, run) == Alone(s, req)
  {
    LoneStart(s, req);
    LoneEnd(s, req);
    var n, tail := |s.waiters|, [EndLoop(0), Clear(0)];
    DeliverRun(Apply(Apply(s, Store(0, req)), Snap(0)), n, tail);
    var rest := seq(n, _ => Deliver(0)) + tail;
    var run := Sections(req, n);
    assert run[1..] == [Snap(0)] + rest && run[1..][1..] == rest;
  }

  lemma AloneKeeps(s: State, req: Request)
    requires Inv(s) && s.calls == map[] && s.changedMask == {}
    ensures Inv(Alone(s, req)) && Alone(s, req).calls == map[] && Alone(s, req).changedMask == {}
  {
    if s.active {
      AloneIsARun(s, req);
      RunKeeps(s, Sections(req, |s.waiters|));
    }
  }

  /* ----------------------------------------------------------------- the watcher */

  /**
   What happens around a watcher: a change by one handler; its next turn, whose IOCTL the driver
   may refuse; the cancellation of its pended wait; its stop; the destruction of the pair.
   */
  datatype Event =
    | Change(req: Request)
    | Rewait(id: nat, forwards: bool)
    | WaitCancelled
    | Stop
    | PairDestroyed

  /** What a watcher saw: the place of the snapshot, the request behind it, the changes missed just before. */
  datatype Sight = Sight(k: nat, req: Request, missed: nat)

  datatype Watch = Watch(hub: State, stopped: bool, missed: nat, seen: seq<Sight>)

  function WithoutWait(hub: State): State {
    if hub.waiters == [] then hub else Apply(hub, CancelWait(0))
  }

  /** SignalWatcher::thread_main: it issues a wait only when it has none pended, until it is stopped. */
  function Advance(w: Watch, e: Event): Watch {
    match e
    case Change(req) =>
      var hub := Alone(w.hub, req);
      if !w.hub.active then w
      else if w.hub.waiters == [] then w.(hub := hub, missed := w.missed + 1)
      else w.(hub := hub, missed := 0, seen := w.seen + [Sight(|w.hub.taken|, req, w.missed)])
    case Rewait(id, forwards) =>
      if w.hub.waiters == [] && !w.stopped then w.(hub := Apply(w.hub, Wait(Waiter(id, true), forwards))) else w
    case WaitCancelled => w.(hub := WithoutWait(w.hub))
    case Stop => w.(hub := WithoutWait(w.hub), stopped := true)
    case PairDestroyed => if w.hub.active then w.(hub := Apply(w.hub, Destroy)) else w
  }

  function Observe(w: Watch, events: seq<Event>): Watch
    decreases |events|
  {
    if events == [] then w else Observe(Advance(w, events[0]), events[1..])
  }

  /** At most one wait of the watcher is pended, only on a live pair, and no handler is in flight. */
  ghost predicate HubOk(hub: State) {
    && Inv(hub) && hub.calls == map[] && hub.changedMask == {}
    && |hub.waiters| <= 1 && (forall x | x in hub.waiters :: x.fits)
    && (!hub.active ==> hub.waiters == [])
  }

  /** What was told is what was seen, each mask is its request's, and the gaps count the missed changes. */
  ghost predicate SightsOk(taken: seq<Snapshot>, told: seq<nat>, seen: seq<Sight>, missed: nat) {
    && told == seq(|seen|, i requires 0 <= i < |seen| => seen[i].k)
    && (forall i | 0 <= i < |seen| ::
          seen[i].k < |taken| && taken[seen[i].k].changedMask == ChangedBits(seen[i].req))
    && (forall i | 0 < i < |seen| :: seen[i].k == seen[i-1].k + 1 + seen[i].missed)
    && |taken| == (if seen == [] then 0 else seen[|seen|-1].k + 1) + missed
    && (seen != [] ==> seen[0].k == seen[0].missed)
  }

  ghost predicate WatchInv(w: Watch) {
    HubOk(w.hub) && SightsOk(w.hub.taken, Told(w.hub.completions), w.seen, w.missed)
  }

  /** What one handler does to the only waiter, if there is one. */
  lemma ChangeTells(hub: State, req: Request)
    requires HubOk(hub) && hub.active
    ensures var t := Alone(hub, req);
            && HubOk(t) && t.waiters == []
            && |t.taken| == |hub.taken| + 1 && t.taken[..|hub.taken|] == hub.taken
            && t.taken[|hub.taken|].changedMask == ChangedBits(req)
            && Told(t.completions) == Told(hub.completions) + (if hub.waiters == [] then [] else [|hub.taken|])
  {
    AloneKeeps(hub, req);
    if hub.waiters == [] {
      assert hub.completions + Answers([], |hub.taken|) == hub.completions;
    } else {
      assert Answers(hub.waiters, |hub.taken|) == [Answer(hub.waiters[0], |hub.taken|)];
      ToldSnoc(hub.completions, Answer(hub.waiters[0], |hub.taken|));
    }
  }

  /** Everything but a change tells the watcher nothing and takes no snapshot. */
  predicate TellsNothing(hub: State, t: State) {
    t.taken == hub.taken && Told(t.completions) == Told(hub.completions)
  }

  lemma WaitOk(hub: State, id: nat, forwards: bool)
    requires HubOk(hub) && hub.waiters == []
    ensures var t := Apply(hub, Wait(Waiter(id, true), forwards)); HubOk(t) && TellsNothing(hub, t)
  {
    var step := Wait(Waiter(id, true), forwards);
    StepKeeps(hub, step);
    var t := Apply(hub, step);
    if |t.completions| > |hub.completions| {
      ToldSnoc(hub.completions, t.completions[|hub.completions|]);
    }
  }

  lemma CancelOk(hub: State)
    requires HubOk(hub)
    ensures HubOk(WithoutWait(hub)) && TellsNothing(hub, WithoutWait(hub)) && WithoutWait(hub).waiters == []
  {
    if hub.waiters != [] {
      StepKeeps(hub, CancelWait(0));
      ToldSnoc(hub.completions, Completion(hub.waiters[0], Cancelled, None));
    }
  }

  lemma DestroyOk(hub: State)
    requires HubOk(hub) && hub.active
    ensures HubOk(Apply(hub, Destroy)) && TellsNothing(hub, Apply(hub, Destroy))
  {
    StepKeeps(hub, Destroy);
    ToldPlain(hub.completions, Cancels(hub.waiters));
  }

  lemma AdvanceKeeps(w: Watch, e: Event)
    requires WatchInv(w)
    ensures WatchInv(Advance(w, e))
  {
    hide HubOk, Told, Apply, WithoutWait;
    match e
    case Change(req) => if w.hub.active { ChangeKeeps(w, req); }
    case Rewait(id, forwards) => if w.hub.waiters == [] { WaitOk(w.hub, id, forwards); }
    case WaitCancelled => CancelOk(w.hub);
    case Stop => CancelOk(w.hub);
    case PairDestroyed => if w.hub.active { DestroyOk(w.hub); }
  }

  lemma ChangeMissed(taken: seq<Snapshot>, taken': seq<Snapshot>, told: seq<nat>, seen: seq<Sight>, missed: nat)
    requires SightsOk(taken, told, seen, missed) && |taken'| == |taken| + 1 && taken'[..|taken|] == taken
    ensures SightsOk(taken', told, seen, missed + 1)
  {
    hide ChangedBits;
    forall i | 0 <= i < |seen|
      ensures taken'[seen[i].k] == taken[seen[i].k]
    {
      assert taken'[..|taken|][seen[i].k] == taken[seen[i].k];
    }
  }

  lemma ChangeSeen(taken: seq<Snapshot>, taken': seq<Snapshot>, told: seq<nat>, seen: seq<Sight>, missed: nat, req: Request)
    requires SightsOk(taken, told, seen, missed) && |taken'| == |taken| + 1 && taken'[..|taken|] == taken
    requires taken'[|taken|].changedMask == ChangedBits(req)
    ensures SightsOk(taken', told + [|taken|], seen + [Sight(|taken|, req, missed)], 0)
  {
    hide ChangedBits;
    ChangeMissed(taken, taken', told, seen, missed);
    var seen' := seen + [Sight(|taken|, req, missed)];
    forall i | 0 <= i < |seen|
      ensures seen'[i] == seen[i]
    {
    }
  }

  lemma ChangeKeeps(w: Watch, req: Request)
    requires WatchInv(w) && w.hub.active
    ensures WatchInv(Advance(w, Change(req)))
  {
    hide HubOk, Alone, Told, SightsOk;
    ChangeTells(w.hub, req);
    var t, told := Alone(w.hub, req), Told(w.hub.completions);
    if w.hub.waiters == [] {
      assert told + [] == told;
      ChangeMissed(w.hub.taken, t.taken, told, w.seen, w.missed);
    } else {
      ChangeSeen(w.hub.taken, t.taken, told, w.seen, w.missed, req);
    }
  }

  lemma {:induction false} ObserveKeeps(w: Watch, events: seq<Event>)
    requires WatchInv(w)
    ensures WatchInv(Observe(w, events))
    decreases |events|
  {
    if events != [] {
      AdvanceKeeps(w, events[0]);
      ObserveKeeps(Advance(w, events[0]), events[1..]);
    }
  }

  /**
   When handlers run one at a time, each snapshot a watcher is told carries exactly the bits of
   the one request behind it; its sequence number is the previous one plus one plus the number
   of changes made while no wait was pended, modulo 2^32; missed bits never come back.
   */
  lemma WatcherSeesGaps(config: Config, events: seq<Event>, i: nat)
    requires var w := Observe(Watch(Initial(config), false, 0, []), events); i < |w.seen|
    ensures var w := Observe(Watch(Initial(config), false, 0, []), events);
            && Told(w.hub.completions) == seq(|w.seen|, j requires 0 <= j < |w.seen| => w.seen[j].k)
            && w.seen[i].k < |w.hub.taken|
            && var snap := w.hub.taken[w.seen[i].k];
               && snap.changedMask == ChangedBits(w.seen[i].req)
               && (i == 0 ==> snap.sequenceNumber == (w.seen[i].missed + 1) % U32)
               && (i > 0 ==> w.seen[i-1].k < |w.hub.taken|
                             && var before := w.hub.taken[w.seen[i-1].k];
                                snap.sequenceNumber == (before.sequenceNumber + 1 + w.seen[i].missed) % U32)
  {
    hide Observe, WatchInv;
    StartOk(config);
    ObserveKeeps(Watch(Initial(config), false, 0, []), events);
    GapOf(Observe(Watch(Initial(config), false, 0, []), events), i);
  }

  lemma GapOf(w: Watch, i: nat)
    requires WatchInv(w) && i < |w.seen|
    ensures Told(w.hub.completions) == seq(|w.seen|, j requires 0 <= j < |w.seen| => w.seen[j].k)
    ensures w.seen[i].k < |w.hub.taken|
    ensures var snap := w.hub.taken[w.seen[i].k];
            && snap.changedMask == ChangedBits(w.seen[i].req)
            && (i == 0 ==> snap.sequenceNumber == (w.seen[i].missed + 1) % U32)
            && (i > 0 ==> w.seen[i-1].k < |w.hub.taken|
                          && var before := w.hub.taken[w.seen[i-1].k];
                             snap.sequenceNumber == (before.sequenceNumber + 1 + w.seen[i].missed) % U32)
  {
    hide ChangedBits, Told, Carried, Fresh;
    if i > 0 {
      SumResidue(w.seen[i-1].k + 1, 1 + w.seen[i].missed);
    }
  }

  lemma SumResidue(a: nat, b: nat)
    ensures (a % U32 + b) % U32 == (a + b) % U32
  {
    var qa, qs := a / U32, (a % U32 + b) / U32;
    DivModUnique(a + b, U32, qa + qs, (a % U32 + b) % U32);
  }

  /** In any run of fewer than 2^32 changes the numbers a watcher sees strictly increase. */
  lemma WatcherNumbersIncrease(config: Config, events: seq<Event>, i: nat, j: nat)
    requires var w := Observe(Watch(Initial(config), false, 0, []), events);
             i < j < |w.seen| && |w.hub.taken| < U32
    ensures var w := Observe(Watch(Initial(config), false, 0, []), events);
            w.seen[i].k < w.seen[j].k < |w.hub.taken|
            && w.hub.taken[w.seen[i].k].sequenceNumber < w.hub.taken[w.seen[j].k].sequenceNumber
  {
    hide Observe, WatchInv;
    StartOk(config);
    ObserveKeeps(Watch(Initial(config), false, 0, []), events);
    NumbersIncrease(Observe(Watch(Initial(config), false, 0, []), events), i, j);
  }

  lemma StartOk(config: Config)
    ensures WatchInv(Watch(Initial(config), false, 0, []))
  {
  }

  lemma NumbersIncrease(w: Watch, i: nat, j: nat)
    requires WatchInv(w) && i < j < |w.seen| && |w.hub.taken| < U32
    ensures w.seen[i].k < w.seen[j].k < |w.hub.taken|
    ensures w.hub.taken[w.seen[i].k].sequenceNumber < w.hub.taken[w.seen[j].k].sequenceNumber
  {
    hide ChangedBits, Told, Carried, Fresh;
    PlacesIncrease(w, i, j);
  }

  lemma {:induction false} PlacesIncrease(w: Watch, i: nat, j: nat)
    requires WatchInv(w) && i < j < |w.seen|
    ensures w.seen[i].k < w.seen[j].k
  {
    if i < j - 1 {
      PlacesIncrease(w, i, j - 1);
    }
  }

  /* ------------------------------------------------------- when the watcher sees a change */

  /** A change is seen exactly when the watcher has a wait pended; then it is the newest sight, and no wait is left. */
  lemma ChangeSeenIff(w: Watch, req: Request)
    requires WatchInv(w)
    ensures var t := Advance(w, Change(req));
            && t.hub.waiters == [] && t.stopped == w.stopped && t.hub.active == w.hub.active
            && if w.hub.waiters != [] then
                 |t.seen| == |w.seen| + 1 && t.seen[..|w.seen|] == w.seen
                 && t.seen[|w.seen|].k == |w.hub.taken| && t.seen[|w.seen|].req == req && t.seen[|w.seen|].missed == w.missed
               else
                 t.seen == w.seen
  {
    hide Inv, SightsOk, Told, Stores, ChangedBits, Answers;
  }

  /** Its next turn pends a wait exactly on a live pair, if it was not stopped, none is pended and the driver takes it. */
  lemma RewaitPendsIff(w: Watch, id: nat, forwards: bool)
    requires WatchInv(w)
    ensures var t := Advance(w, Rewait(id, forwards));
            && t.seen == w.seen && t.stopped == w.stopped && t.hub.active == w.hub.active
            && (t.hub.waiters != [] <==> w.hub.waiters != [] || (w.hub.active && !w.stopped && forwards))
  {
    hide Inv, SightsOk, Told;
  }

  /** So a watcher that was not stopped goes on: whatever it saw, after its next turn it sees the next change. */
  lemma WatcherKeepsWatching(w: Watch, a: Request, id: nat, b: Request)
    requires WatchInv(w) && w.hub.active && !w.stopped
    ensures var t := Observe(w, [Change(a), Rewait(id, true), Change(b)]);
            && |t.seen| == |w.seen| + (if w.hub.waiters != [] then 2 else 1)
            && t.seen[|t.seen|-1].req == b
  {
    hide WatchInv, Advance, Observe;
    var e1, e2, e3 := Change(a), Rewait(id, true), Change(b);
    var w1 := Advance(w, e1);
    AdvanceKeeps(w, e1);
    ChangeSeenIff(w, a);
    AdvanceKeeps(w1, e2);
    RewaitPendsIff(w1, id, true);
    ChangeSeenIff(Advance(w1, e2), b);
    ObserveThree(w, e1, e2, e3);
  }

  lemma ObserveThree(w: Watch, e1: Event, e2: Event, e3: Event)
    ensures Observe(w, [e1, e2, e3]) == Advance(Advance(Advance(w, e1), e2), e3)
  {
    hide Advance;
    var w1 := Advance(w, e1);
    assert [e1, e2, e3][1..] == [e2, e3] && [e2, e3][1..] == [e3] && [e3][1..] == [];
    assert Observe(w, [e1, e2, e3]) == Observe(w1, [e2, e3]);
    assert Observe(w1, [e2, e3]) == Observe(Advance(w1, e2), [e3]);
    assert Observe(Advance(w1, e2), [e3]) == Observe(Advance(Advance(w1, e2), e3), []);
  }

  lemma {:induction false} StoppedSeesNothing(w: Watch, events: seq<Event>)
    requires w.stopped && w.hub.waiters == []
    ensures var t := Observe(w, events); t.stopped && t.hub.waiters == [] && t.seen == w.seen
    decreases |events|
  {
    if events != [] {
      StoppedSeesNothing(Advance(w, events[0]), events[1..]);
    }
  }

  lemma {:induction false} ObserveConcat(w: Watch, a: seq<Event>, b: seq<Event>)
    ensures Observe(w, a + b) == Observe(Observe(w, a), b)
    decreases |a|
  {
    if a == [] {
      assert a + b == b;
    } else {
      assert (a + b)[0] == a[0] && (a + b)[1..] == a[1..] + b;
      ObserveConcat(Advance(w, a[0]), a[1..], b);
    }
  }

  /** Nothing is seen after a stop, whatever happens, and no wait of the watcher is left pended. */
  lemma NothingSeenAfterStop(config: Config, before: seq<Event>, after: seq<Event>)
    ensures var start := Watch(Initial(config), false, 0, []);
            var t := Observe(start, before + ([Stop] + after));
            t.seen == Observe(start, before).seen && t.hub.waiters == []
  {
    var start := Watch(Initial(config), false, 0, []);
    var w := Observe(start, before);
    StartOk(config);
    ObserveKeeps(start, before);
    ObserveConcat(start, before, [Stop] + after);
    CancelOk(w.hub);
    hide WatchInv, HubOk;
    assert ([Stop] + after)[1..] == after;
    StoppedSeesNothing(Advance(w, Stop), after);
  }

  /** A change made while no wait is pended is not kept for a later one: its bits are gone when the next change is told. */
  lemma MissedChangeIsNotTold(config: Config)
    ensures var w := Observe(Watch(Initial(config), false, 0, []), [Change(SetDtr), Rewait(0, true), Change(SetRts)]);
            && w.seen == [Sight(1, SetRts, 1)] && |w.hub.taken| == 2
            && w.hub.taken[0].changedMask == {Dtr} && w.hub.taken[1].changedMask == {Rts}
  {
    var a, b, c := Change(SetDtr), Rewait(0, true), Change(SetRts);
    var w0 := Watch(Initial(config), false, 0, []);
    var w1 := Advance(w0, a);
    var w2 := Advance(w1, b);
    var w3 := Advance(w2, c);
    assert w3.seen == [Sight(1, SetRts, 1)];
    assert [a, b, c][1..] == [b, c] && [b, c][1..] == [c] && [c][1..] == [];
    assert Observe(w3, []) == w3;
    assert Observe(w2, [c]) == w3;
    assert Observe(w1, [b, c]) == w3;
  }
}
