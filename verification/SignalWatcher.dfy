/** SignalWatcher::thread_main of addon/src/signals.rs, run against the signal hub. */
module SignalWatchers {
  import opened Prelude
  import opened Signals
  import opened SignalHubs

  /** What was handed to the callback is, sight by sight, the snapshot the hub told. */
  ghost predicate SeenIs(w: Watch, seen: seq<Snapshot>) {
    |seen| == |w.seen| && forall i | 0 <= i < |seen| ::
      w.seen[i].k < |w.hub.taken| && seen[i] == w.hub.taken[w.seen[i].k]
  }

  /** A change completes the wait, if there is one; the result is read from the buffer only on success. */
  method Changed(hub: SignalHub, req: Request, waiting: bool) returns (told: Option<Snapshot>)
    requires HubOk(hub.Abs()) && (waiting <==> hub.signalWaitQueue != [])
    modifies hub
    ensures hub.Abs() == Alone(old(hub.Abs()), req) && hub.signalWaitQueue == []
    ensures told.Some? <==> waiting
    ensures told.Some? ==> hub.taken == old(hub.taken) + [told.value]
  {
    hide Inv;
    ghost var was := hub.Abs();
    told := None;
    hub.Handle(req);
    if waiting {
      assert Answers(was.waiters, |was.taken|) == [Answer(was.waiters[0], |was.taken|)];
      var c := hub.completions[|hub.completions| - 1];
      if c.status == Success {
        told := Some(hub.taken[c.k.value]);
      }
    }
  }

  /**
   One turn of the loop, or of the world around it. With no wait outstanding and no stop asked
   for, the IOCTL is issued; a failure or a cancellation means another turn; when a change
   completes the wait, the snapshot in the buffer goes to the callback.
   */
  method Turn(hub: SignalHub, e: Event, waiting: bool, shutdown: bool, ghost w: Watch)
    returns (waiting': bool, shutdown': bool, told: Option<Snapshot>)
    requires w.hub == hub.Abs() && HubOk(w.hub) && (waiting <==> w.hub.waiters != []) && shutdown == w.stopped
    modifies hub
    ensures hub.Abs() == Advance(w, e).hub && shutdown' == Advance(w, e).stopped
    ensures waiting' <==> hub.signalWaitQueue != []
    ensures told.Some? <==> e.Change? && waiting
    ensures told.Some? ==> hub.taken == w.hub.taken + [told.value]
  {
    hide Inv;
    waiting', shutdown', told := waiting, shutdown, None;
    match e
    case Rewait(id, forwards) =>
      if !waiting && !shutdown {
        waiting' := hub.WaitSignalChange(Waiter(id, true), forwards);
      }
    case WaitCancelled =>
      if waiting {
        hub.CancelPendedWait(0);
        waiting' := false;
      }
    case Stop =>
      shutdown' := true;
      if waiting {
        hub.CancelPendedWait(0);
        waiting' := false;
      }
    case PairDestroyed =>
      if hub.active {
        hub.Teardown();
        waiting' := false;
      }
    case Change(req) =>
      told := Changed(hub, req, waiting);
      waiting' := false;
  }

  /** The loop of the watcher thread over any course of events; after a stop the rest happens without it. */
  method ThreadMain(hub: SignalHub, events: seq<Event>, ghost config: Config) returns (seen: seq<Snapshot>)
    requires hub.Abs() == Initial(config)
    modifies hub
    ensures var w := Observe(Watch(Initial(config), false, 0, []), events);
            hub.Abs() == w.hub && SeenIs(w, seen)
  {
    hide WatchInv, HubOk, ChangedBits, Stores;
    StartOk(config);
    ghost var w := Watch(Initial(config), false, 0, []);
    var rest, waiting, shutdown := events, false, false;
    seen := [];
    while rest != []
      invariant w.hub == hub.Abs() && WatchInv(w) && (waiting <==> w.hub.waiters != []) && shutdown == w.stopped
      invariant Observe(w, rest) == Observe(Watch(Initial(config), false, 0, []), events)
      invariant SeenIs(w, seen)
      decreases |rest|
    {
      var told;
      HubIsOk(w);
      waiting, shutdown, told := Turn(hub, rest[0], waiting, shutdown, w);
      AdvanceKeeps(w, rest[0]);
      SeenAdvances(w, rest[0], seen, told);
      if told.Some? {
        seen := seen + [told.value];
      }
      w := Advance(w, rest[0]);
      rest := rest[1..];
    }
  }

  lemma HubIsOk(w: Watch)
    requires WatchInv(w)
    ensures HubOk(w.hub)
  {
  }

  lemma SeenAdvances(w: Watch, e: Event, seen: seq<Snapshot>, told: Option<Snapshot>)
    requires WatchInv(w) && SeenIs(w, seen)
    requires told.Some? <==> e.Change? && w.hub.waiters != []
    requires told.Some? ==> Advance(w, e).hub.taken == w.hub.taken + [told.value]
    ensures SeenIs(Advance(w, e), if told.Some? then seen + [told.value] else seen)
  {
    hide Inv, Told, SightsOk, ChangedBits, Stores, Answers;
    var t := Advance(w, e);
    assert |t.hub.taken| >= |w.hub.taken| && t.hub.taken[..|w.hub.taken|] == w.hub.taken;
    forall i | 0 <= i < |seen|
      ensures t.seen[i] == w.seen[i] && t.hub.taken[w.seen[i].k] == seen[i]
    {
      assert t.hub.taken[..|w.hub.taken|][w.seen[i].k] == w.hub.taken[w.seen[i].k];
    }
  }
}
