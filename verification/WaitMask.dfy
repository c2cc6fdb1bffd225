/**
 WaitCommEvent: the mask of events a COM client asks for, the queue of its WAIT_ON_MASK requests
 and the GcomCheckWaitMask calls that answer them. A call reads the mask under SignalLock and
 answers waits after it let go of the lock, in parallel with SET_WAIT_MASK, which stores a mask
 under the lock and purges the queue after it. A step is one of these sections, one answered
 wait, or one arrival. Events are bit numbers.
 */
module WaitMasks {
  import opened Prelude

  /**
   A call past its look at the mask: the events it was made for, those of them it found asked for,
   and the place k of the mask among all masks stored.
   */
  datatype Call = Call(occurred: set<nat>, matched: set<nat>, k: int)

  /** A pended WAIT_ON_MASK; fits says whether its output buffer holds a ULONG. */
  datatype Waiter = Waiter(id: nat, fits: bool)

  /** told is the call whose events the waiter was given. */
  datatype Completion = Completion(waiter: Waiter, status: NtStatus, told: Option<Call>)

  /** masks lists every mask ever stored, completions every completed wait, in order; setters are between store and purge. */
  datatype State = State(active: bool, mask: set<nat>, masks: seq<set<nat>>, waiters: seq<Waiter>,
                         calls: map<nat, Call>, setters: set<nat>, completions: seq<Completion>)

  datatype Step =
    | StoreMask(id: nat, mask: set<nat>)
    | PurgeWaits(id: nat)
    | Look(id: nat, events: set<nat>)
    | Complete(id: nat)
    | EndLoop(id: nat)
    | Wait(waiter: Waiter, forwards: bool)
    | CancelWait(i: nat)
    | Destroy

  predicate Enabled(s: State, step: Step) {
    match step
    case StoreMask(id, _) => s.active && id !in s.setters
    case PurgeWaits(id) => id in s.setters
    case Look(id, _) => id !in s.calls
    case Complete(id) => id in s.calls && s.waiters != []
    case EndLoop(id) => id in s.calls && s.waiters == []
    case Wait(_, _) => true
    case CancelWait(i) => i < |s.waiters|
    case Destroy => s.active
  }

  function Cancels(ws: seq<Waiter>): seq<Completion> {
    seq(|ws|, i requires 0 <= i < |ws| => Completion(ws[i], Cancelled, None))
  }

  function Answer(w: Waiter, c: Call): Completion {
    if w.fits then Completion(w, Success, Some(c)) else Completion(w, BufferTooSmall, None)
  }

  function Apply(s: State, step: Step): State
    requires Enabled(s, step)
  {
    match step
    case StoreMask(id, mask) => s.(mask := mask, masks := s.masks + [mask], setters := s.setters + {id})
    case PurgeWaits(id) =>
      s.(setters := s.setters - {id}, waiters := [], completions := s.completions + Cancels(s.waiters))
    case Look(id, events) =>
      if !s.active || events * s.mask == {} then s
      else s.(calls := s.calls[id := Call(events, events * s.mask, |s.masks| - 1)])
    case Complete(id) =>
      s.(waiters := s.waiters[1..], completions := s.completions + [Answer(s.waiters[0], s.calls[id])])
    case EndLoop(id) => s.(calls := s.calls - {id})
    case Wait(w, forwards) =>
      if !s.active then s.(completions := s.completions + [Completion(w, DeviceNotConnected, None)])
      else if forwards then s.(waiters := s.waiters + [w])
      else s.(completions := s.completions + [Completion(w, ForwardFailed, None)])
    case CancelWait(i) =>
      s.(waiters := Without(s.waiters, i), completions := s.completions + [Completion(s.waiters[i], Cancelled, None)])
    case Destroy =>
      s.(active := false, waiters := [], completions := s.completions + Cancels(s.waiters))
  }

  predicate Legal(s: State, run: seq<Step>)
    decreases |run|
  {
    run == [] || (Enabled(s, run[0]) && Legal(Apply(s, run[0]), run[1..]))
  }

  function Exec(s: State, run: seq<Step>): State
    requires Legal(s, run)
    decreases |run|
  {
    if run == [] then s else Exec(Apply(s, run[0]), run[1..])
  }

  /** A zeroed pair waits for no event. */
  function Initial(): State {
    State(true, {}, [{}], [], map[], {}, [])
  }

  /* ----------------------------------------------------------- what a wait is told */

  /** The events that occurred and that a stored mask asked for; there are some. */
  ghost predicate CallOk(masks: seq<set<nat>>, c: Call) {
    0 <= c.k < |masks| && c.matched == c.occurred * masks[c.k] && c.matched != {}
  }

  /** The masks that a run stores, in order. */
  function StoredBy(run: seq<Step>): seq<set<nat>> {
    if run == [] then []
    else (if run[0].StoreMask? then [run[0].mask] else []) + StoredBy(run[1..])
  }

  /** Some call of the run was made for these events. */
  ghost predicate LookedFor(run: seq<Step>, events: set<nat>) {
    exists id :: Look(id, events) in run
  }

  /** A wait succeeds exactly when it is told events; only one without room for them is refused for that. */
  ghost predicate AnswerOk(s: State, run: seq<Step>, c: Completion) {
    && (c.status == Success <==> c.told.Some?)
    && (c.told.Some? ==> c.waiter.fits && CallOk(s.masks, c.told.value) && LookedFor(run, c.told.value.occurred))
    && (c.status == BufferTooSmall ==> !c.waiter.fits)
  }

  /** s is where the run led. */
  ghost predicate Inv(s: State, run: seq<Step>) {
    && s.masks == [{}] + StoredBy(run) && s.mask == s.masks[|s.masks|-1]
    && (!s.active ==> s.waiters == [])
    && (forall id | id in s.calls :: CallOk(s.masks, s.calls[id]) && LookedFor(run, s.calls[id].occurred))
    && (forall c | c in s.completions :: AnswerOk(s, run, c))
  }

  lemma {:induction false} StoredSnoc(run: seq<Step>, step: Step)
    ensures StoredBy(run + [step]) == StoredBy(run) + (if step.StoreMask? then [step.mask] else [])
    decreases |run|
  {
    if run != [] {
      assert (run + [step])[1..] == run[1..] + [step];
      StoredSnoc(run[1..], step);
    }
  }

  /** What was fit to be told stays so when more masks are stored and more calls made. */
  lemma OldCallsStay(masks: seq<set<nat>>, more: seq<set<nat>>, run: seq<Step>, step: Step, c: Call)
    requires CallOk(masks, c) && LookedFor(run, c.occurred) && masks <= more
    ensures CallOk(more, c) && LookedFor(run + [step], c.occurred)
  {
    var id :| Look(id, c.occurred) in run;
    assert Look(id, c.occurred) in run + [step];
  }

  lemma MasksGrow(s: State, run: seq<Step>, step: Step)
    requires Inv(s, run) && Enabled(s, step)
    ensures var t := Apply(s, step);
            s.masks <= t.masks && t.masks == [{}] + StoredBy(run + [step]) && t.mask == t.masks[|t.masks|-1]
  {
    StoredSnoc(run, step);
    assert StoredBy(run) + [] == StoredBy(run);
  }

  lemma StepKeeps(s: State, run: seq<Step>, step: Step)
    requires Inv(s, run) && Enabled(s, step)
    ensures Inv(Apply(s, step), run + [step])
  {
    var t := Apply(s, step);
    MasksGrow(s, run, step);
    hide StoredBy;
    forall id | id in t.calls
      ensures CallOk(t.masks, t.calls[id]) && LookedFor(run + [step], t.calls[id].occurred)
    {
      if id in s.calls && t.calls[id] == s.calls[id] {
        OldCallsStay(s.masks, t.masks, run, step, s.calls[id]);
      } else {
        assert Look(id, t.calls[id].occurred) in run + [step];
      }
    }
    forall c | c in t.completions
      ensures AnswerOk(t, run + [step], c)
    {
      if c in s.completions {
        if c.told.Some? { OldCallsStay(s.masks, t.masks, run, step, c.told.value); }
      } else {
        NewCompletion(s, run, step, c);
      }
    }
  }

  lemma NewCompletion(s: State, run: seq<Step>, step: Step, c: Completion)
    requires Inv(s, run) && Enabled(s, step) && c in Apply(s, step).completions && c !in s.completions
    ensures AnswerOk(Apply(s, step), run + [step], c)
  {
    hide StoredBy;
    if step.Complete? && s.waiters[0].fits {
      OldCallsStay(s.masks, s.masks, run, step, s.calls[step.id]);
    }
  }

  lemma {:induction false} RunKeeps(s: State, before: seq<Step>, run: seq<Step>)
    requires Inv(s, before) && Legal(s, run)
    ensures Inv(Exec(s, run), before + run)
    decreases |run|
  {
    if run == [] {
      assert before + run == before;
    } else {
      hide Inv, Apply, Enabled;
      StepKeeps(s, before, run[0]);
      RunKeeps(Apply(s, run[0]), before + [run[0]], run[1..]);
      assert before + [run[0]] + run[1..] == before + run;
    }
  }

  /**
   Over every run, a wait that succeeds is told exactly those events that some call was made for
   and that one of the masks stored, in their order, asked for, and there is one; and it has room
   for them. No other wait is told any.
   */
  lemma ToldWhatOccurred(run: seq<Step>, c: Completion)
    requires Legal(Initial(), run) && c in Exec(Initial(), run).completions
    ensures var masks := [{}] + StoredBy(run);
            && (c.status == Success <==> c.told.Some?)
            && (c.status == BufferTooSmall ==> !c.waiter.fits)
            && (c.told.Some? ==>
                  var call := c.told.value;
                  && c.waiter.fits && 0 <= call.k < |masks|
                  && LookedFor(run, call.occurred) && call.matched == call.occurred * masks[call.k] && call.matched != {})
  {
    RunKeeps(Initial(), [], run);
    assert [] + run == run;
  }

  /* -------------------------------------------------------------- exactly once */

  function Arriving(run: seq<Step>): seq<Waiter> {
    if run == [] then []
    else (if run[0].Wait? then [run[0].waiter] else []) + Arriving(run[1..])
  }

  function Finished(completions: seq<Completion>): seq<Waiter> {
    seq(|completions|, i requires 0 <= i < |completions| => completions[i].waiter)
  }

  function Held(s: State): multiset<Waiter> {
    multiset(s.waiters) + multiset(Finished(s.completions))
  }

  lemma FinishedConcat(a: seq<Completion>, b: seq<Completion>)
    ensures multiset(Finished(a + b)) == multiset(Finished(a)) + multiset(Finished(b))
  {
    assert Finished(a + b) == Finished(a) + Finished(b);
  }

  /** One more completion finishes its wait. */
  lemma OneFinished(completions: seq<Completion>, c: Completion)
    ensures multiset(Finished(completions + [c])) == multiset(Finished(completions)) + multiset{c.waiter}
  {
    FinishedConcat(completions, [c]);
    assert Finished([c]) == [c.waiter];
  }

  /** A purge, like destroy, finishes every pended wait. */
  lemma AllFinished(s: State)
    ensures multiset(Finished(s.completions + Cancels(s.waiters))) == Held(s)
  {
    FinishedConcat(s.completions, Cancels(s.waiters));
    assert Finished(Cancels(s.waiters)) == s.waiters;
  }

  lemma CompleteHolds(s: State, id: nat)
    requires Enabled(s, Complete(id))
    ensures Held(Apply(s, Complete(id))) == Held(s)
  {
    hide Finished;
    OneFinished(s.completions, Answer(s.waiters[0], s.calls[id]));
    assert s.waiters == [s.waiters[0]] + s.waiters[1..];
  }

  lemma CancelHolds(s: State, i: nat)
    requires Enabled(s, CancelWait(i))
    ensures Held(Apply(s, CancelWait(i))) == Held(s)
  {
    hide Finished, Without;
    OneFinished(s.completions, Completion(s.waiters[i], Cancelled, None));
    WithoutElements(s.waiters, i);
  }

  lemma WaitHolds(s: State, w: Waiter, forwards: bool)
    ensures Held(Apply(s, Wait(w, forwards))) == Held(s) + multiset{w}
  {
    hide Finished;
    if s.active && forwards {
      assert multiset(s.waiters + [w]) == multiset(s.waiters) + multiset{w};
    } else {
      OneFinished(s.completions, Completion(w, if s.active then ForwardFailed else DeviceNotConnected, None));
    }
  }

  lemma StepHolds(s: State, step: Step)
    requires Enabled(s, step)
    ensures Held(Apply(s, step)) == Held(s) + (if step.Wait? then multiset{step.waiter} else multiset{})
  {
    hide Finished, Cancels;
    match step
    case PurgeWaits(_) => AllFinished(s);
    case Destroy => AllFinished(s);
    case Complete(id) => CompleteHolds(s, id);
    case CancelWait(i) => CancelHolds(s, i);
    case Wait(w, forwards) => WaitHolds(s, w, forwards);
    case _ =>
  }

  lemma {:induction false} RunHolds(s: State, run: seq<Step>)
    requires Legal(s, run)
    ensures Held(Exec(s, run)) == Held(s) + multiset(Arriving(run))
    decreases |run|
  {
    if run != [] {
      hide Held, Apply;
      StepHolds(s, run[0]);
      RunHolds(Apply(s, run[0]), run[1..]);
      var first := if run[0].Wait? then [run[0].waiter] else [];
      assert multiset(Arriving(run)) == multiset(first) + multiset(Arriving(run[1..]));
    }
  }

  /**
   Exactly once, over every run of stores, purges, looks, answers, cancels, failed forwards and
   destroy: a wait is pended or completed exactly as often as it arrived.
   */
  lemma WaitsExactlyOnce(run: seq<Step>, w: Waiter)
    requires Legal(Initial(), run)
    ensures var t := Exec(Initial(), run);
            && multiset(t.waiters)[w] + multiset(Finished(t.completions))[w] == multiset(Arriving(run))[w]
            && (!t.active ==> multiset(t.waiters)[w] == 0)
  {
    RunHolds(Initial(), run);
    RunKeeps(Initial(), [], run);
    assert Held(Initial()) == multiset{};
    assert Held(Exec(Initial(), run))[w] == multiset(Arriving(run))[w];
  }

  /* ------------------------------------------------------- whether the mask is in force */

  /** The events of call id are no longer all asked for. */
  ghost predicate Stale(s: State, id: nat) {
    id in s.calls && !(s.calls[id].matched <= s.mask)
  }

  /** Every wait that the run answers is told events of the mask then in force. */
  ghost predicate TellsInForce(s: State, run: seq<Step>)
    requires Legal(s, run)
    decreases |run|
  {
    run == [] ||
    ((run[0].Complete? && s.waiters[0].fits ==> !Stale(s, run[0].id)) && TellsInForce(Apply(s, run[0]), run[1..]))
  }

  predicate NoStore(run: seq<Step>) {
    forall step | step in run :: !step.StoreMask?
  }

  /** Until the next mask is stored, waits are told events of the mask in force. */
  ghost predicate StaysInForce(s: State) {
    forall run | Legal(s, run) && NoStore(run) :: TellsInForce(s, run)
  }

  /** A call goes on to answer waits exactly when the pair is alive and the mask in force asks for one of its events. */
  lemma LookOutcome(s: State, id: nat, events: set<nat>)
    requires Enabled(s, Look(id, events))
    ensures var t := Apply(s, Look(id, events));
            && t == s.(calls := t.calls)
            && (id in t.calls <==> s.active && exists e :: e in events && e in s.mask)
            && (id in t.calls ==> forall e :: e in t.calls[id].matched <==> e in events && e in s.mask)
  {
    if e :| e in events && e in s.mask {
      assert e in events * s.mask;
    }
  }

  /**
   The purge after a store, and destroy, end every pended wait as cancelled, in order; a cancel
   ends the one at its place.
   */
  lemma EndOutcome(s: State, step: Step)
    requires Enabled(s, step) && (step.PurgeWaits? || step.Destroy? || step.CancelWait?)
    ensures var t := Apply(s, step);
            if step.CancelWait? then
              && t.waiters == s.waiters[..step.i] + s.waiters[step.i + 1..]
              && t.completions == s.completions + [Completion(s.waiters[step.i], Cancelled, None)]
            else
              && t.waiters == [] && s.completions <= t.completions
              && |t.completions| == |s.completions| + |s.waiters|
              && forall i | 0 <= i < |s.waiters| ::
                   t.completions[|s.completions| + i] == Completion(s.waiters[i], Cancelled, None)
  {
  }

  /** A wait that arrives is pended exactly on a live pair to which it is forwarded, and otherwise answered at once. */
  lemma WaitOutcome(s: State, w: Waiter, forwards: bool)
    ensures var t := Apply(s, Wait(w, forwards));
            if s.active && forwards then t == s.(waiters := s.waiters + [w])
            else t == s.(completions := s.completions +
                                        [Completion(w, if s.active then ForwardFailed else DeviceNotConnected, None)])
  {
  }

  /** A look at the mask in force makes no stale call. */
  lemma StaleStep(s: State, step: Step, id: nat)
    requires Enabled(s, step) && !step.StoreMask? && Stale(Apply(s, step), id)
    ensures Stale(s, id)
  {
  }

  lemma {:induction false} NoneStaleTells(s: State, run: seq<Step>)
    requires Legal(s, run) && NoStore(run) && forall id :: !Stale(s, id)
    ensures TellsInForce(s, run)
    decreases |run|
  {
    if run != [] {
      hide Stale, Apply;
      assert run[0] in run;
      forall id
        ensures !Stale(Apply(s, run[0]), id)
      {
        if Stale(Apply(s, run[0]), id) { StaleStep(s, run[0], id); }
      }
      NoneStaleTells(Apply(s, run[0]), run[1..]);
    }
  }

  lemma Cons(s: State, step: Step, rest: seq<Step>)
    requires Enabled(s, step) && Legal(Apply(s, step), rest)
    ensures Legal(s, [step] + rest) && Exec(s, [step] + rest) == Exec(Apply(s, step), rest)
    ensures NoStore([step] + rest) <==> !step.StoreMask? && NoStore(rest)
    ensures TellsInForce(s, [step] + rest)
            <==> (step.Complete? && s.waiters[0].fits ==> !Stale(s, step.id)) && TellsInForce(Apply(s, step), rest)
  {
    var run := [step] + rest;
    assert run[1..] == rest;
    assert step in run && forall x | x in rest :: x in run;
  }

  /** A stale call on a live pair can tell its events: the pended waits are cancelled, a new one arrives. */
  lemma {:induction false} StaleTells(s: State, id: nat) returns (run: seq<Step>)
    requires s.active && Stale(s, id)
    ensures Legal(s, run) && NoStore(run) && !TellsInForce(s, run)
    decreases |s.waiters|
  {
    if s.waiters == [] {
      var w := Wait(Waiter(0, true), true);
      var t := Apply(s, w);
      var u := Apply(t, Complete(id));
      Cons(t, Complete(id), []);
      Cons(s, w, [Complete(id)] + []);
      run := [w] + ([Complete(id)] + []);
    } else {
      var t := Apply(s, CancelWait(0));
      var rest := StaleTells(t, id);
      Cons(s, CancelWait(0), rest);
      run := [CancelWait(0)] + rest;
    }
  }

  /**
   Exactly when, on a live pair and until the next store, every event told lies in the mask in
   force: when no call is stale.
   */
  lemma InForceIff(s: State)
    requires s.active
    ensures StaysInForce(s) <==> forall id :: !Stale(s, id)
  {
    if id :| Stale(s, id) {
      var run := StaleTells(s, id);
    } else {
      forall run | Legal(s, run) && NoStore(run)
        ensures TellsInForce(s, run)
      {
        NoneStaleTells(s, run);
      }
    }
  }

  /** Every mask of the run is stored when the calls in flight carry only events that it keeps. */
  ghost predicate StoresKeepMatches(s: State, run: seq<Step>)
    requires Legal(s, run)
    decreases |run|
  {
    run == [] ||
    ((run[0].StoreMask? ==> forall id | id in s.calls :: s.calls[id].matched <= run[0].mask)
     && StoresKeepMatches(Apply(s, run[0]), run[1..]))
  }

  ghost predicate InForceThroughout(s: State, run: seq<Step>)
    requires Legal(s, run)
    decreases |run|
  {
    StaysInForce(s) && (run == [] || InForceThroughout(Apply(s, run[0]), run[1..]))
  }

  lemma StoreStaleIff(s: State, id: nat, mask: set<nat>)
    requires Enabled(s, StoreMask(id, mask))
    ensures (forall x :: !Stale(Apply(s, StoreMask(id, mask)), x))
            <==> forall x | x in s.calls :: s.calls[x].matched <= mask
  {
    var t := Apply(s, StoreMask(id, mask));
    forall x | x in s.calls
      ensures Stale(t, x) <==> !(s.calls[x].matched <= mask)
    {
    }
  }

  lemma NoneStaleStays(s: State)
    requires forall id :: !Stale(s, id)
    ensures StaysInForce(s)
  {
    forall run | Legal(s, run) && NoStore(run)
      ensures TellsInForce(s, run)
    {
      NoneStaleTells(s, run);
    }
  }

  lemma StepInForceIff(s: State, step: Step)
    requires Enabled(s, step) && forall id :: !Stale(s, id)
    ensures var keeps := step.StoreMask? ==> forall id | id in s.calls :: s.calls[id].matched <= step.mask;
            && (keeps ==> forall id :: !Stale(Apply(s, step), id))
            && (!keeps ==> !StaysInForce(Apply(s, step)))
  {
    hide Stale, StaysInForce;
    if step.StoreMask? {
      StoreStaleIff(s, step.id, step.mask);
      InForceIff(Apply(s, step));
    } else {
      forall id
        ensures !Stale(Apply(s, step), id)
      {
        if Stale(Apply(s, step), id) { StaleStep(s, step, id); }
      }
    }
  }

  lemma {:induction false} ThroughoutIff(s: State, run: seq<Step>)
    requires Legal(s, run) && forall id :: !Stale(s, id)
    ensures InForceThroughout(s, run) <==> StoresKeepMatches(s, run)
    decreases |run|
  {
    hide Stale, StaysInForce, Apply;
    NoneStaleStays(s);
    if run != [] {
      StepInForceIff(s, run[0]);
      if forall id :: !Stale(Apply(s, run[0]), id) {
        ThroughoutIff(Apply(s, run[0]), run[1..]);
      }
    }
  }

  /**
   Over a whole run waits are told only events of the mask in force, whatever might follow at
   each point, exactly when no mask is stored that drops an event some call in flight carries.
   */
  lemma InForceThroughoutIff(run: seq<Step>)
    requires Legal(Initial(), run)
    ensures InForceThroughout(Initial(), run) <==> StoresKeepMatches(Initial(), run)
  {
    ThroughoutIff(Initial(), run);
  }

  lemma Nil(s: State)
    ensures Legal(s, []) && Exec(s, []) == s
  {
  }

  /** A call looks at mask {1}; then the client asks for {2} instead and waits anew. */
  const STALE_RUN: seq<Step> := [StoreMask(0, {1}), PurgeWaits(0), Look(0, {1}), StoreMask(0, {2}), PurgeWaits(0),
                                 Wait(Waiter(0, true), true)]

  /** The states of that run. */
  function Stage(k: nat): State {
    var call := map[0 := Call({1}, {1}, 1)];
    match k
    case 0 => Initial()
    case 1 => State(true, {1}, [{}, {1}], [], map[], {0}, [])
    case 2 => State(true, {1}, [{}, {1}], [], map[], {}, [])
    case 3 => State(true, {1}, [{}, {1}], [], call, {}, [])
    case 4 => State(true, {2}, [{}, {1}, {2}], [], call, {0}, [])
    case 5 => State(true, {2}, [{}, {1}, {2}], [], call, {}, [])
    case _ => State(true, {2}, [{}, {1}, {2}], [Waiter(0, true)], call, {}, [])
  }

  lemma StageStep(k: nat)
    requires k < 6
    ensures Enabled(Stage(k), STALE_RUN[k]) && Apply(Stage(k), STALE_RUN[k]) == Stage(k + 1)
  {
    assert {1} * {1} == {1} && {0} - {0} == {} && {} + {0} == {0 as nat};
    assert Cancels([]) == [];
  }

  lemma {:induction false} StageRun(k: nat)
    requires k <= 6
    ensures Legal(Stage(k), STALE_RUN[k..]) && Exec(Stage(k), STALE_RUN[k..]) == Stage(6)
    decreases 6 - k
  {
    hide Enabled, Apply, Stage, TellsInForce, NoStore;
    if k == 6 {
      Nil(Stage(k));
    } else {
      StageStep(k);
      StageRun(k + 1);
      Cons(Stage(k), STALE_RUN[k], STALE_RUN[k + 1..]);
      assert STALE_RUN[k..] == [STALE_RUN[k]] + STALE_RUN[k + 1..];
    }
  }

  /** It happens: at the end of that run the new wait is told event 1, which the mask no longer asks for. */
  lemma StaleEventIsTold()
    ensures Legal(Initial(), STALE_RUN)
    ensures var s := Exec(Initial(), STALE_RUN);
            && s.mask == {2} && Enabled(s, Complete(0)) && Stale(s, 0)
            && Apply(s, Complete(0)).completions == [Completion(Waiter(0, true), Success, Some(Call({1}, {1}, 1)))]
  {
    hide Legal, Exec;
    StageRun(0);
    assert STALE_RUN[0..] == STALE_RUN;
    assert 1 in Stage(6).calls[0].matched && 1 !in Stage(6).mask;
  }

  /* ------------------------------------------------------------ one handler at a time */

  /** How a call answers the waits it finds. */
  function Answers(ws: seq<Waiter>, c: Call): seq<Completion> {
    seq(|ws|, i requires 0 <= i < |ws| => Answer(ws[i], c))
  }

  /** GcomCheckWaitMask with nothing in between. */
  function CheckAlone(s: State, events: set<nat>): State {
    if !s.active || events * s.mask == {} then s
    else s.(waiters := [], completions := s.completions + Answers(s.waiters, Call(events, events * s.mask, |s.masks| - 1)))
  }

  class WaitMaskHub {
    var active: bool
    var waitMask: set<nat>
    var waitMaskQueue: seq<Waiter>
    /** The history: the masks stored and the completions. */
    var masks: seq<set<nat>>
    var completions: seq<Completion>

    function Abs(): State
      reads this
    {
      State(active, waitMask, masks, waitMaskQueue, map[], {}, completions)
    }

    constructor ()
      ensures Abs() == Initial()
    {
      active, waitMask, waitMaskQueue, masks, completions := true, {}, [], [{}], [];
    }

    /** GcomCheckWaitMask. */
    method CheckWaitMask(events: set<nat>)
      modifies this
      ensures Abs() == CheckAlone(old(Abs()), events)
    {
      if !active {
        return;
      }
      var matchedEvents := events * waitMask;
      if matchedEvents == {} {
        return;
      }
      var call := Call(events, matchedEvents, |masks| - 1);
      while waitMaskQueue != []
        invariant active && waitMask == old(waitMask) && masks == old(masks)
        invariant completions + Answers(waitMaskQueue, call) == old(completions) + Answers(old(waitMaskQueue), call)
        decreases |waitMaskQueue|
      {
        var waitReq := waitMaskQueue[0];
        assert Answers(waitMaskQueue, call) == [Answer(waitReq, call)] + Answers(waitMaskQueue[1..], call);
        waitMaskQueue := waitMaskQueue[1..];
        completions := completions + [Answer(waitReq, call)];
      }
      assert completions + Answers([], call) == completions;
    }

    /** IOCTL_SERIAL_SET_WAIT_MASK: the store, then the purge. */
    method SetWaitMask(mask: set<nat>)
      modifies this
      ensures Abs() == if !old(active) then old(Abs())
                       else Apply(Apply(old(Abs()), StoreMask(0, mask)), PurgeWaits(0))
    {
      if !active {
        return;
      }
      waitMask := mask;
      masks := masks + [mask];
      while waitMaskQueue != []
        invariant active && waitMask == mask && masks == old(masks) + [mask]
        invariant completions + Cancels(waitMaskQueue) == old(completions) + Cancels(old(waitMaskQueue))
        decreases |waitMaskQueue|
      {
        var waitReq := waitMaskQueue[0];
        assert Cancels(waitMaskQueue) == [Completion(waitReq, Cancelled, None)] + Cancels(waitMaskQueue[1..]);
        waitMaskQueue := waitMaskQueue[1..];
        completions := completions + [Completion(waitReq, Cancelled, None)];
      }
      assert completions + Cancels([]) == completions;
      assert {0} - {0} == {};
    }

    /** IOCTL_SERIAL_WAIT_ON_MASK. */
    method WaitOnMask(w: Waiter, forwards: bool)
      modifies this
      ensures Abs() == Apply(old(Abs()), Wait(w, forwards))
    {
      if !active {
        completions := completions + [Completion(w, DeviceNotConnected, None)];
      } else if forwards {
        waitMaskQueue := waitMaskQueue + [w];
      } else {
        completions := completions + [Completion(w, ForwardFailed, None)];
      }
    }
  }

  /** The sections of a call that nothing interrupts: its look, one answer for each pended wait, its end. */
  function Sections(s: State, events: set<nat>): seq<Step> {
    if !s.active || events * s.mask == {} then [Look(0, events)]
    else [Look(0, events)] + (seq(|s.waiters|, _ => Complete(0)) + [EndLoop(0)])
  }

  lemma {:induction false} AnswersRun(s: State)
    requires 0 in s.calls
    ensures var run := seq(|s.waiters|, _ => Complete(0)) + [EndLoop(0)];
            && Legal(s, run)
            && Exec(s, run) == s.(waiters := [], calls := s.calls - {0},
                                  completions := s.completions + Answers(s.waiters, s.calls[0]))
    decreases |s.waiters|
  {
    var c, run := s.calls[0], seq(|s.waiters|, _ => Complete(0)) + [EndLoop(0)];
    if s.waiters == [] {
      Nil(Apply(s, EndLoop(0)));
      Cons(s, EndLoop(0), []);
      assert run == [EndLoop(0)] + [];
      assert s.completions + Answers(s.waiters, c) == s.completions;
    } else {
      var t := Apply(s, Complete(0));
      AnswersRun(t);
      var rest := seq(|t.waiters|, _ => Complete(0)) + [EndLoop(0)];
      assert run == [Complete(0)] + rest;
      Cons(s, Complete(0), rest);
      assert Answers(s.waiters, c) == [Answer(s.waiters[0], c)] + Answers(t.waiters, c);
      Assoc(s.completions, [Answer(s.waiters[0], c)], Answers(t.waiters, c));
    }
  }

  /** What GcomCheckWaitMask does in one go is the run of its sections among concurrent ones. */
  lemma CheckAloneIsARun(s: State, events: set<nat>)
    requires s.calls == map[]
    ensures Legal(s, Sections(s, events)) && Exec(s, Sections(s, events)) == CheckAlone(s, events)
  {
    var look := Look(0, events);
    var t := Apply(s, look);
    if t == s {
      Nil(t);
      Cons(s, look, []);
      assert [look] + [] == [look];
    } else {
      AnswersRun(t);
      Cons(s, look, seq(|t.waiters|, _ => Complete(0)) + [EndLoop(0)]);
      assert t.calls - {0} == s.calls;
    }
  }
}
