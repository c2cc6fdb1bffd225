/** Where every wait for a signal change is: pended, or completed once. */
module SignalWaits {
  import opened Prelude
  import opened Signals

  /** The waits that arrive in a run, in order. */
  function Arriving(run: seq<Step>): seq<Waiter> {
    if run == [] then []
    else (if run[0].Wait? then [run[0].waiter] else []) + Arriving(run[1..])
  }

  /** The waits a list of completions completes, in order. */
  function Finished(completions: seq<Completion>): seq<Waiter> {
    seq(|completions|, i requires 0 <= i < |completions| => completions[i].waiter)
  }

  function Held(s: State): multiset<Waiter> {
    multiset(s.waiters) + multiset(Finished(s.completions))
  }

  lemma FinishedConcat(a: seq<Completion>, b: seq<Completion>)
    ensures multiset(Finished(a + b)) == multiset(Finished(a)) + multiset(Finished(b))
  {
    assert Finished(a + b) == Finished(a) + Finished(b);
  }

  lemma FinishedOne(c: Completion)
    ensures multiset(Finished([c])) == multiset{c.waiter}
  {
    assert Finished([c]) == [c.waiter];
  }

  /** A delivery takes the first wait of the queue and completes it, whether or not its buffer fits. */
  lemma DeliverHolds(s: State, id: nat)
    requires Enabled(s, Deliver(id))
    ensures Held(Apply(s, Deliver(id))) == Held(s)
  {
    var t, w := Apply(s, Deliver(id)), s.waiters[0];
    var c := t.completions[|s.completions|];
    assert t.completions == s.completions + [c] && c.waiter == w;
    FinishedConcat(s.completions, [c]);
    FinishedOne(c);
    assert s.waiters == [w] + s.waiters[1..];
  }

  lemma CancelHolds(s: State, i: nat)
    requires Enabled(s, CancelWait(i))
    ensures Held(Apply(s, CancelWait(i))) == Held(s)
  {
    var c := Completion(s.waiters[i], Cancelled, None);
    FinishedConcat(s.completions, [c]);
    FinishedOne(c);
    WithoutElements(s.waiters, i);
  }

  /** Destroy cancels every pended wait. */
  lemma DestroyHolds(s: State)
    requires Enabled(s, Destroy)
    ensures Held(Apply(s, Destroy)) == Held(s) && Apply(s, Destroy).waiters == []
  {
    var t := Apply(s, Destroy);
    var cs := t.completions[|s.completions|..];
    assert t.completions == s.completions + cs;
    FinishedConcat(s.completions, cs);
    assert Finished(cs) == s.waiters;
  }

  lemma WaitHolds(s: State, w: Waiter, forwards: bool)
    ensures Held(Apply(s, Wait(w, forwards))) == Held(s) + multiset{w}
  {
    var t := Apply(s, Wait(w, forwards));
    if s.active && forwards {
      assert multiset(s.waiters + [w]) == multiset(s.waiters) + multiset{w};
    } else {
      var c := t.completions[|s.completions|];
      assert t.completions == s.completions + [c] && c.waiter == w;
      FinishedConcat(s.completions, [c]);
      FinishedOne(c);
    }
  }

  lemma StepHolds(s: State, step: Step)
    requires Enabled(s, step)
    ensures Held(Apply(s, step)) == Held(s) + (if step.Wait? then multiset{step.waiter} else multiset{})
  {
    match step
    case Deliver(id) => DeliverHolds(s, id);
    case CancelWait(i) => CancelHolds(s, i);
    case Destroy => DestroyHolds(s);
    case Wait(w, forwards) => WaitHolds(s, w, forwards);
    case _ =>
  }

  lemma {:induction false} RunHolds(s: State, run: seq<Step>)
    requires Legal(s, run)
    ensures Held(Exec(s, run)) == Held(s) + multiset(Arriving(run))
    decreases |run|
  {
    if run != [] {
      hide Held, Apply;
      StepHolds(s, run[0]);
      RunHolds(Apply(s, run[0]), run[1..]);
      var first := if run[0].Wait? then [run[0].waiter] else [];
      assert multiset(Arriving(run)) == multiset(first) + multiset(Arriving(run[1..]));
    }
  }

  /** Each wait is issued under a name of its own. */
  ghost predicate NamedApart(ws: seq<Waiter>) {
    forall i, j | 0 <= i < j < |ws| :: ws[i].id != ws[j].id
  }

  lemma {:induction false} NamedOnce(ws: seq<Waiter>, w: Waiter)
    requires NamedApart(ws)
    ensures multiset(ws)[w] == if w in ws then 1 else 0
  {
    if ws != [] {
      var front, last := ws[..|ws|-1], ws[|ws|-1];
      assert ws == front + [last];
      NamedOnce(front, w);
    }
  }

  /**
   Exactly once, through any number of concurrent deliveries, cancels, failed forwards and
   destroy: a wait is pended or completed as often as it arrived, so with a name of its own it
   is in the queue or completed exactly once; and no other wait is anywhere.
   */
  lemma WaitsExactlyOnce(config: Config, run: seq<Step>, w: Waiter)
    requires Legal(Initial(config), run)
    ensures var t := Exec(Initial(config), run);
            && multiset(t.waiters)[w] + multiset(Finished(t.completions))[w] == multiset(Arriving(run))[w]
            && (NamedApart(Arriving(run)) ==>
                  multiset(t.waiters)[w] + multiset(Finished(t.completions))[w] == if w in Arriving(run) then 1 else 0)
  {
    RunHolds(Initial(config), run);
    assert Held(Initial(config)) == multiset{};
    assert Held(Exec(Initial(config), run)) == multiset(Arriving(run));
    if NamedApart(Arriving(run)) {
      NamedOnce(Arriving(run), w);
    }
  }

  ghost predicate Gone(s: State) {
    !s.active && s.waiters == []
  }

  lemma {:induction false} GoneStays(s: State, run: seq<Step>)
    requires Gone(s) && Legal(s, run)
    ensures Gone(Exec(s, run))
    decreases |run|
  {
    if run != [] {
      GoneStays(Apply(s, run[0]), run[1..]);
    }
  }

  /** Once the pair is destroyed no wait stays pended: each that arrived, before or after, has completed. */
  lemma DestroyCompletesWaits(config: Config, before: seq<Step>, after: seq<Step>, w: Waiter)
    requires Legal(Initial(config), before) && Exec(Initial(config), before).active
    requires Legal(Apply(Exec(Initial(config), before), Destroy), after)
    ensures var t := Exec(Apply(Exec(Initial(config), before), Destroy), after);
            && t.waiters == []
            && multiset(Finished(t.completions))[w] == multiset(Arriving(before))[w] + multiset(Arriving(after))[w]
  {
    var s := Exec(Initial(config), before);
    RunHolds(Initial(config), before);
    DestroyHolds(s);
    RunHolds(Apply(s, Destroy), after);
    GoneStays(Apply(s, Destroy), after);
    var t := Exec(Apply(s, Destroy), after);
    assert Held(Initial(config)) == multiset{};
    assert Held(t) == multiset(Arriving(before)) + multiset(Arriving(after));
    assert multiset(t.waiters)[w] == 0;
    assert Held(t)[w] == multiset(Finished(t.completions))[w];
  }

  /* ------------------------------------------------------------------- what a wait is told */

  /** A wait succeeds exactly when it is told a snapshot; only one that has no room for it is refused for that. */
  ghost predicate AnswerOk(t: State, run: seq<Step>, c: Completion) {
    match c.status
    case Success => c.k.Some? && c.waiter.fits && c.k.value < |t.taken|
    case BufferTooSmall => c.k.None? && !c.waiter.fits
    case DeviceNotConnected => c.k.None? && !t.active
    case ForwardFailed => c.k.None? && Wait(c.waiter, false) in run
    case Cancelled => c.k.None? && (!t.active || exists i :: CancelWait(i) in run)
    case _ => false
  }

  ghost predicate AnswersOk(t: State, run: seq<Step>) {
    && (forall c | c in t.completions :: AnswerOk(t, run, c))
    && (forall id | id in t.calls && HasSnapshot(t.calls[id]) :: t.calls[id].k < |t.taken|)
  }

  lemma AnswerStays(s: State, t: State, run: seq<Step>, step: Step, c: Completion)
    requires AnswerOk(s, run, c) && |s.taken| <= |t.taken| && (t.active ==> s.active)
    ensures AnswerOk(t, run + [step], c)
  {
    if c.status.Cancelled? && s.active {
      var i :| CancelWait(i) in run;
      assert CancelWait(i) in run + [step];
    }
  }

  lemma NewAnswer(s: State, run: seq<Step>, step: Step, c: Completion)
    requires AnswersOk(s, run) && Enabled(s, step) && c in Apply(s, step).completions && c !in s.completions
    ensures AnswerOk(Apply(s, step), run + [step], c)
  {
    hide AnswersOk, AnswerOk;
    assert step in run + [step];
    match step
    case Deliver(id) => NewDelivery(s, run, id, c);
    case Wait(w, forwards) => NewRefusal(s, run, w, forwards, c);
    case CancelWait(i) => NewCancel(s, run, i, c);
    case Destroy => NewEnd(s, run, c);
    case _ =>
  }

  lemma NewDelivery(s: State, run: seq<Step>, id: nat, c: Completion)
    requires AnswersOk(s, run) && Enabled(s, Deliver(id))
    requires c in Apply(s, Deliver(id)).completions && c !in s.completions
    ensures AnswerOk(Apply(s, Deliver(id)), run + [Deliver(id)], c)
  {
  }

  lemma NewRefusal(s: State, run: seq<Step>, w: Waiter, forwards: bool, c: Completion)
    requires c in Apply(s, Wait(w, forwards)).completions && c !in s.completions
    ensures AnswerOk(Apply(s, Wait(w, forwards)), run + [Wait(w, forwards)], c)
  {
    assert Wait(w, forwards) in run + [Wait(w, forwards)];
  }

  lemma NewCancel(s: State, run: seq<Step>, i: nat, c: Completion)
    requires Enabled(s, CancelWait(i)) && c in Apply(s, CancelWait(i)).completions && c !in s.completions
    ensures AnswerOk(Apply(s, CancelWait(i)), run + [CancelWait(i)], c)
  {
    assert CancelWait(i) in run + [CancelWait(i)];
  }

  lemma NewEnd(s: State, run: seq<Step>, c: Completion)
    requires Enabled(s, Destroy) && c in Apply(s, Destroy).completions && c !in s.completions
    ensures AnswerOk(Apply(s, Destroy), run + [Destroy], c)
  {
  }

  lemma StepAnswers(s: State, run: seq<Step>, step: Step)
    requires AnswersOk(s, run) && Enabled(s, step)
    ensures AnswersOk(Apply(s, step), run + [step])
  {
    hide AnswerOk;
    var t := Apply(s, step);
    assert |s.taken| <= |t.taken| && (t.active ==> s.active);
    forall c | c in t.completions
      ensures AnswerOk(t, run + [step], c)
    {
      if c in s.completions {
        AnswerStays(s, t, run, step, c);
      } else {
        NewAnswer(s, run, step, c);
      }
    }
  }

  lemma {:induction false} RunAnswers(s: State, before: seq<Step>, run: seq<Step>)
    requires AnswersOk(s, before) && Legal(s, run)
    ensures AnswersOk(Exec(s, run), before + run)
    decreases |run|
  {
    if run == [] {
      assert before + run == before;
    } else {
      hide AnswersOk, Apply, Enabled;
      StepAnswers(s, before, run[0]);
      RunAnswers(Apply(s, run[0]), before + [run[0]], run[1..]);
      assert before + [run[0]] + run[1..] == before + run;
    }
  }

  /**
   Every answer of every run has its reason: success means a snapshot that was taken, told to a
   wait with room for it; too small a buffer, a failed forward, a cancel and the end of the pair
   have the status that says so, and tell nothing.
   */
  lemma AnswersAreJustified(config: Config, run: seq<Step>, c: Completion)
    requires Legal(Initial(config), run) && c in Exec(Initial(config), run).completions
    ensures AnswerOk(Exec(Initial(config), run), run, c)
  {
    hide AnswerOk;
    RunAnswers(Initial(config), [], run);
    assert [] + run == run;
  }

  /** On arrival a wait is pended exactly on a live pair to which it is forwarded, and otherwise answered at once. */
  lemma WaitOutcome(s: State, w: Waiter, forwards: bool)
    ensures var t := Apply(s, Wait(w, forwards));
            if s.active && forwards then t == s.(waiters := s.waiters + [w])
            else
              && t == s.(completions := t.completions) && |t.completions| == |s.completions| + 1
              && s.completions <= t.completions
              && t.completions[|s.completions|] ==
                 Completion(w, if s.active then ForwardFailed else DeviceNotConnected, None)
  {
  }

  /** A cancelled wait is the one at that place; the others keep their order. */
  lemma CancelOutcome(s: State, i: nat)
    requires Enabled(s, CancelWait(i))
    ensures var t := Apply(s, CancelWait(i));
            && t.waiters == s.waiters[..i] + s.waiters[i + 1..]
            && t.completions == s.completions + [Completion(s.waiters[i], Cancelled, None)]
  {
  }

  /** Destroy ends every pended wait as cancelled, in order. */
  lemma DestroyOutcome(s: State)
    requires Enabled(s, Destroy)
    ensures var t := Apply(s, Destroy);
            && !t.active && t.waiters == []
            && |t.completions| == |s.completions| + |s.waiters| && s.completions <= t.completions
            && forall i | 0 <= i < |s.waiters| ::
                 t.completions[|s.completions| + i] == Completion(s.waiters[i], Cancelled, None)
  {
  }
}
