/** In which order waits are told snapshots when GcomSignalChanged calls overlap, and exactly when that order is kept. */
module SignalOrder {
  import opened Prelude
  import opened Signals

  predicate NoSnap(run: seq<Step>) {
    forall step | step in run :: !step.Snap?
  }

  /** A delivering call holds an older snapshot than one already told, or than another delivering call. */
  ghost predicate Behind(s: State, id: nat) {
    && id in s.calls && s.calls[id].Delivering?
    && ((exists i :: 0 <= i < |Told(s.completions)| && s.calls[id].k < Told(s.completions)[i])
        || exists other :: other in s.calls && s.calls[other].Delivering? && s.calls[id].k < s.calls[other].k)
  }

  ghost predicate Orderly(s: State) {
    Ascending(Told(s.completions)) && forall id :: !Behind(s, id)
  }

  /** Waits are told in order whatever happens until the next snapshot is taken. */
  ghost predicate StaysInOrder(s: State) {
    forall run | Legal(s, run) && NoSnap(run) :: Ascending(Told(Exec(s, run).completions))
  }

  /* --------------------------------------------------------------- it stays in order */

  /** Only a delivery that fits tells a waiter a snapshot: the one of the delivering call. */
  lemma ToldStep(s: State, step: Step)
    requires Enabled(s, step)
    ensures Told(Apply(s, step).completions) ==
            Told(s.completions) + (if step.Deliver? && s.waiters[0].fits then [s.calls[step.id].k] else [])
  {
    var t := Apply(s, step);
    if step.Destroy? {
      ToldPlain(s.completions, t.completions[|s.completions|..]);
      assert t.completions == s.completions + t.completions[|s.completions|..];
    } else if |t.completions| > |s.completions| {
      ToldSnoc(s.completions, t.completions[|s.completions|]);
      assert t.completions == s.completions + [t.completions[|s.completions|]];
    }
  }

  /** Without a snapshot no call begins to deliver. */
  lemma DeliveringStays(s: State, step: Step, id: nat)
    requires Enabled(s, step) && !step.Snap?
    requires id in Apply(s, step).calls && Apply(s, step).calls[id].Delivering?
    ensures id in s.calls && s.calls[id] == Apply(s, step).calls[id]
  {
  }

  lemma OrderlyStep(s: State, step: Step)
    requires Orderly(s) && Enabled(s, step) && !step.Snap?
    ensures Orderly(Apply(s, step))
  {
    var t := Apply(s, step);
    ToldStep(s, step);
    if step.Deliver? {
      assert !Behind(s, step.id);
    }
    forall id
      ensures !Behind(t, id)
    {
      if id in t.calls && t.calls[id].Delivering? {
        DeliveringStays(s, step, id);
        assert !Behind(s, id);
        NotBehindStep(s, step, id);
      }
    }
  }

  lemma NotBehindStep(s: State, step: Step, id: nat)
    requires Enabled(s, step) && !step.Snap? && !Behind(s, id)
    requires id in s.calls && s.calls[id].Delivering?
    ensures !Behind(Apply(s, step), id)
  {
    hide Apply, Told;
    var t := Apply(s, step);
    ToldStep(s, step);
    if Behind(t, id) {
      DeliveringStays(s, step, id);
      if other :| other in t.calls && t.calls[other].Delivering? && t.calls[id].k < t.calls[other].k {
        DeliveringStays(s, step, other);
      }
    }
  }

  lemma {:induction false} OrderlyRun(s: State, run: seq<Step>)
    requires Orderly(s) && Legal(s, run) && NoSnap(run)
    ensures Orderly(Exec(s, run))
    decreases |run|
  {
    if run != [] {
      assert run[0] in run;
      OrderlyStep(s, run[0]);
      OrderlyRun(Apply(s, run[0]), run[1..]);
    }
  }

  /* --------------------------------------------------------------- it gets out of order */

  lemma {:induction false} RunConcat(s: State, a: seq<Step>, b: seq<Step>)
    requires Legal(s, a) && Legal(Exec(s, a), b)
    ensures Legal(s, a + b) && Exec(s, a + b) == Exec(Exec(s, a), b)
    decreases |a|
  {
    if a == [] {
      assert a + b == b;
    } else {
      assert (a + b)[0] == a[0] && (a + b)[1..] == a[1..] + b;
      RunConcat(Apply(s, a[0]), a[1..], b);
    }
  }

  /** Nothing that matters to the order differs. */
  predicate SameCalls(s: State, t: State) {
    t.active == s.active && t.calls == s.calls && t.taken == s.taken
  }

  /** Cancelling the pended waits one by one tells nobody anything. */
  lemma {:induction false} CancelWaits(s: State) returns (run: seq<Step>)
    ensures Legal(s, run) && NoSnap(run)
    ensures var t := Exec(s, run);
            SameCalls(s, t) && t.waiters == [] && Told(t.completions) == Told(s.completions)
    decreases |s.waiters|
  {
    run := [];
    if s.waiters != [] {
      var t := Apply(s, CancelWait(0));
      ToldStep(s, CancelWait(0));
      var rest := CancelWaits(t);
      run := [CancelWait(0)] + rest;
      assert run[1..] == rest;
    }
  }

  /** A wait and a delivery: call id tells its snapshot. */
  lemma TellRun(s: State, id: nat)
    requires s.active && s.waiters == [] && id in s.calls && s.calls[id].Delivering?
    ensures var run := [Wait(Waiter(0, true), true), Deliver(id)];
            && Legal(s, run)
            && var t := Exec(s, run);
               SameCalls(s, t) && t.waiters == [] && Told(t.completions) == Told(s.completions) + [s.calls[id].k]
  {
    var a, b := Wait(Waiter(0, true), true), Deliver(id);
    var s1 := Apply(s, a);
    ToldStep(s, a);
    ToldStep(s1, b);
    assert [a, b][1..] == [b] && [b][1..] == [];
    assert Legal(Apply(s1, b), []) && Legal(s1, [b]) && Exec(s1, [b]) == Apply(s1, b);
  }

  lemma TellAfter(s: State, run: seq<Step>, id: nat) returns (more: seq<Step>)
    requires Legal(s, run) && NoSnap(run) && s.active && SameCalls(s, Exec(s, run)) && Exec(s, run).waiters == []
    requires id in s.calls && s.calls[id].Delivering?
    ensures Legal(s, more) && NoSnap(more)
    ensures var t := Exec(s, more);
            SameCalls(s, t) && t.waiters == []
            && Told(t.completions) == Told(Exec(s, run).completions) + [s.calls[id].k]
  {
    TellRun(Exec(s, run), id);
    var tell := [Wait(Waiter(0, true), true), Deliver(id)];
    RunConcat(s, run, tell);
    more := run + tell;
  }

  /**
   A call that is behind can always break the order: from any active state, whatever waits are
   pended, a few cancelled waits, new waits and deliveries tell a newer snapshot before its own.
   */
  lemma OverlapInverts(s: State, id: nat) returns (run: seq<Step>)
    requires s.active && Behind(s, id)
    ensures Legal(s, run) && NoSnap(run) && !Ascending(Told(Exec(s, run).completions))
  {
    hide Told, Apply, Exec, Legal;
    var told, k := Told(s.completions), s.calls[id].k;
    run := CancelWaits(s);
    if i :| 0 <= i < |told| && k < told[i] {
      run := TellAfter(s, run, id);
      assert (told + [k])[i] == told[i] && (told + [k])[|told|] == k;
    } else {
      var other :| other in s.calls && s.calls[other].Delivering? && k < s.calls[other].k;
      var newer := s.calls[other].k;
      run := TellAfter(s, run, other);
      run := TellAfter(s, run, id);
      var after := told + [newer] + [k];
      assert after[|told|] == newer && after[|told| + 1] == k;
    }
  }

  lemma OrderlyStays(s: State)
    requires Orderly(s)
    ensures StaysInOrder(s)
  {
    forall run | Legal(s, run) && NoSnap(run)
      ensures Ascending(Told(Exec(s, run).completions))
    {
      OrderlyRun(s, run);
    }
  }

  /**
   Exactly when waits stay in order from an active state on, until the next snapshot: they were
   told in order and no delivering call is behind what was told or another delivering call.
   */
  lemma InOrderIff(s: State)
    requires s.active
    ensures StaysInOrder(s) <==> Ascending(Told(s.completions)) && forall id :: !Behind(s, id)
  {
    if id :| Behind(s, id) {
      var run := OverlapInverts(s, id);
    } else if Ascending(Told(s.completions)) {
      OrderlyStays(s);
    } else {
      assert Legal(s, []) && NoSnap([]) && Exec(s, []) == s;
    }
  }

  /* ------------------------------------------------------------------- whole runs */

  /** Every snapshot of the run is taken while no call is delivering. */
  ghost predicate SnapsAlone(s: State, run: seq<Step>)
    requires Legal(s, run)
    decreases |run|
  {
    run == [] ||
    ((run[0].Snap? && s.active ==> forall id | id in s.calls :: !s.calls[id].Delivering?)
     && SnapsAlone(Apply(s, run[0]), run[1..]))
  }

  /** At every point of the run waits stay in order. */
  ghost predicate InOrderThroughout(s: State, run: seq<Step>)
    requires Legal(s, run)
    decreases |run|
  {
    StaysInOrder(s) && (run == [] || InOrderThroughout(Apply(s, run[0]), run[1..]))
  }

  /** Only snapshots that were taken are told or being delivered. */
  ghost predicate ToldWereTaken(s: State) {
    && (forall i | 0 <= i < |Told(s.completions)| :: Told(s.completions)[i] < |s.taken|)
    && (forall id | id in s.calls && s.calls[id].Delivering? :: s.calls[id].k < |s.taken|)
  }

  lemma ToldWereTakenStep(s: State, step: Step)
    requires ToldWereTaken(s) && Enabled(s, step)
    ensures ToldWereTaken(Apply(s, step))
  {
    hide Told;
    ToldStep(s, step);
  }

  /** A snapshot keeps calls orderly exactly when none is delivering. */
  lemma SnapOrderlyIff(s: State, id: nat)
    requires Orderly(s) && ToldWereTaken(s) && s.active && s.queueLive && Enabled(s, Snap(id))
    ensures Orderly(DoSnap(s, id)) <==> forall x | x in s.calls :: !s.calls[x].Delivering?
  {
    var t := DoSnap(s, id);
    ToldStep(s, Snap(id));
    if x :| x in s.calls && s.calls[x].Delivering? {
      assert t.calls[x].k < t.calls[id].k;
      assert Behind(t, x);
    }
  }

  /**
   A section of a call of the protocol takes an orderly state to one that stays in order exactly
   when it snapshots alone.
   */
  lemma StepStaysIff(s: State, step: Step)
    requires Orderly(s) && ToldWereTaken(s) && s.queueLive == s.active && Enabled(s, step)
    ensures var alone := step.Snap? && s.active ==> forall id | id in s.calls :: !s.calls[id].Delivering?;
            && (alone ==> Orderly(Apply(s, step)))
            && (!alone ==> !StaysInOrder(Apply(s, step)))
  {
    if !step.Snap? {
      OrderlyStep(s, step);
    } else if s.active {
      SnapOrderlyIff(s, step.id);
      InOrderIff(Apply(s, step));
    } else {
      ToldStep(s, step);
      forall id
        ensures !Behind(Apply(s, step), id)
      {
        assert !Behind(s, id);
      }
    }
  }

  lemma {:induction false} ThroughoutIff(s: State, run: seq<Step>)
    requires Orderly(s) && ToldWereTaken(s) && Inv(s) && Legal(s, run)
    ensures InOrderThroughout(s, run) <==> SnapsAlone(s, run)
    decreases |run|
  {
    OrderlyStays(s);
    if run != [] {
      StepStaysIff(s, run[0]);
      if Orderly(Apply(s, run[0])) {
        StepKeeps(s, run[0]);
        ToldWereTakenStep(s, run[0]);
        ThroughoutIff(Apply(s, run[0]), run[1..]);
      }
    }
  }

  /**
   The order theorem: over a whole run waits stay in order throughout, whatever might follow at
   each point, exactly when every snapshot is taken while no other call is delivering.
   */
  lemma InOrderThroughoutIff(config: Config, run: seq<Step>)
    requires Legal(Initial(config), run)
    ensures InOrderThroughout(Initial(config), run) <==> SnapsAlone(Initial(config), run)
  {
    ThroughoutIff(Initial(config), run);
  }

  lemma {:induction false} InOrderAtEnd(s: State, run: seq<Step>)
    requires Legal(s, run) && InOrderThroughout(s, run)
    ensures Ascending(Told(Exec(s, run).completions))
    decreases |run|
  {
    if run == [] {
      assert NoSnap(run);
    } else {
      InOrderAtEnd(Apply(s, run[0]), run[1..]);
    }
  }

  /** In particular, while calls deliver one at a time waits are told snapshots in the order they were taken. */
  lemma AloneInOrder(config: Config, run: seq<Step>)
    requires Legal(Initial(config), run) && SnapsAlone(Initial(config), run)
    ensures Ascending(Told(Exec(Initial(config), run).completions))
  {
    InOrderThroughoutIff(config, run);
    InOrderAtEnd(Initial(config), run);
  }

  /** Two COM-side requests dispatched in parallel do reach a state in which a call is behind. */
  lemma OverlapIsReachable(config: Config)
    ensures var run := [Store(1, SetDtr), Store(2, SetRts), Snap(1), Snap(2)];
            && Legal(Initial(config), run)
            && var t := Exec(Initial(config), run);
               t.active && Behind(t, 1) && !StaysInOrder(t)
  {
    hide Legal, Exec, Told, StaysInOrder;
    var a, b, c, d := Store(1, SetDtr), Store(2, SetRts), Snap(1), Snap(2);
    var s0 := Initial(config);
    var s1 := Apply(s0, a);
    var s2 := Apply(s1, b);
    var s3 := Apply(s2, c);
    var s4 := Apply(s3, d);
    assert [d] == [d] + [] && [c, d] == [c] + [d] && [b, c, d] == [b] + [c, d] && [a, b, c, d] == [a] + [b, c, d];
    RunNil(s4);
    RunCons(s3, d, []);
    RunCons(s2, c, [d]);
    RunCons(s1, b, [c, d]);
    RunCons(s0, a, [b, c, d]);
    assert s4.calls[1].k == 0 && s4.calls[2].k == 1;
    assert Behind(s4, 1) by { assert 2 in s4.calls && s4.calls[2].Delivering?; }
    InOrderIff(s4);
  }

  lemma RunNil(s: State)
    ensures Legal(s, []) && Exec(s, []) == s
  {
  }

  lemma RunCons(s: State, step: Step, rest: seq<Step>)
    requires Enabled(s, step) && Legal(Apply(s, step), rest)
    ensures Legal(s, [step] + rest) && Exec(s, [step] + rest) == Exec(Apply(s, step), rest)
  {
    assert ([step] + rest)[1..] == rest;
  }
}
