/** do_write of addon/src/stream.rs, run against the handlers of a data path. */
module StreamWriter {
  import opened Prelude
  import opened DataPath
  import opened DataPathRuns
  import opened EndToEnd
  import opened PathDevices
  import opened PathOutcomes

  /** What happens around a writer: a handler run on behalf of somebody else, or the next WriteFile is dispatched. */
  datatype Tick =
    | ReadArrives(len: nat, nonBlocking: bool, forwards: bool)
    | ReadCancelled(i: nat)
    | WriteCancelled(i: nat)
    | ReadsAborted
    | WritesAborted
    | Cleared
    | Destroyed
    | Dispatch(forwards: bool)

  /** Unfinished: the schedule ended while do_write was still waiting. */
  datatype Outcome = Done | Error | Unfinished

  /** The step of the data path a tick stands for; a tick that does not apply is no step. */
  ghost function StepOf(p: Path, tick: Tick): Option<Step> {
    match tick
    case ReadArrives(len, nonBlocking, forwards) => Some(Arrive(Read(|p.arrived|, len), nonBlocking, forwards))
    case ReadCancelled(i) => if i < |p.readQueue| then Some(CancelRead(i)) else None
    case WriteCancelled(i) => if i < |p.writeQueue| then Some(CancelWrite(i)) else None
    case ReadsAborted => Some(AbortReads)
    case WritesAborted => Some(AbortWrites)
    case Cleared => Some(Clear)
    case Destroyed => Some(Destroy)
    case Dispatch(_) => None
  }

  /** One handler run of somebody else. */
  method Elsewhere(dev: PathDevice, tick: Tick)
    requires dev.Valid()
    modifies dev, dev.ring, dev.ring.buffer
    ensures dev.Valid() && (dev.ring.buffer == old(dev.ring.buffer) || dev.ring.buffer == null)
    ensures dev.Abs() == match StepOf(old(dev.Abs()), tick)
                         case None => old(dev.Abs())
                         case Some(step) => Apply(old(dev.Abs()), step)
  {
    match tick
    case ReadArrives(len, nonBlocking, forwards) =>
      dev.EvtRead(Read(|dev.arrivals|, len), nonBlocking, forwards);
    case ReadCancelled(i) => if i < |dev.readQueue| { dev.CancelPendedRead(i); }
    case WriteCancelled(i) => if i < |dev.writeQueue| { dev.CancelPendedWrite(i); }
    case ReadsAborted => dev.AbortReadQueue();
    case WritesAborted => dev.AbortWriteQueue();
    case Cleared => dev.ClearIoctl();
    case Destroyed => dev.Teardown();
    case Dispatch(_) =>
  }

  lemma ElsewhereQuiet(p: Path, tick: Tick)
    requires Inv(p) && p.writeQueue == []
    ensures var t := match StepOf(p, tick) case None => p case Some(step) => Apply(p, step);
            Inv(t) && t.writeQueue == [] && Past(t.log).accepted == Past(p.log).accepted
  {
    match StepOf(p, tick)
    case None =>
    case Some(step) =>
      StepKeeps(p, step);
      QuietStep(p, step, Write(0, []));
  }

  lemma ElsewhereSole(p: Path, tick: Tick, req: Request, base: seq<byte>)
    requires Inv(p) && Sole(p, req) && Past(p.log).accepted == base + Taken(p.log, req)
    ensures var t := match StepOf(p, tick) case None => p case Some(step) => Apply(p, step);
            Inv(t) && Sole(t, req) && Past(t.log).accepted == base + Taken(t.log, req)
  {
    match StepOf(p, tick)
    case None =>
    case Some(step) => OthersStep(p, step, req, base);
  }

  /* ------------------------------------------------------- what every tick must do */

  /**
   What a tick does while do_write still owes the bytes of data that are not among the accepted
   ones beyond base: a handler runs, or the next write is issued with all that is left.
   */
  ghost function TickEffect(p: Path, base: nat, data: seq<byte>, tick: Tick): Path {
    var taken := |Past(p.log).accepted| - base;
    match StepOf(p, tick)
    case Some(step) => Apply(p, step)
    case None =>
      if tick.Dispatch? && p.writeQueue == [] && 0 <= taken < |data| then
        Apply(p, Arrive(Write(|p.arrived|, data[taken..]), false, tick.forwards))
      else p
  }

  /** The path after some ticks, tick by tick. */
  ghost function Replay(start: Path, data: seq<byte>, ticks: seq<Tick>): Path {
    if ticks == [] then start
    else
      TickEffect(Replay(start, data, ticks[..|ticks|-1]), |Past(start.log).accepted|, data, ticks[|ticks|-1])
  }

  /** rest is what is left of the schedule, and p is where the ticks before it led. */
  ghost predicate OnTrack(p: Path, start: Path, data: seq<byte>, schedule: seq<Tick>, rest: seq<Tick>) {
    && |rest| <= |schedule| && rest == schedule[|schedule| - |rest|..]
    && p == Replay(start, data, schedule[..|schedule| - |rest|])
  }

  lemma NextOnTrack(p: Path, start: Path, data: seq<byte>, schedule: seq<Tick>, rest: seq<Tick>)
    requires OnTrack(p, start, data, schedule, rest) && rest != []
    ensures OnTrack(TickEffect(p, |Past(start.log).accepted|, data, rest[0]), start, data, schedule, rest[1..])
  {
    hide TickEffect, Past;
    var k := |schedule| - |rest|;
    assert schedule[..k + 1][..k] == schedule[..k] && schedule[k] == rest[0];
  }

  lemma StartOnTrack(start: Path, data: seq<byte>, schedule: seq<Tick>)
    ensures OnTrack(start, start, data, schedule, schedule)
  {
    assert schedule[..0] == [];
  }

  /** An answer of a write. */
  predicate WriteAnswer(e: Event) {
    e.Completed? && e.req.Write?
  }

  lemma AddedAnswers(older: seq<Event>, newer: seq<Event>, queue: seq<Request>, from: nat)
    requires older <= newer && from <= |older|
    requires forall k | |older| <= k < |newer| && WriteAnswer(newer[k]) :: newer[k].req in queue
    ensures forall e | e in newer[from..] && WriteAnswer(e) :: e in older[from..] || e.req in queue
  {
    forall e | e in newer[from..] && WriteAnswer(e)
      ensures e in older[from..] || e.req in queue
    {
      var k :| from <= k < |newer| && newer[k] == e;
      if k < |older| {
        assert older[from..][k - from] == e;
      }
    }
  }

  /** What one tick adds to the log is an answer of a pended write, or of no write. */
  lemma TickAnswers(p: Path, t: Path, tick: Tick, from: nat)
    requires Inv(p) && from <= |p.log|
    requires t == match StepOf(p, tick) case None => p case Some(step) => Apply(p, step)
    ensures p.log <= t.log && p.arrived <= t.arrived
    ensures forall e | e in t.log[from..] && WriteAnswer(e) :: e in p.log[from..] || e.req in p.writeQueue
  {
    match StepOf(p, tick)
    case None =>
    case Some(step) =>
      StepIsRead(p, tick);
      StepExtends(p, step);
      hide Inv, Apply, Enabled, StepOf;
      forall k | |p.log| <= k < |t.log| && WriteAnswer(t.log[k])
        ensures t.log[k].req in p.writeQueue
      {
        OnlyPendedComplete(p, step, k);
      }
      AddedAnswers(p.log, t.log, p.writeQueue, from);
  }

  /** The steps of others are enabled, and no write arrives with them. */
  lemma StepIsRead(p: Path, tick: Tick)
    requires StepOf(p, tick).Some?
    ensures var step := StepOf(p, tick).value; Enabled(p, step) && (step.Arrive? ==> step.req.Read?)
  {
  }

  /* ------------------------------------------------------------------------ the loops */

  /** Handlers run until the next WriteFile of this writer is dispatched. */
  method UntilDispatch(dev: PathDevice, schedule: seq<Tick>, ghost start: Path, ghost data: seq<byte>,
                       ghost whole: seq<Tick>, ghost from: nat)
    returns (rest: seq<Tick>)
    requires dev.Valid() && Inv(dev.Abs()) && dev.writeQueue == []
    requires OnTrack(dev.Abs(), start, data, whole, schedule) && from <= |dev.log|
    modifies dev, dev.ring, dev.ring.buffer
    ensures dev.Valid() && (dev.ring.buffer == old(dev.ring.buffer) || dev.ring.buffer == null)
    ensures Inv(dev.Abs()) && dev.writeQueue == []
    ensures Past(dev.log).accepted == old(Past(dev.log).accepted)
    ensures |rest| <= |schedule| && (rest == [] || rest[0].Dispatch?)
    ensures OnTrack(dev.Abs(), start, data, whole, rest)
    ensures old(dev.log) <= dev.log && forall e | e in dev.log[from..] && WriteAnswer(e) :: e in old(dev.log)[from..]
  {
    hide Inv, OnTrack;
    rest := schedule;
    while rest != [] && !rest[0].Dispatch?
      invariant dev.Valid() && (dev.ring.buffer == old(dev.ring.buffer) || dev.ring.buffer == null)
      invariant Inv(dev.Abs()) && dev.writeQueue == []
      invariant Past(dev.log).accepted == old(Past(dev.log).accepted)
      invariant |rest| <= |schedule| && OnTrack(dev.Abs(), start, data, whole, rest)
      invariant old(dev.log) <= dev.log
      invariant forall e | e in dev.log[from..] && WriteAnswer(e) :: e in old(dev.log)[from..]
      decreases |rest|
    {
      ghost var was := dev.Abs();
      ElsewhereQuiet(was, rest[0]);
      Elsewhere(dev, rest[0]);
      TickAnswers(was, dev.Abs(), rest[0], from);
      NextOnTrack(was, start, data, whole, rest);
      rest := rest[1..];
    }
  }

  /** The overlapped wait: handlers run until the request has completed. */
  method UntilCompleted(dev: PathDevice, req: Request, schedule: seq<Tick>, ghost base: seq<byte>,
                        ghost start: Path, ghost data: seq<byte>, ghost whole: seq<Tick>, ghost from: nat)
    returns (rest: seq<Tick>)
    requires dev.Valid() && Inv(dev.Abs()) && Sole(dev.Abs(), req)
    requires Past(dev.log).accepted == base + Taken(dev.log, req)
    requires OnTrack(dev.Abs(), start, data, whole, schedule) && from <= |dev.log|
    requires forall e | e in dev.log[from..] && WriteAnswer(e) :: e.req == req
    modifies dev, dev.ring, dev.ring.buffer
    ensures dev.Valid() && (dev.ring.buffer == old(dev.ring.buffer) || dev.ring.buffer == null)
    ensures Inv(dev.Abs()) && Sole(dev.Abs(), req)
    ensures Past(dev.log).accepted == base + Taken(dev.log, req)
    ensures |rest| <= |schedule| && (rest == [] || Find(dev.log, req).Some?)
    ensures OnTrack(dev.Abs(), start, data, whole, rest) && old(dev.log) <= dev.log
    ensures forall e | e in dev.log[from..] && WriteAnswer(e) :: e.req == req
  {
    hide Inv, OnTrack;
    rest := schedule;
    while rest != [] && Find(dev.log, req).None?
      invariant dev.Valid() && (dev.ring.buffer == old(dev.ring.buffer) || dev.ring.buffer == null)
      invariant Inv(dev.Abs()) && Sole(dev.Abs(), req)
      invariant Past(dev.log).accepted == base + Taken(dev.log, req)
      invariant |rest| <= |schedule| && OnTrack(dev.Abs(), start, data, whole, rest)
      invariant old(dev.log) <= dev.log
      invariant forall e | e in dev.log[from..] && WriteAnswer(e) :: e.req == req
      decreases |rest|
    {
      ghost var was := dev.Abs();
      ElsewhereSole(was, rest[0], req, base);
      Elsewhere(dev, rest[0]);
      TickAnswers(was, dev.Abs(), rest[0], from);
      NextOnTrack(was, start, data, whole, rest);
      rest := rest[1..];
    }
  }

  /** The dispatch of a WriteFile to the companion's write handler. */
  method Issue(dev: PathDevice, data: seq<byte>, forwards: bool) returns (req: Request)
    requires dev.Valid() && Inv(dev.Abs()) && dev.writeQueue == [] && data != []
    modifies dev, dev.ring, dev.ring.buffer
    ensures dev.Valid() && dev.ring.buffer == old(dev.ring.buffer)
    ensures Inv(dev.Abs()) && Sole(dev.Abs(), req) && req == Write(|old(dev.arrivals)|, data)
    ensures Past(dev.log).accepted == old(Past(dev.log).accepted) + Taken(dev.log, req)
    ensures dev.Abs() == Apply(old(dev.Abs()), Arrive(req, false, forwards))
    ensures old(dev.log) <= dev.log && forall e | e in dev.log[|old(dev.log)|..] && WriteAnswer(e) :: e.req == req
  {
    hide Inv, Apply;
    req := Write(|dev.arrivals|, data);
    ghost var was := dev.Abs();
    IssueStep(was, req, forwards);
    dev.EvtWrite(req, forwards);
    StepExtends(was, Arrive(req, false, forwards));
    forall e | e in dev.log[|was.log|..] && WriteAnswer(e)
      ensures e.req == req
    {
      var k :| |was.log| <= k < |dev.log| && dev.log[k] == e;
      OnlyPendedComplete(was, Arrive(req, false, forwards), k);
    }
  }

  /** What the overlapped result of a write can be. */
  lemma Answered(p: Path, req: Request)
    requires Inv(p) && Sole(p, req) && Find(p.log, req).Some?
    ensures p.writeQueue == []
    ensures var e := Find(p.log, req).value;
            Taken(p.log, req) == e.bytes && IsPrefix(e.bytes, req.data) && (e.status == Success <==> e.bytes != [])
  {
    assert EventOk(Find(p.log, req).value);
  }

  /** The answer is the only one for this request, and it is new. */
  lemma AnswerIsNew(p: Path, older: seq<Event>, req: Request)
    requires Inv(p) && older <= p.log && Find(p.log, req).Some? && req.Write?
    requires forall e | e in older && e.Completed? :: e.req != req
    requires forall e | e in p.log[|older|..] && WriteAnswer(e) :: e.req == req
    ensures Find(p.log, req).value in p.log[|older|..]
    ensures forall e | e in p.log[|older|..] && WriteAnswer(e) :: e == Find(p.log, req).value
  {
    var answer := Find(p.log, req).value;
    AnsweredIn(p, req, answer.status, answer.bytes);
    hide Inv, Find;
    assert p.log == older + p.log[|older|..];
  }

  /** A request that has yet to arrive was not answered. */
  lemma NoAnswerYet(p: Path, req: Request)
    requires Inv(p) && req.id >= |p.arrived| && req.Write?
    ensures forall e | e in p.log && e.Completed? :: e.req != req
  {
    forall e | e in p.log && e.Completed?
      ensures e.req != req
    {
      var i :| 0 <= i < |p.log| && p.log[i] == e;
      FinishedAt(p.log, i);
      if e.req == req { PendedOrFinished(p, req); }
    }
  }

  /** What a WriteFile that was answered says: its event is new, it is the only one, and it is its own. */
  ghost predicate IsAnswer(e: Event, data: seq<byte>, added: seq<Event>) {
    && WriteAnswer(e) && e.req.data == data && e in added
    && forall x | x in added && WriteAnswer(x) :: x == e
  }

  /** WriteFile and the wait for it: None when the schedule ended first, with the write still pended. */
  method WriteFile(dev: PathDevice, data: seq<byte>, schedule: seq<Tick>, ghost start: Path, ghost all: seq<byte>,
                   ghost whole: seq<Tick>)
    returns (answer: Option<Event>, rest: seq<Tick>)
    requires dev.Valid() && Inv(dev.Abs()) && dev.writeQueue == [] && data != []
    requires schedule != [] && schedule[0].Dispatch?
    requires OnTrack(dev.Abs(), start, all, whole, schedule)
    requires var taken := |Past(dev.log).accepted| - |Past(start.log).accepted|;
             0 <= taken < |all| && data == all[taken..]
    modifies dev, dev.ring, dev.ring.buffer
    ensures dev.Valid() && (dev.ring.buffer == old(dev.ring.buffer) || dev.ring.buffer == null)
    ensures Inv(dev.Abs()) && |rest| < |schedule|
    ensures OnTrack(dev.Abs(), start, all, whole, rest) && old(dev.log) <= dev.log
    ensures answer.None? ==>
              && rest == [] && Past(dev.log).accepted == old(Past(dev.log).accepted)
              && |dev.writeQueue| == 1 && dev.writeQueue[0].Write? && dev.writeQueue[0].data == data
              && forall e | e in dev.log[|old(dev.log)|..] :: !WriteAnswer(e)
    ensures answer.Some? ==>
              var e := answer.value;
              && dev.writeQueue == [] && IsAnswer(e, data, dev.log[|old(dev.log)|..])
              && Past(dev.log).accepted == old(Past(dev.log).accepted) + e.bytes
              && IsPrefix(e.bytes, data) && (e.status == Success <==> e.bytes != [])
  {
    hide Inv, OnTrack, Past, Apply;
    ghost var was, before := dev.Abs(), Past(dev.log).accepted;
    ghost var tick := schedule[0];
    NextOnTrack(was, start, all, whole, schedule);
    NoAnswerYet(was, Write(|was.arrived|, data));
    var req := Issue(dev, data, schedule[0].forwards);
    assert dev.Abs() == TickEffect(was, |Past(start.log).accepted|, all, tick);
    rest := UntilCompleted(dev, req, schedule[1..], before, start, all, whole, |was.log|);
    answer := Find(dev.log, req);
    if answer.Some? {
      Answered(dev.Abs(), req);
      AnswerIsNew(dev.Abs(), was.log, req);
    } else {
      assert before + [] == before;
      Unanswered(dev.Abs(), was.log, req);
    }
  }

  lemma Unanswered(p: Path, older: seq<Event>, req: Request)
    requires Inv(p) && older <= p.log && Find(p.log, req).None?
    requires forall e | e in p.log[|older|..] && WriteAnswer(e) :: e.req == req
    ensures forall e | e in p.log[|older|..] :: !WriteAnswer(e)
  {
    forall e | e in p.log[|older|..] && WriteAnswer(e)
      ensures false
    {
      FindsAny(p.log, e);
    }
  }

  lemma {:induction false} FindsAny(log: seq<Event>, e: Event)
    requires e in log && e.Completed?
    ensures Find(log, e.req).Some?
  {
    var init, last := log[..|log|-1], log[|log|-1];
    if last != e {
      FindsAny(init, e);
    }
  }

  /** Accepting a prefix of what is left extends what was accepted of the whole. */
  lemma Continued(before: seq<byte>, data: seq<byte>, offset: nat, bytes: seq<byte>)
    requires offset <= |data| && IsPrefix(bytes, data[offset..])
    ensures offset + |bytes| <= |data|
    ensures before + data[..offset] + bytes == before + data[..offset + |bytes|]
  {
    assert data[..offset] + bytes == data[..offset + |bytes|];
    Assoc(before, data[..offset], bytes);
  }

  /** Every write answered since succeeded. */
  ghost predicate NoneFailed(added: seq<Event>) {
    forall e | e in added && WriteAnswer(e) :: e.status == Success
  }

  /** The answers of one more WriteFile. */
  lemma MoreAnswers(first: seq<Event>, mid: seq<Event>, last: seq<Event>, e: Event, data: seq<byte>)
    requires first <= mid <= last && NoneFailed(mid[|first|..]) && IsAnswer(e, data, last[|mid|..])
    ensures NoneFailed(last[|first|..]) <==> e.status == Success
    ensures e in last[|first|..] && forall x | x in last[|first|..] && WriteAnswer(x) && x.status != Success :: x == e
  {
    assert last[|first|..] == mid[|first|..] + last[|mid|..];
  }

  lemma NoMoreAnswers(first: seq<Event>, mid: seq<Event>, last: seq<Event>)
    requires first <= mid <= last && NoneFailed(mid[|first|..]) && forall e | e in last[|mid|..] :: !WriteAnswer(e)
    ensures NoneFailed(last[|first|..])
  {
    assert last[|first|..] == mid[|first|..] + last[|mid|..];
  }

  /**
   Writes all of data, across partial completions, pended writes and whatever else runs; each tick
   of the schedule that is used up does what it must. Done means accepted whole. An error is
   reported exactly when a write of this call was answered without success, with the bytes from
   offset on; then, and when the schedule ends first, exactly the bytes up to offset were accepted.
   */
  method DoWrite(dev: PathDevice, data: seq<byte>, schedule: seq<Tick>)
    returns (outcome: Outcome, offset: nat, rest: seq<Tick>)
    requires dev.Valid() && Inv(dev.Abs()) && dev.writeQueue == []
    modifies dev, dev.ring, dev.ring.buffer
    ensures dev.Valid() && Inv(dev.Abs()) && offset <= |data|
    ensures OnTrack(dev.Abs(), old(dev.Abs()), data, schedule, rest) && old(dev.log) <= dev.log
    ensures Past(dev.log).accepted == old(Past(dev.log).accepted) + data[..offset]
    ensures outcome.Done? <==> offset == |data|
    ensures outcome.Error? <==> !NoneFailed(dev.log[|old(dev.log)|..])
    ensures outcome.Error? ==>
              exists e :: e in dev.log[|old(dev.log)|..] && WriteAnswer(e) && e.status != Success
                          && e.req.data == data[offset..]
    ensures outcome.Unfinished? ==>
              rest == []
              && (dev.writeQueue == []
                  || (|dev.writeQueue| == 1 && dev.writeQueue[0].Write? && dev.writeQueue[0].data == data[offset..]))
    ensures !outcome.Unfinished? ==> dev.writeQueue == []
  {
    hide Inv, OnTrack, Past, NoneFailed, IsAnswer;
    ghost var start := dev.Abs();
    ghost var before := Past(start.log).accepted;
    offset, rest := 0, schedule;
    assert data[..0] == [] && before + [] == before;
    StartOnTrack(start, data, schedule);
    NothingFailed(start.log);
    while offset < |data|
      invariant dev.Valid() && (dev.ring.buffer == old(dev.ring.buffer) || dev.ring.buffer == null)
      invariant Inv(dev.Abs()) && dev.writeQueue == [] && offset <= |data|
      invariant Past(dev.log).accepted == before + data[..offset]
      invariant OnTrack(dev.Abs(), start, data, schedule, rest)
      invariant start.log <= dev.log && NoneFailed(dev.log[|start.log|..])
      decreases |rest|
    {
      ghost var log0 := dev.log;
      rest := UntilDispatch(dev, rest, start, data, schedule, |start.log|);
      FailedNone(log0[|start.log|..], dev.log[|start.log|..]);
      if rest == [] {
        return Unfinished, offset, rest;
      }
      ghost var mid := dev.log;
      var answer;
      answer, rest := WriteFile(dev, data[offset..], rest, start, data, schedule);
      if answer.None? {
        NoMoreAnswers(start.log, mid, dev.log);
        return Unfinished, offset, rest;
      }
      MoreAnswers(start.log, mid, dev.log, answer.value, data[offset..]);
      OwnAnswer(answer.value, data[offset..], dev.log[|mid|..]);
      if answer.value.status != Success {
        return Error, offset, rest;
      }
      var written := |answer.value.bytes|;
      if written == 0 {
        assert false;  // the branch that sleeps and retries cannot be reached
      } else {
        Continued(before, data, offset, answer.value.bytes);
        offset := offset + written;
      }
    }
    assert data[..offset] == data;
    return Done, offset, rest;
  }

  lemma NothingFailed(log: seq<Event>)
    ensures NoneFailed(log[|log|..])
  {
  }

  lemma FailedNone(older: seq<Event>, newer: seq<Event>)
    requires NoneFailed(older) && forall e | e in newer && WriteAnswer(e) :: e in older
    ensures NoneFailed(newer)
  {
  }

  lemma OwnAnswer(e: Event, data: seq<byte>, added: seq<Event>)
    requires IsAnswer(e, data, added)
    ensures WriteAnswer(e) && e.req.data == data
  {
  }
}
