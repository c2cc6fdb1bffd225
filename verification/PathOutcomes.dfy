/** What becomes of each request of a direction: when it is pended, and how it is answered. */
module PathOutcomes {
  import opened Prelude
  import opened DataPath
  import opened DataPathRuns

  /* ----------------------------------------------------------------- one answer */

  /** No request is completed at two places of the log. */
  ghost predicate EachOnce(log: seq<Event>) {
    forall i, j | 0 <= i < j < |log| && log[i].Completed? && log[j].Completed? :: log[i].req != log[j].req
  }

  /** req was answered like this, and never in any other way. */
  ghost predicate Answered(log: seq<Event>, req: Request, status: NtStatus, bytes: seq<byte>) {
    Completed(req, status, bytes) in log
    && forall e | e in log && e.Completed? && e.req == req :: e == Completed(req, status, bytes)
  }

  lemma {:induction false} FinishedAt(log: seq<Event>, i: nat)
    requires i < |log| && log[i].Completed?
    ensures multiset(Past(log).finished)[log[i].req] >= 1
  {
    var init, last := log[..|log|-1], log[|log|-1];
    if i < |log| - 1 {
      FinishedAt(init, i);
    }
  }

  lemma {:induction false} FinishedTwice(log: seq<Event>, i: nat, j: nat)
    requires i < j < |log| && log[i].Completed? && log[j].Completed? && log[i].req == log[j].req
    ensures multiset(Past(log).finished)[log[i].req] >= 2
  {
    var init := log[..|log|-1];
    if j < |log| - 1 {
      FinishedTwice(init, i, j);
    } else {
      FinishedAt(init, i);
    }
  }

  lemma CompletedOnce(p: Path)
    requires Inv(p)
    ensures EachOnce(p.log)
  {
    hide Pending, Conserved, ReadersWaitOnEmpty, Past;
    forall i, j | 0 <= i < j < |p.log| && p.log[i].Completed? && p.log[j].Completed?
      ensures p.log[i].req != p.log[j].req
    {
      NumberedOnce(p.arrived, p.log[i].req);
      assert Held(p)[p.log[i].req] <= 1;
      if p.log[i].req == p.log[j].req {
        FinishedTwice(p.log, i, j);
      }
    }
  }

  lemma AnsweredIn(p: Path, req: Request, status: NtStatus, bytes: seq<byte>)
    requires Inv(p) && Completed(req, status, bytes) in p.log
    ensures Answered(p.log, req, status, bytes)
  {
    CompletedOnce(p);
    hide Inv;
    var i :| 0 <= i < |p.log| && p.log[i] == Completed(req, status, bytes);
    forall e | e in p.log && e.Completed? && e.req == req
      ensures e == Completed(req, status, bytes)
    {
      var j :| 0 <= j < |p.log| && p.log[j] == e;
    }
  }

  /** What was answered stays so through every run. */
  lemma AnswerStays(p: Path, run: seq<Step>, req: Request, status: NtStatus, bytes: seq<byte>)
    requires Inv(p) && Legal(p, run) && Completed(req, status, bytes) in p.log
    ensures Answered(Exec(p, run).log, req, status, bytes)
  {
    InvRun(p, run);
    RunExtends(p, run);
    hide Inv, Exec, Legal;
    assert Completed(req, status, bytes) in Exec(p, run).log;
    AnsweredIn(Exec(p, run), req, status, bytes);
  }

  lemma {:induction false} EventOf(log: seq<Event>, req: Request) returns (i: nat)
    requires req in Past(log).finished
    ensures i < |log| && log[i].Completed? && log[i].req == req
    decreases |log|
  {
    var init, last := log[..|log|-1], log[|log|-1];
    if last.Completed? && last.req == req {
      i := |log| - 1;
    } else {
      i := EventOf(init, req);
    }
  }

  /** What completes at place k was not completed before. */
  lemma NotBefore(older: seq<Event>, log: seq<Event>, k: nat)
    requires EachOnce(log) && older <= log && |older| <= k < |log| && log[k].Completed?
    ensures log[k].req !in Past(older).finished
  {
    assert forall i | 0 <= i < |older| :: older[i] == log[i];
    if log[k].req in Past(older).finished {
      var i := EventOf(older, log[k].req);
    }
  }

  /** A step completes only writes that were pended or arrive with it. */
  lemma OnlyPendedComplete(p: Path, step: Step, k: nat)
    requires Inv(p) && Enabled(p, step) && |p.log| <= k < |Apply(p, step).log|
    requires var e := Apply(p, step).log[k]; e.Completed? && e.req.Write?
    ensures var req := Apply(p, step).log[k].req; req in p.writeQueue || (step.Arrive? && step.req == req)
  {
    var t := Apply(p, step);
    var req := t.log[k].req;
    StepKeeps(p, step);
    StepExtends(p, step);
    CompletedOnce(t);
    hide Inv, Past, Apply, Enabled, EachOnce;
    NotBefore(p.log, t.log, k);
    FinishedAt(t.log, k);
    PendedOrFinished(t, req);
    PendedOrFinished(p, req);
    if req !in p.arrived {
      ArrivesNow(p, step, req);
    }
  }

  lemma ArrivesNow(p: Path, step: Step, req: Request)
    requires req in Apply(p, step).arrived && req !in p.arrived
    ensures step.Arrive? && step.req == req
  {
    hide DrainReads, DrainWrites, CancelAll;
    if step.Arrive? {
      assert Apply(p, step).arrived == p.arrived + [step.req];
    }
  }

  /* ------------------------------------------------------------- queues only shrink */

  lemma {:induction false} DrainReadsShrinks(p: Path)
    ensures DrainReads(p).writeQueue == p.writeQueue
    ensures forall r | r in DrainReads(p).readQueue :: r in p.readQueue
    decreases |p.readQueue|
  {
    if p.ring != [] && p.readQueue != [] {
      var r, rest := p.readQueue[0], p.(readQueue := p.readQueue[1..]);
      if !r.Read? || r.len == 0 {
        DrainReadsShrinks(Note(rest, r, BufferTooSmall, []));
      } else {
        var n := Min(r.len, |p.ring|);
        DrainReadsShrinks(Note(rest.(ring := p.ring[n..]), r, Success, p.ring[..n]));
      }
    }
  }

  lemma {:induction false} DrainWritesShrinks(p: Path)
    ensures forall r | r in DrainWrites(p).readQueue :: r in p.readQueue
    ensures forall r | r in DrainWrites(p).writeQueue :: r in p.writeQueue
    decreases |p.writeQueue|
  {
    hide DrainReads;
    if |p.ring| < p.cap && p.writeQueue != [] {
      var r, rest := p.writeQueue[0], p.(writeQueue := p.writeQueue[1..]);
      if !r.Write? || r.data == [] {
        DrainWritesShrinks(Note(rest, r, BufferTooSmall, []));
      } else {
        var n := Min(|r.data|, p.cap - |p.ring|);
        var one := Note(rest.(ring := p.ring + r.data[..n]), r, Success, r.data[..n]);
        DrainReadsShrinks(one);
        DrainWritesShrinks(DrainReads(one));
      }
    }
  }

  /** A request that arrives now is in no queue yet. */
  lemma NotYetPended(p: Path, req: Request)
    requires Inv(p) && req.id == |p.arrived|
    ensures req !in p.readQueue && req !in p.writeQueue
  {
    hide Pending, Conserved, ReadersWaitOnEmpty, Past;
    NumberedOnce(p.arrived, req);
    assert req !in p.arrived;
    assert Held(p)[req] == 0;
  }

  /* ------------------------------------------------------------------------ reads */

  /** The first unread bytes, as many as are asked for and there. */
  function FirstUnread(p: Path, n: nat): seq<byte> {
    if p.active then p.ring[..Min(n, |p.ring|)] else []
  }

  function ReadStatus(p: Path, req: Request, nonBlocking: bool): NtStatus
    requires req.Read?
  {
    if !p.active then DeviceNotConnected
    else if req.len == 0 then BufferTooSmall
    else if p.ring != [] || nonBlocking then Success
    else ForwardFailed
  }

  lemma ReadEnds(p: Path, req: Request, nonBlocking: bool, forwards: bool)
    requires req.Read? && req !in p.readQueue
    ensures var t := Apply(p, Arrive(req, nonBlocking, forwards));
            if p.active && req.len > 0 && p.ring == [] && !nonBlocking && forwards then t.readQueue == p.readQueue + [req]
            else
              && req !in t.readQueue && t.log != []
              && t.log[|t.log|-1] == Completed(req, ReadStatus(p, req, nonBlocking), FirstUnread(p, req.len))
  {
    hide DrainWrites;
    DrainWritesShrinks(p.(ring := p.ring[Min(req.len, |p.ring|)..]));
  }

  /**
   A read that arrives is pended exactly when the pair is alive, it asks for a byte, none is
   unread, it may block and it can be forwarded. Otherwise it is answered at once: with the first
   unread bytes if there are any, with none and success if it must not block.
   */
  lemma ReadOutcome(p: Path, req: Request, nonBlocking: bool, forwards: bool)
    requires Inv(p) && req.Read? && req.id == |p.arrived|
    ensures var t := Apply(p, Arrive(req, nonBlocking, forwards));
            && (req in t.readQueue <==> p.active && req.len > 0 && p.ring == [] && !nonBlocking && forwards)
            && (req !in t.readQueue ==>
                  Answered(t.log, req, ReadStatus(p, req, nonBlocking), FirstUnread(p, req.len)))
  {
    var t := Apply(p, Arrive(req, nonBlocking, forwards));
    ReadArrives(p, req, nonBlocking, forwards);
    NotYetPended(p, req);
    hide Inv, Apply, Answered, ReadStatus, FirstUnread;
    ReadEnds(p, req, nonBlocking, forwards);
    if req !in t.readQueue {
      assert t.log[|t.log|-1] in t.log;
      AnsweredIn(t, req, ReadStatus(p, req, nonBlocking), FirstUnread(p, req.len));
    }
  }

  /* ------------------------------------------------------------ writes and characters */

  /** The bytes of data that find room. */
  function FirstFitting(p: Path, data: seq<byte>): seq<byte> {
    if p.active then data[..Min(|data|, Room(p))] else []
  }

  function WriteStatus(p: Path, data: seq<byte>): NtStatus {
    if !p.active then DeviceNotConnected
    else if data == [] then BufferTooSmall
    else if |p.ring| < p.cap then Success
    else ForwardFailed
  }

  lemma WriteEnds(p: Path, req: Request, nonBlocking: bool, forwards: bool)
    requires |p.ring| <= p.cap && req.Write?
    ensures var t := Apply(p, Arrive(req, nonBlocking, forwards));
            if p.active && req.data != [] && |p.ring| == p.cap && forwards then t.writeQueue == p.writeQueue + [req]
            else
              && t.writeQueue == p.writeQueue
              && t.log != [] && t.log[|t.log|-1] == Completed(req, WriteStatus(p, req.data), FirstFitting(p, req.data))
  {
    hide DrainReads;
    DrainReadsShrinks(p.(ring := p.ring + req.data[..Min(|req.data|, Room(p))]));
  }

  /**
   A write that arrives is pended exactly when the pair is alive, it has a byte, the ring is full
   and it can be forwarded. Otherwise it is answered at once, and as many of its bytes as find
   room have entered.
   */
  lemma WriteOutcome(p: Path, req: Request, nonBlocking: bool, forwards: bool)
    requires Inv(p) && req.Write? && req.id == |p.arrived|
    ensures var t := Apply(p, Arrive(req, nonBlocking, forwards));
            && (req in t.writeQueue <==> p.active && req.data != [] && |p.ring| == p.cap && forwards)
            && (req !in t.writeQueue ==> Answered(t.log, req, WriteStatus(p, req.data), FirstFitting(p, req.data)))
  {
    var t := Apply(p, Arrive(req, nonBlocking, forwards));
    WriteArrives(p, req, nonBlocking, forwards);
    NotYetPended(p, req);
    assert |p.ring| <= p.cap;
    hide Inv, Apply, Answered, WriteStatus, FirstFitting;
    WriteEnds(p, req, nonBlocking, forwards);
    if req !in t.writeQueue {
      assert t.log[|t.log|-1] in t.log;
      AnsweredIn(t, req, WriteStatus(p, req.data), FirstFitting(p, req.data));
    }
  }

  /** A character is answered at once, whether it found room or not. */
  lemma ImmediateOutcome(p: Path, req: Request, nonBlocking: bool, forwards: bool)
    requires Inv(p) && req.Immediate? && req.id == |p.arrived|
    ensures var t := Apply(p, Arrive(req, nonBlocking, forwards));
            && req !in t.writeQueue && req !in t.readQueue
            && Answered(t.log, req,
                        if !p.active then DeviceNotConnected
                        else if req.chars == [] then BufferTooSmall
                        else Success,
                        if p.active && req.chars != [] && |p.ring| < p.cap then req.chars[..1] else [])
  {
    var t := Apply(p, Arrive(req, nonBlocking, forwards));
    WriteArrives(p, req, nonBlocking, forwards);
    NotYetPended(p, req);
    assert |p.ring| <= p.cap;
    hide Inv, DrainReads;
    DrainReadsShrinks(p.(ring := p.ring + req.chars[..Min(|req.chars|, Min(1, Room(p)))]));
    var e := t.log[|t.log|-1];
    assert e in t.log;
    AnsweredIn(t, req, e.status, e.bytes);
  }

  /* --------------------------------------------------------- cancels, purges, destroy */

  /** The request at place i leaves, cancelled; the others keep their order, and nothing else changes. */
  lemma CancelReadOutcome(p: Path, i: nat)
    requires Inv(p) && i < |p.readQueue|
    ensures var t := Apply(p, CancelRead(i));
            && Answered(t.log, p.readQueue[i], Cancelled, [])
            && t.readQueue == p.readQueue[..i] + p.readQueue[i + 1..]
            && t == p.(readQueue := t.readQueue, log := t.log) && |t.log| == |p.log| + 1
  {
    var t := Apply(p, CancelRead(i));
    CancelReadKeeps(p, i);
    hide Inv;
    assert t.log[|p.log|] == Completed(p.readQueue[i], Cancelled, []);
    AnsweredIn(t, p.readQueue[i], Cancelled, []);
  }

  lemma CancelWriteOutcome(p: Path, i: nat)
    requires Inv(p) && i < |p.writeQueue|
    ensures var t := Apply(p, CancelWrite(i));
            && Answered(t.log, p.writeQueue[i], Cancelled, [])
            && t.writeQueue == p.writeQueue[..i] + p.writeQueue[i + 1..]
            && t == p.(writeQueue := t.writeQueue, log := t.log) && |t.log| == |p.log| + 1
  {
    var t := Apply(p, CancelWrite(i));
    CancelWriteKeeps(p, i);
    hide Inv;
    assert t.log[|p.log|] == Completed(p.writeQueue[i], Cancelled, []);
    AnsweredIn(t, p.writeQueue[i], Cancelled, []);
  }

  lemma {:induction false} CancelAllEvents(log: seq<Event>, reqs: seq<Request>)
    ensures var t := CancelAll(log, reqs);
            && |t| == |log| + |reqs| && log <= t
            && forall i | 0 <= i < |reqs| :: t[|log| + i] == Completed(reqs[i], Cancelled, [])
    decreases |reqs|
  {
    if reqs != [] {
      CancelAllEvents(log + [Completed(reqs[0], Cancelled, [])], reqs[1..]);
    }
  }

  /** Every request of a list is answered as cancelled. */
  ghost predicate AllCancelled(log: seq<Event>, reqs: seq<Request>) {
    forall r | r in reqs :: Answered(log, r, Cancelled, [])
  }

  lemma CancelledInLog(t: Path, log: seq<Event>, reqs: seq<Request>)
    requires Inv(t) && CancelAll(log, reqs) <= t.log
    ensures AllCancelled(t.log, reqs)
  {
    hide Inv;
    CancelAllEvents(log, reqs);
    forall r | r in reqs
      ensures Answered(t.log, r, Cancelled, [])
    {
      var i :| 0 <= i < |reqs| && reqs[i] == r;
      assert t.log[|log| + i] == Completed(r, Cancelled, []);
      AnsweredIn(t, r, Cancelled, []);
    }
  }

  /** RXABORT ends every pended read as cancelled and touches nothing else. */
  lemma AbortReadsOutcome(p: Path)
    requires Inv(p)
    ensures var t := Apply(p, AbortReads);
            && t.readQueue == [] && AllCancelled(t.log, p.readQueue)
            && t == p.(readQueue := [], log := t.log) && |t.log| == |p.log| + |p.readQueue|
  {
    StepKeeps(p, AbortReads);
    assert !p.active ==> p.readQueue == [];
    hide Inv;
    var t := Apply(p, AbortReads);
    CancelAllEvents(p.log, p.readQueue);
    assert t.log == CancelAll(p.log, p.readQueue);
    CancelledInLog(t, p.log, p.readQueue);
  }

  /** TXABORT does the same for the pended writes; none of their bytes enters. */
  lemma AbortWritesOutcome(p: Path)
    requires Inv(p)
    ensures var t := Apply(p, AbortWrites);
            && t.writeQueue == [] && AllCancelled(t.log, p.writeQueue)
            && t == p.(writeQueue := [], log := t.log) && |t.log| == |p.log| + |p.writeQueue|
  {
    StepKeeps(p, AbortWrites);
    assert !p.active ==> p.writeQueue == [];
    hide Inv;
    var t := Apply(p, AbortWrites);
    CancelAllEvents(p.log, p.writeQueue);
    assert t.log == CancelAll(p.log, p.writeQueue);
    CancelledInLog(t, p.log, p.writeQueue);
  }

  /** A clear discards exactly what is unread, and answers nothing. */
  lemma ClearOutcome(p: Path)
    requires Inv(p) && p.active
    ensures var t := Apply(p, Clear);
            && t == p.(ring := [], log := t.log) && |t.log| == |p.log| + 1
            && Discarded(t.log) == Discarded(p.log) + p.ring
            && Past(t.log).delivered == Past(p.log).delivered && Past(t.log).finished == Past(p.log).finished
  {
    hide Inv, Past, Discarded;
    Snoc(p.log, Flushed(p.ring));
    DiscardedSnoc(p.log, Flushed(p.ring));
  }

  /** Destroy answers everything pended as cancelled, discards what is unread, and leaves the pair dead. */
  lemma DestroyOutcome(p: Path)
    requires Inv(p)
    ensures var t := Apply(p, Destroy);
            && !t.active && t.readQueue == [] && t.writeQueue == [] && t.ring == []
            && AllCancelled(t.log, p.readQueue) && AllCancelled(t.log, p.writeQueue)
            && Discarded(t.log) == Discarded(p.log) + p.ring
  {
    var t, log1 := Apply(p, Destroy), CancelAll(p.log, p.readQueue);
    var log2 := CancelAll(log1, p.writeQueue);
    DestroyKeeps(p);
    hide Inv;
    CancelAllEvents(p.log, p.readQueue);
    CancelAllEvents(log1, p.writeQueue);
    assert t.log == log2 + [Flushed(p.ring)];
    CancelledInLog(t, p.log, p.readQueue);
    CancelledInLog(t, log1, p.writeQueue);
    CancelsDiscardNothing(p.log, p.readQueue);
    CancelsDiscardNothing(log1, p.writeQueue);
    DiscardedSnoc(log2, Flushed(p.ring));
  }

  /* ----------------------------------------------------------------- over whole runs */

  /** Only a read that arrives joins the pended ones. */
  lemma OnlyArrivalsPend(p: Path, step: Step, r: Request)
    requires r in Apply(p, step).readQueue && Enabled(p, step)
    ensures r in p.readQueue || (step.Arrive? && step.req == r)
  {
    hide DrainReads, DrainWrites, CancelAll;
    match step
    case Arrive(req, nonBlocking, forwards) =>
      match req {
        case Read(_, len) => DrainWritesShrinks(p.(ring := p.ring[Min(len, |p.ring|)..]));
        case Write(_, data) => DrainReadsShrinks(p.(ring := p.ring + data[..Min(|data|, Room(p))]));
        case Immediate(_, chars) =>
          DrainReadsShrinks(p.(ring := p.ring + chars[..Min(|chars|, Min(1, Room(p)))]));
      }
    case CancelRead(i) => WithoutElements(p.readQueue, i);
    case _ =>
  }

  lemma {:induction false} StaysOut(p: Path, run: seq<Step>, r: Request)
    requires Inv(p) && Legal(p, run) && r in p.arrived && r !in p.readQueue
    ensures r !in Exec(p, run).readQueue
    decreases |run|
  {
    if run != [] {
      var t := Apply(p, run[0]);
      assert r.id < |p.arrived|;
      StepKeeps(p, run[0]);
      StepExtends(p, run[0]);
      assert r in t.arrived;
      if r in t.readQueue { OnlyArrivalsPend(p, run[0], r); }
      StaysOut(t, run[1..], r);
    }
  }

  lemma {:induction false} NonBlockingFrom(p: Path, run: seq<Step>, i: nat)
    requires Inv(p) && Legal(p, run) && i < |run|
    requires run[i].Arrive? && run[i].req.Read? && run[i].nonBlocking
    ensures run[i].req !in Exec(p, run).readQueue
    decreases i
  {
    var t := Apply(p, run[0]);
    StepKeeps(p, run[0]);
    if i == 0 {
      NonBlockingNow(p, run[0].req, run[0].forwards);
    }
    hide Inv, Apply, Enabled;
    if i == 0 {
      StaysOut(t, run[1..], run[0].req);
    } else {
      NonBlockingFrom(t, run[1..], i - 1);
    }
  }

  lemma NonBlockingNow(p: Path, req: Request, forwards: bool)
    requires Inv(p) && req.Read? && req.id == |p.arrived|
    ensures var t := Apply(p, Arrive(req, true, forwards)); req in t.arrived && req !in t.readQueue
  {
    ReadOutcome(p, req, true, forwards);
    hide Inv, Evt;
    assert req in p.arrived + [req];
  }

  /** In no run a read that must not block is ever pended. */
  lemma NonBlockingNeverPends(cap: nat, run: seq<Step>, i: nat)
    requires Legal(Initial(cap), run) && i < |run|
    requires run[i].Arrive? && run[i].req.Read? && run[i].nonBlocking
    ensures run[i].req !in Exec(Initial(cap), run).readQueue
  {
    InitialOk(cap);
    NonBlockingFrom(Initial(cap), run, i);
  }

  /** A read that arrived is pended or finished, and not both. */
  lemma ReadPendedOrFinished(p: Path, req: Request)
    requires Inv(p) && req.Read?
    ensures req in p.arrived <==> req in p.readQueue || req in Past(p.log).finished
    ensures !(req in p.readQueue && req in Past(p.log).finished)
  {
    assert req !in p.writeQueue;
    assert Held(p)[req] == multiset(p.arrived)[req];
    NumberedOnce(p.arrived, req);
  }

  lemma PendedLater(p: Path, t: Path, r: Request)
    requires Inv(p) && Inv(t) && p.log <= t.log && p.arrived <= t.arrived && p.readQueue == [] && r in t.readQueue
    ensures r in t.arrived[|p.arrived|..] && r.Read? && r !in Past(t.log).finished
  {
    assert r.Read?;
    hide Held, Past, Conserved, ReadersWaitOnEmpty;
    FinishedGrows(p.log, t.log);
    ReadPendedOrFinished(t, r);
    ReadPendedOrFinished(p, r);
    LaterArrival(p.arrived, t.arrived, r);
  }

  /**
   From an empty read queue on, only reads that arrived since are pended; the queue is empty again
   exactly when every read that arrived since has completed.
   */
  lemma NoReadPendsIff(p: Path, run: seq<Step>)
    requires Inv(p) && Legal(p, run) && p.readQueue == []
    ensures var t := Exec(p, run);
            && |p.arrived| <= |t.arrived|
            && (forall r | r in t.readQueue :: r in t.arrived[|p.arrived|..])
            && (t.readQueue == [] <==>
                forall r | r in t.arrived[|p.arrived|..] && r.Read? :: r in Past(t.log).finished)
  {
    var t := Exec(p, run);
    InvRun(p, run);
    RunExtends(p, run);
    hide Inv, Past, Legal, Exec;
    forall r | r in t.readQueue
      ensures r in t.arrived[|p.arrived|..] && r.Read? && r !in Past(t.log).finished
    {
      PendedLater(p, t, r);
    }
    forall r | r in t.arrived[|p.arrived|..] && r.Read?
      ensures t.readQueue == [] ==> r in Past(t.log).finished
    {
      assert r in t.arrived;
      ReadPendedOrFinished(t, r);
    }
    if t.readQueue != [] {
      assert t.readQueue[0] in t.readQueue;
    }
  }

  /* --------------------------------------------------------- drains move all they can */

  /** The unread bytes after part of a drain that started at p, by what its log says. */
  function Fill(p: Path, log: seq<Event>): int {
    |p.ring| + (|Past(log).accepted| - |Past(p.log).accepted|) - (|Past(log).consumed| - |Past(p.log).consumed|)
  }

  /** Event e moved as many bytes as it could with fill unread bytes in a ring of capacity cap. */
  predicate MovesAll(cap: nat, fill: int, e: Event) {
    && e.Completed? && e.status == Success && 0 <= fill <= cap
    && match e.req
       case Read(_, len) => |e.bytes| == Min(len, fill)
       case Write(_, data) => |e.bytes| == Min(|data|, cap - fill)
       case Immediate(_, _) => false
  }

  ghost predicate AllMoved(p: Path, log: seq<Event>) {
    forall k | |p.log| <= k < |log| :: MovesAll(p.cap, Fill(p, log[..k]), log[k])
  }

  /** One event moved all it could, and so did everything after it. */
  lemma FirstThenRest(p: Path, one: Path, e: Event, log: seq<Event>)
    requires one.log == p.log + [e] && one.log <= log && one.cap == p.cap
    requires MovesAll(p.cap, |p.ring|, e) && |one.ring| == Fill(p, one.log)
    requires AllMoved(one, log)
    ensures AllMoved(p, log)
  {
    hide Past;
    forall k | |p.log| <= k < |log|
      ensures MovesAll(p.cap, Fill(p, log[..k]), log[k])
    {
      if k == |p.log| {
        assert log[..k] == p.log && log[k] == one.log[k];
      } else {
        assert Fill(one, log[..k]) == Fill(p, log[..k]);
      }
    }
  }

  lemma {:induction false} ReadsMoveAll(p: Path)
    requires Pending(p)
    ensures AllMoved(p, DrainReads(p).log) && DrainReads(p).cap == p.cap && p.log <= DrainReads(p).log
    decreases |p.readQueue|
  {
    hide Past;
    DrainReadsExtends(p);
    if p.ring != [] && p.readQueue != [] {
      var r, n := p.readQueue[0], Min(p.readQueue[0].len, |p.ring|);
      var e := Completed(r, Success, p.ring[..n]);
      var one := Note(p.(readQueue := p.readQueue[1..], ring := p.ring[n..]), r, Success, p.ring[..n]);
      assert r in p.readQueue;
      Snoc(p.log, e);
      ServeOne(p, one, n);
      DrainReadsExtends(one);
      ReadsMoveAll(one);
      FirstThenRest(p, one, e, DrainReads(one).log);
    }
  }

  /** A stretch of a drain, and then another. */
  lemma StretchThenRest(p: Path, mid: Path, log: seq<Event>)
    requires p.log <= mid.log <= log && mid.cap == p.cap && |mid.ring| == Fill(p, mid.log)
    requires AllMoved(p, mid.log) && AllMoved(mid, log)
    ensures AllMoved(p, log)
  {
    hide Past;
    forall k | |p.log| <= k < |log|
      ensures MovesAll(p.cap, Fill(p, log[..k]), log[k])
    {
      if k < |mid.log| {
        assert log[..k] == mid.log[..k];
      } else {
        assert Fill(mid, log[..k]) == Fill(p, log[..k]);
      }
    }
  }

  /** The fill of the ring is what the log of a drain says. */
  lemma DrainFills(p: Path, q: Path)
    requires ReadDrainEffect(p, q)
    ensures |q.ring| == Fill(p, q.log)
  {
    hide Past;
    var was, now := Past(p.log), Past(q.log);
    assert |now.consumed + q.ring| == |was.consumed + p.ring|;
  }

  /**
   In the write drain, the reads it serves in between included, every request moves as many bytes
   as it can at its turn: a read all that is asked for and unread, a write all that finds room.
   */
  lemma {:induction false} DrainsMoveAll(p: Path)
    requires Pending(p) && ReadersWaitOnEmpty(p)
    ensures AllMoved(p, DrainWrites(p).log)
    decreases |p.writeQueue|
  {
    hide Past, Held, EventOk, ReadDrainEffect;
    if |p.ring| < p.cap && p.writeQueue != [] {
      var r, n := p.writeQueue[0], Min(|p.writeQueue[0].data|, p.cap - |p.ring|);
      var e := Completed(r, Success, r.data[..n]);
      var one := Note(p.(writeQueue := p.writeQueue[1..], ring := p.ring + r.data[..n]), r, Success, r.data[..n]);
      assert r in p.writeQueue;
      Snoc(p.log, e);
      AdmitOne(p, one, n);
      DrainReadsEffect(one);
      var mid := DrainReads(one);
      DrainedIsPending(one, mid);
      ReadsMoveAll(one);
      DrainFills(one, mid);
      DrainsMoveAll(mid);
      DrainWritesExtends(mid);
      StretchThenRest(one, mid, DrainWrites(mid).log);
      FirstThenRest(p, one, e, DrainWrites(mid).log);
    }
  }
}
