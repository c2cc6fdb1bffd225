/**
 The companion's writer on top of a data path: VirtualPortStream hands over one chunk at a
 time, do_write issues WriteFile until the whole chunk is taken, and any other step of the
 driver may happen in between.
 */
module EndToEnd {
  import opened Prelude
  import opened DataPath
  import opened DataPathRuns

  /** Failed keeps the request whose wait was given up, if one was outstanding. */
  datatype Writer =
    | Idle
    | Busy(chunk: seq<byte>, offset: nat)
    | Waiting(chunk: seq<byte>, offset: nat, req: Request)
    | Failed(chunk: seq<byte>, offset: nat, left: Option<Request>)

  /** sent lists the chunks whose callback reported success. */
  datatype System = System(path: Path, writer: Writer, sent: seq<seq<byte>>)

  datatype Move =
    | Submit(chunk: seq<byte>)
    | Issue(forwards: bool)
    | Observe
    | Finish
    | GiveUp
    | Other(step: Step)

  /** How the log completed a request. */
  function Find(log: seq<Event>, req: Request): (found: Option<Event>)
    ensures found.Some? ==> found.value.Completed? && found.value.req == req && found.value in log
  {
    if log == [] then None
    else
      var e := log[|log|-1];
      if e.Completed? && e.req == req then Some(e) else Find(log[..|log|-1], req)
  }

  /** Every step of the driver that is not a write or a character of this direction. */
  predicate ByOthers(step: Step) {
    step.Arrive? ==> step.req.Read?
  }

  ghost predicate Allowed(s: System, m: Move) {
    match m
    case Submit(_) => s.writer.Idle?
    case Issue(_) => s.writer.Busy? && s.writer.offset < |s.writer.chunk|
    case Observe => s.writer.Waiting? && Find(s.path.log, s.writer.req).Some?
    case Finish => s.writer.Busy? && s.writer.offset >= |s.writer.chunk|
    case GiveUp => s.writer.Busy? || s.writer.Waiting?
    case Other(step) => ByOthers(step) && Enabled(s.path, step)
  }

  function NextRequest(s: System): Request
    requires s.writer.Busy? && s.writer.offset < |s.writer.chunk|
  {
    Write(|s.path.arrived|, s.writer.chunk[s.writer.offset..])
  }

  ghost function Act(s: System, m: Move): System
    requires Allowed(s, m)
  {
    var w := s.writer;
    match m
    case Submit(chunk) => s.(writer := Busy(chunk, 0))
    case Issue(forwards) =>
      var req := NextRequest(s);
      s.(path := Apply(s.path, Arrive(req, false, forwards)), writer := Waiting(w.chunk, w.offset, req))
    case Observe =>
      var e := Find(s.path.log, w.req).value;
      if e.status != Success then s.(writer := Failed(w.chunk, w.offset, None))
      else s.(writer := Busy(w.chunk, w.offset + |e.bytes|))
    case Finish => s.(writer := Idle, sent := s.sent + [w.chunk])
    case GiveUp =>
      s.(writer := Failed(w.chunk, w.offset, if w.Waiting? then Some(w.req) else None))
    case Other(step) => s.(path := Apply(s.path, step))
  }

  ghost predicate Schedule(s: System, moves: seq<Move>)
    decreases |moves|
  {
    moves == [] || (Allowed(s, moves[0]) && Schedule(Act(s, moves[0]), moves[1..]))
  }

  ghost function Play(s: System, moves: seq<Move>): System
    requires Schedule(s, moves)
    decreases |moves|
  {
    if moves == [] then s else Play(Act(s, moves[0]), moves[1..])
  }

  /* ------------------------------------------------------------------ one request */

  lemma FindSnoc(log: seq<Event>, e: Event, req: Request)
    ensures Find(log + [e], req) == if e.Completed? && e.req == req then Some(e) else Find(log, req)
  {
    assert (log + [e])[..|log|] == log;
  }

  lemma {:induction false} FindThroughReads(p: Path, req: Request)
    requires Pending(p) && !req.Read?
    ensures Find(DrainReads(p).log, req) == Find(p.log, req)
    decreases |p.readQueue|
  {
    if p.ring != [] && p.readQueue != [] {
      var r, n := p.readQueue[0], Min(p.readQueue[0].len, |p.ring|);
      var one := Note(p.(readQueue := p.readQueue[1..], ring := p.ring[n..]), r, Success, p.ring[..n]);
      FindSnoc(p.log, Completed(r, Success, p.ring[..n]), req);
      ServeOne(p, one, n);
      FindThroughReads(one, req);
    }
  }

  lemma {:induction false} FindThroughCancels(log: seq<Event>, reqs: seq<Request>, req: Request)
    requires forall r | r in reqs :: r.Read?
    requires !req.Read?
    ensures Find(CancelAll(log, reqs), req) == Find(log, req)
    decreases |reqs|
  {
    if reqs != [] {
      FindSnoc(log, Completed(reqs[0], Cancelled, []), req);
      FindThroughCancels(log + [Completed(reqs[0], Cancelled, [])], reqs[1..], req);
    }
  }

  /** The bytes a request has put into the ring so far. */
  function Taken(log: seq<Event>, req: Request): seq<byte> {
    match Find(log, req)
    case None => []
    case Some(e) => e.bytes
  }

  /** req is the only write around: pended alone, or completed. */
  ghost predicate Sole(p: Path, req: Request) {
    && req.Write?
    && if p.writeQueue == [] then Find(p.log, req).Some? else p.writeQueue == [req] && Find(p.log, req) == None
  }

  /** Without pended writes, a step of others neither accepts bytes nor completes writes. */
  lemma QuietStep(p: Path, step: Step, req: Request)
    requires Inv(p) && Enabled(p, step) && ByOthers(step) && p.writeQueue == [] && !req.Read?
    ensures Apply(p, step).writeQueue == [] && Quiet(p.log, Apply(p, step).log, req)
  {
    hide Find, Past, Quiet;
    var t := Apply(p, step);
    match step
    case Arrive(r, nonBlocking, forwards) => QuietRead(p, r, nonBlocking, forwards, req);
    case CancelRead(i) => QuietEvent(p.log, Completed(p.readQueue[i], Cancelled, []), req);
    case CancelWrite(i) =>
    case AbortReads => QuietPurge(p, req);
    case AbortWrites => QuietNothing(p.log, req);
    case Clear =>
      QuietEvent(p.log, Flushed(p.ring), req);
      QuietNothing(p.log, req);
    case Destroy =>
      var log1 := CancelAll(p.log, p.readQueue);
      QuietPurge(p, req);
      QuietEvent(log1, Flushed(p.ring), req);
      QuietTwice(p.log, log1, t.log, req);
  }

  /** Between two logs nothing is accepted and nothing is said of req. */
  ghost predicate Quiet(older: seq<Event>, newer: seq<Event>, req: Request) {
    Past(newer).accepted == Past(older).accepted && Find(newer, req) == Find(older, req)
  }

  lemma QuietNothing(log: seq<Event>, req: Request)
    ensures Quiet(log, log, req)
  {
  }

  lemma QuietTwice(a: seq<Event>, b: seq<Event>, c: seq<Event>, req: Request)
    requires Quiet(a, b, req) && Quiet(b, c, req)
    ensures Quiet(a, c, req)
  {
  }

  lemma QuietEvent(log: seq<Event>, e: Event, req: Request)
    requires !req.Read? && (e.Completed? ==> e.req.Read?)
    ensures Quiet(log, log + [e], req)
  {
    Snoc(log, e);
    FindSnoc(log, e, req);
  }

  lemma QuietPurge(p: Path, req: Request)
    requires Pending(p) && !req.Read?
    ensures Quiet(p.log, CancelAll(p.log, p.readQueue), req)
    ensures Quiet(p.log, p.log, req)
  {
    CancelAllPast(p.log, p.readQueue);
    FindThroughCancels(p.log, p.readQueue, req);
  }

  lemma QuietRead(p: Path, r: Request, nonBlocking: bool, forwards: bool, req: Request)
    requires Inv(p) && r.Read? && p.writeQueue == [] && !req.Read?
    ensures var t := Apply(p, Arrive(r, nonBlocking, forwards)); t.writeQueue == [] && Quiet(p.log, t.log, req)
  {
    hide Find, Past, Quiet;
    var t := Apply(p, Arrive(r, nonBlocking, forwards));
    QuietNothing(p.log, req);
    if |t.log| > |p.log| { QuietEvent(p.log, t.log[|p.log|], req); }
  }

  /** Draining one pended write: it stays, or it completes with the bytes it put in. */
  lemma DrainSole(p: Path, req: Request)
    requires Pending(p) && ReadersWaitOnEmpty(p) && p.writeQueue == [req] && Find(p.log, req) == None
    ensures var q := DrainWrites(p);
            Sole(q, req) && Past(q.log).accepted == Past(p.log).accepted + Taken(q.log, req)
  {
    hide Past, Find, DrainReads, Held, EventOk;
    if |p.ring| < p.cap {
      var n := Min(|req.data|, p.cap - |p.ring|);
      var one := Note(p.(writeQueue := [], ring := p.ring + req.data[..n]), req, Success, req.data[..n]);
      assert p.writeQueue[1..] == [];
      AdmitOne(p, one, n);
      FindSnoc(p.log, Completed(req, Success, req.data[..n]), req);
      DrainReadsEffect(one);
      FindThroughReads(one, req);
      assert DrainWrites(p) == DrainReads(one);
    }
  }

  lemma SoleReadTakes(p: Path, r: Request, n: nat, req: Request, q: Path, t: Path)
    requires Inv(p) && p.writeQueue == [req] && Find(p.log, req) == None && !req.Read? && r.Read? && n <= |p.ring|
    requires ReadersWaitOnEmpty(p.(ring := p.ring[n..]))
    requires q == DrainWrites(p.(ring := p.ring[n..]))
    requires t == Note(q, r, Success, p.ring[..n]).(arrived := t.arrived)
    ensures Sole(t, req) && Past(t.log).accepted == Past(p.log).accepted + Taken(t.log, req)
  {
    hide Past, Find, Held, EventOk, DrainWrites;
    DrainSole(p.(ring := p.ring[n..]), req);
    Snoc(q.log, Completed(r, Success, p.ring[..n]));
    FindSnoc(q.log, Completed(r, Success, p.ring[..n]), req);
  }

  lemma SoleRead(p: Path, step: Step, req: Request)
    requires Inv(p) && Enabled(p, step) && ByOthers(step) && step.Arrive?
    requires p.writeQueue == [req] && Find(p.log, req) == None
    ensures var t := Apply(p, step);
            Sole(t, req) && Past(t.log).accepted == Past(p.log).accepted + Taken(t.log, req)
  {
    hide Past, Find, Held, EventOk;
    var t, n := Apply(p, step), Min(step.req.len, |p.ring|);
    if p.active && n > 0 {
      SoleReadTakes(p, step.req, n, req, DrainWrites(p.(ring := p.ring[n..])), t);
    } else if |t.log| > |p.log| {
      Snoc(p.log, t.log[|p.log|]);
      FindSnoc(p.log, t.log[|p.log|], req);
    }
  }

  /** What every step of this kind leaves: req still pended, or completed without bytes. */
  ghost predicate SoleAfter(p: Path, t: Path, req: Request) {
    Sole(t, req) && Past(t.log).accepted == Past(p.log).accepted + Taken(t.log, req)
  }

  /** req stays pended and nothing is accepted. */
  lemma StaysSole(p: Path, t: Path, req: Request)
    requires req.Write? && t.writeQueue == [req] && Find(t.log, req) == None
    requires Past(t.log).accepted == Past(p.log).accepted
    ensures SoleAfter(p, t, req)
  {
    hide Past;
    assert Past(p.log).accepted + [] == Past(p.log).accepted;
  }

  /** req was cancelled, and nothing is accepted. */
  lemma EndsCancelled(p: Path, t: Path, req: Request)
    requires req.Write? && t.writeQueue == [] && Find(t.log, req) == Some(Completed(req, Cancelled, []))
    requires Past(t.log).accepted == Past(p.log).accepted
    ensures SoleAfter(p, t, req)
  {
    hide Past;
    assert Past(p.log).accepted + [] == Past(p.log).accepted;
  }

  lemma CancelReadSole(p: Path, i: nat, req: Request)
    requires Inv(p) && i < |p.readQueue| && p.writeQueue == [req] && Find(p.log, req) == None
    ensures SoleAfter(p, Apply(p, CancelRead(i)), req)
  {
    hide Find, Past;
    var e := Completed(p.readQueue[i], Cancelled, []);
    assert req in p.writeQueue && p.readQueue[i] in p.readQueue;
    Snoc(p.log, e);
    FindSnoc(p.log, e, req);
    StaysSole(p, Apply(p, CancelRead(i)), req);
  }

  lemma CancelWriteSole(p: Path, i: nat, req: Request)
    requires Inv(p) && i < |p.writeQueue| && p.writeQueue == [req] && Find(p.log, req) == None
    ensures SoleAfter(p, Apply(p, CancelWrite(i)), req)
  {
    hide Find, Past;
    assert req in p.writeQueue;
    Snoc(p.log, Completed(req, Cancelled, []));
    FindSnoc(p.log, Completed(req, Cancelled, []), req);
    EndsCancelled(p, Apply(p, CancelWrite(i)), req);
  }

  lemma AbortReadsSole(p: Path, req: Request)
    requires Inv(p) && p.writeQueue == [req] && Find(p.log, req) == None
    ensures SoleAfter(p, Apply(p, AbortReads), req)
  {
    hide Find, Past;
    assert req in p.writeQueue;
    CancelAllPast(p.log, p.readQueue);
    FindThroughCancels(p.log, p.readQueue, req);
    StaysSole(p, Apply(p, AbortReads), req);
  }

  lemma AbortWritesSole(p: Path, req: Request)
    requires Inv(p) && p.writeQueue == [req] && Find(p.log, req) == None
    ensures SoleAfter(p, Apply(p, AbortWrites), req)
  {
    hide Find, Past;
    assert req in p.writeQueue;
    CancelOne(p.log, req);
    Snoc(p.log, Completed(req, Cancelled, []));
    FindSnoc(p.log, Completed(req, Cancelled, []), req);
    EndsCancelled(p, Apply(p, AbortWrites), req);
  }

  lemma ClearSole(p: Path, req: Request)
    requires Inv(p) && p.writeQueue == [req] && Find(p.log, req) == None
    ensures SoleAfter(p, Apply(p, Clear), req)
  {
    hide Find, Past;
    assert req in p.writeQueue;
    Snoc(p.log, Flushed(p.ring));
    FindSnoc(p.log, Flushed(p.ring), req);
    StaysSole(p, Apply(p, Clear), req);
  }

  lemma DestroySole(p: Path, req: Request)
    requires Inv(p) && p.writeQueue == [req] && Find(p.log, req) == None
    ensures SoleAfter(p, Apply(p, Destroy), req)
  {
    hide Find, Past;
    assert req in p.writeQueue;
    var log1, gone := CancelAll(p.log, p.readQueue), Completed(req, Cancelled, []);
    CancelAllPast(p.log, p.readQueue);
    CancelOne(log1, req);
    Snoc(log1, gone);
    FindSnoc(log1, gone, req);
    Snoc(log1 + [gone], Flushed(p.ring));
    FindSnoc(log1 + [gone], Flushed(p.ring), req);
    EndsCancelled(p, Apply(p, Destroy), req);
  }

  lemma SoleQueueStep(p: Path, step: Step, req: Request)
    requires Inv(p) && Enabled(p, step) && !step.Arrive?
    requires p.writeQueue == [req] && Find(p.log, req) == None
    ensures SoleAfter(p, Apply(p, step), req)
  {
    hide Inv, Apply, Find, SoleAfter;
    match step
    case CancelRead(i) => CancelReadSole(p, i, req);
    case CancelWrite(i) => CancelWriteSole(p, i, req);
    case AbortReads => AbortReadsSole(p, req);
    case AbortWrites => AbortWritesSole(p, req);
    case Clear => ClearSole(p, req);
    case Destroy => DestroySole(p, req);
  }

  lemma CancelOne(log: seq<Event>, req: Request)
    ensures CancelAll(log, [req]) == log + [Completed(req, Cancelled, [])]
  {
    assert [req][1..] == [];
    assert CancelAll(log + [Completed(req, Cancelled, [])], []) == log + [Completed(req, Cancelled, [])];
  }

  /** Whatever others do, the accepted bytes grow only by what the sole outstanding write puts in. */
  lemma OthersStep(p: Path, step: Step, req: Request, base: seq<byte>)
    requires Inv(p) && Enabled(p, step) && ByOthers(step) && Sole(p, req)
    requires Past(p.log).accepted == base + Taken(p.log, req)
    ensures var t := Apply(p, step);
            Inv(t) && Sole(t, req) && Past(t.log).accepted == base + Taken(t.log, req)
  {
    StepKeeps(p, step);
    if p.writeQueue == [] {
      QuietStep(p, step, req);
    } else {
      assert base + [] == base;
      if step.Arrive? { SoleRead(p, step, req); } else { SoleQueueStep(p, step, req); }
    }
  }

  /** A WriteFile issued with no write outstanding becomes the sole one, and what it puts in follows what was there. */
  lemma IssueStep(p: Path, req: Request, forwards: bool)
    requires Inv(p) && p.writeQueue == [] && req.Write? && req.data != [] && req.id == |p.arrived|
    ensures var t := Apply(p, Arrive(req, false, forwards));
            Inv(t) && Sole(t, req) && Past(t.log).accepted == Past(p.log).accepted + Taken(t.log, req)
  {
    hide Past, Find, DrainReads, Apply, EntersWith, Held, EventOk;
    var t, bytes := Apply(p, Arrive(req, false, forwards)), EntersWith(p, req);
    WriteArrives(p, req, false, forwards);
    WriteArrivalShape(p, req, false, forwards);
    NewIsUnseen(p, req);
    if bytes != [] {
      var q := DrainReads(p.(ring := p.ring + bytes));
      DrainReadsEffect(p.(ring := p.ring + bytes));
      Snoc(q.log, Completed(req, Success, bytes));
      FindSnoc(q.log, Completed(req, Success, bytes), req);
    } else if t.writeQueue != [] {
      assert t.writeQueue == [req];
    } else {
      Snoc(p.log, t.log[|p.log|]);
      FindSnoc(p.log, t.log[|p.log|], req);
    }
  }

  lemma NewIsUnseen(p: Path, req: Request)
    requires Inv(p) && req.id == |p.arrived|
    ensures Find(p.log, req) == None
  {
    assert req !in multiset(p.arrived);
    assert Held(p)[req] == 0;
    assert req !in multiset(Past(p.log).finished);
    if Find(p.log, req).Some? {
      FoundIsFinished(p.log, req);
    }
  }

  lemma {:induction false} FoundIsFinished(log: seq<Event>, req: Request)
    requires Find(log, req).Some?
    ensures req in Past(log).finished
  {
    var e := log[|log|-1];
    if !(e.Completed? && e.req == req) {
      FoundIsFinished(log[..|log|-1], req);
    }
  }

  /* ------------------------------------------------------------------ the writer */

  function Current(w: Writer): seq<byte> {
    if w.Idle? then [] else w.chunk
  }

  function Outstanding(w: Writer): Option<Request> {
    match w
    case Waiting(_, _, req) => Some(req)
    case Failed(_, _, left) => left
    case _ => None
  }

  /** The bytes of the current chunk that have entered the ring. */
  function Progress(s: System): seq<byte> {
    if s.writer.Idle? || s.writer.offset > |s.writer.chunk| then []
    else
      s.writer.chunk[..s.writer.offset] +
      match Outstanding(s.writer)
      case None => []
      case Some(req) => Taken(s.path.log, req)
  }

  ghost predicate SysInv(s: System) {
    && Inv(s.path)
    && (!s.writer.Idle? ==> s.writer.offset <= |s.writer.chunk|)
    && Past(s.path.log).accepted == Concat(s.sent) + Progress(s)
    && match Outstanding(s.writer)
       case None => s.path.writeQueue == []
       case Some(req) =>
         Sole(s.path, req) && s.writer.offset < |s.writer.chunk| && req.data == s.writer.chunk[s.writer.offset..]
  }

  lemma TakenIsPrefix(p: Path, req: Request)
    requires Inv(p) && req.Write?
    ensures IsPrefix(Taken(p.log, req), req.data)
  {
  }

  lemma ProgressIsPrefix(s: System)
    requires SysInv(s)
    ensures IsPrefix(Progress(s), Current(s.writer))
  {
    hide Past, Find, Inv;
    if Outstanding(s.writer).Some? {
      var req, o := Outstanding(s.writer).value, s.writer.offset;
      TakenIsPrefix(s.path, req);
      PrefixAfter(s.writer.chunk, o, Taken(s.path.log, req));
    }
  }

  lemma PrefixAfter(chunk: seq<byte>, o: nat, got: seq<byte>)
    requires o <= |chunk| && IsPrefix(got, chunk[o..])
    ensures o + |got| <= |chunk| && chunk[..o] + got == chunk[..o + |got|]
    ensures IsPrefix(chunk[..o] + got, chunk)
  {
    var x, y := chunk[..o] + got, chunk[..o + |got|];
    forall i | 0 <= i < |x|
      ensures x[i] == y[i]
    {
      assert i >= o ==> got[i - o] == chunk[o..][..|got|][i - o];
    }
  }

  lemma IssueKeeps(s: System, forwards: bool)
    requires SysInv(s) && Allowed(s, Issue(forwards))
    ensures SysInv(Act(s, Issue(forwards)))
  {
    hide Past, Find, Apply;
    var w, req := s.writer, NextRequest(s);
    IssueStep(s.path, req, forwards);
    var t := Act(s, Issue(forwards));
    assert w.chunk[..w.offset] + [] == w.chunk[..w.offset];
    Assoc(Concat(s.sent), w.chunk[..w.offset], Taken(t.path.log, req));
  }

  lemma ObserveKeeps(s: System)
    requires SysInv(s) && Allowed(s, Observe)
    ensures SysInv(Act(s, Observe))
  {
    hide Past, Find;
    var w := s.writer;
    var e := Find(s.path.log, w.req).value;
    TakenIsPrefix(s.path, w.req);
    assert w.chunk[..w.offset] + e.bytes == w.chunk[..w.offset + |e.bytes|];
    assert w.chunk[..w.offset + |e.bytes|] + [] == w.chunk[..w.offset + |e.bytes|];
  }

  lemma FinishKeeps(s: System)
    requires SysInv(s) && Allowed(s, Finish)
    ensures SysInv(Act(s, Finish))
  {
    ConcatSnoc(s.sent, s.writer.chunk);
    assert Progress(s) == s.writer.chunk;
    assert Concat(s.sent) + s.writer.chunk + [] == Concat(s.sent) + s.writer.chunk;
  }

  lemma OtherKeeps(s: System, step: Step)
    requires SysInv(s) && Allowed(s, Other(step))
    ensures SysInv(Act(s, Other(step)))
  {
    hide Inv, Past, Concat, Find, Sole, Apply;
    var w, t := s.writer, Act(s, Other(step));
    match Outstanding(w)
    case None =>
      StepKeeps(s.path, step);
      QuietStep(s.path, step, Write(0, []));
    case Some(req) =>
      Assoc(Concat(s.sent), w.chunk[..w.offset], Taken(s.path.log, req));
      OthersStep(s.path, step, req, Concat(s.sent) + w.chunk[..w.offset]);
      Assoc(Concat(s.sent), w.chunk[..w.offset], Taken(t.path.log, req));
  }

  lemma SubmitKeeps(s: System, chunk: seq<byte>)
    requires SysInv(s) && Allowed(s, Submit(chunk))
    ensures SysInv(Act(s, Submit(chunk)))
  {
    hide Inv, Past, Concat;
    assert chunk[..0] + [] == [];
  }

  lemma GiveUpKeeps(s: System)
    requires SysInv(s) && Allowed(s, GiveUp)
    ensures SysInv(Act(s, GiveUp))
  {
    hide Inv, Past, Concat, Find, Sole;
  }

  lemma MoveKeeps(s: System, m: Move)
    requires SysInv(s) && Allowed(s, m)
    ensures SysInv(Act(s, m))
  {
    hide Inv, Past, Concat, Progress, Find, Sole, Apply;
    match m
    case Submit(chunk) => SubmitKeeps(s, chunk);
    case Issue(forwards) => IssueKeeps(s, forwards);
    case Observe => ObserveKeeps(s);
    case Finish => FinishKeeps(s);
    case GiveUp => GiveUpKeeps(s);
    case Other(step) => OtherKeeps(s, step);
  }

  lemma {:induction false} PlayKeeps(s: System, moves: seq<Move>)
    requires SysInv(s) && Schedule(s, moves)
    ensures SysInv(Play(s, moves))
    decreases |moves|
  {
    if moves != [] {
      MoveKeeps(s, moves[0]);
      PlayKeeps(Act(s, moves[0]), moves[1..]);
    }
  }

  /** The writer failed on an answer: some write of what was left of its chunk ended without success. */
  ghost predicate FailedOnAnswer(s: System) {
    s.writer.Failed? ==>
      s.writer.offset <= |s.writer.chunk| &&
      exists e :: e in s.path.log && e.Completed? && e.req.Write? && e.status != Success
                  && e.req.data == s.writer.chunk[s.writer.offset..]
  }

  lemma MoveKeepsReason(s: System, m: Move)
    requires SysInv(s) && Allowed(s, m) && FailedOnAnswer(s) && !m.GiveUp?
    ensures FailedOnAnswer(Act(s, m))
  {
    hide Inv, Past, Concat, Apply;
    match m
    case Observe =>
      var e := Find(s.path.log, s.writer.req).value;
      assert e in s.path.log && e.req == s.writer.req && e.req.Write?;
    case Other(step) =>
      StepExtends(s.path, step);
      if s.writer.Failed? {
        var e :| e in s.path.log && e.Completed? && e.req.Write? && e.status != Success
                 && e.req.data == s.writer.chunk[s.writer.offset..];
        assert e in Apply(s.path, step).log;
      }
    case _ =>
  }

  lemma {:induction false} PlayKeepsReason(s: System, moves: seq<Move>)
    requires SysInv(s) && Schedule(s, moves) && FailedOnAnswer(s) && forall m | m in moves :: !m.GiveUp?
    ensures FailedOnAnswer(Play(s, moves))
    decreases |moves|
  {
    if moves != [] {
      hide SysInv, Allowed, Act, FailedOnAnswer;
      assert moves[0] in moves;
      MoveKeeps(s, moves[0]);
      MoveKeepsReason(s, moves[0]);
      PlayKeepsReason(Act(s, moves[0]), moves[1..]);
    }
  }

  function Start(cap: nat): System {
    System(Initial(cap), Idle, [])
  }

  /** The chunks handed over so far, in order. */
  function Submitted(s: System): seq<seq<byte>> {
    s.sent + (if s.writer.Idle? then [] else [s.writer.chunk])
  }

  /** What the invariant says of the bytes at any moment. */
  lemma InOrderNow(t: System)
    requires SysInv(t)
    ensures var h := Past(t.path.log);
            && IsPrefix(Concat(t.sent), h.accepted)
            && IsPrefix(h.accepted, Concat(Submitted(t)))
            && IsPrefix(h.consumed, Concat(Submitted(t)))
            && ((forall e | e in t.path.log :: e.Completed?) ==> IsPrefix(h.delivered, Concat(Submitted(t))))
  {
    hide Concat, Progress, Submitted, Held, Sole;
    ProgressIsPrefix(t);
    SubmittedBytes(t);
    if forall e | e in t.path.log :: e.Completed? {
      NoFlushNoLoss(t.path.log);
    }
  }

  /** No clear of the schedule finds unread bytes; destroys are allowed. */
  ghost predicate NoMoveDiscards(s: System, moves: seq<Move>)
    requires Schedule(s, moves)
    decreases |moves|
  {
    moves == [] ||
    ((moves[0].Other? ==> ClearsNothing(s.path, moves[0].step)) && NoMoveDiscards(Act(s, moves[0]), moves[1..]))
  }

  lemma MoveKeepsDelivered(s: System, m: Move)
    requires SysInv(s) && Allowed(s, m) && DeliveredFirst(s.path)
    requires m.Other? ==> ClearsNothing(s.path, m.step)
    ensures DeliveredFirst(Act(s, m).path)
  {
    hide Inv, DeliveredFirst, Apply, Sole, Find, Past, Concat, Progress;
    match m
    case Issue(forwards) => DeliveredFirstStep(s.path, Arrive(NextRequest(s), false, forwards));
    case Other(step) => DeliveredFirstStep(s.path, step);
    case _ =>
  }

  lemma {:induction false} PlayKeepsDelivered(s: System, moves: seq<Move>)
    requires SysInv(s) && Schedule(s, moves) && DeliveredFirst(s.path) && NoMoveDiscards(s, moves)
    ensures DeliveredFirst(Play(s, moves).path)
    decreases |moves|
  {
    if moves != [] {
      hide SysInv, DeliveredFirst, Act, Allowed, ClearsNothing;
      MoveKeeps(s, moves[0]);
      MoveKeepsDelivered(s, moves[0]);
      PlayKeepsDelivered(Act(s, moves[0]), moves[1..]);
    }
  }

  /**
   End to end: in every interleaving, every chunk whose callback succeeded was accepted whole
   and in order, followed by a part of the current chunk; and unless a clear discarded bytes,
   those that readers got are a prefix of the concatenated chunks, through any destroy.
   */
  lemma StreamIsDeliveredInOrder(cap: nat, moves: seq<Move>)
    requires Schedule(Start(cap), moves)
    ensures var t := Play(Start(cap), moves); var h := Past(t.path.log);
            && IsPrefix(Concat(t.sent), h.accepted)
            && IsPrefix(h.accepted, Concat(Submitted(t)))
            && IsPrefix(h.consumed, Concat(Submitted(t)))
            && (NoMoveDiscards(Start(cap), moves) ==> IsPrefix(h.delivered, Concat(Submitted(t))))
            && ((forall e | e in t.path.log :: e.Completed?) ==> IsPrefix(h.delivered, Concat(Submitted(t))))
  {
    PlayKeeps(Start(cap), moves);
    var t := Play(Start(cap), moves);
    InOrderNow(t);
    if NoMoveDiscards(Start(cap), moves) {
      PlayKeepsDelivered(Start(cap), moves);
      DeliveredInOrder(t);
    }
  }

  /** Unless its wait is given up, a writer fails only because a write of what was left ended without success. */
  lemma FailsOnlyOnFailure(cap: nat, moves: seq<Move>)
    requires Schedule(Start(cap), moves) && forall m | m in moves :: !m.GiveUp?
    ensures var t := Play(Start(cap), moves);
            t.writer.Failed? ==>
              && t.writer.offset <= |t.writer.chunk|
              && exists e :: e in t.path.log && e.Completed? && e.req.Write? && e.status != Success
                             && e.req.data == t.writer.chunk[t.writer.offset..]
  {
    InitialOk(cap);
    assert SysInv(Start(cap));
    PlayKeepsReason(Start(cap), moves);
  }

  lemma DeliveredInOrder(t: System)
    requires IsPrefix(Past(t.path.log).consumed, Concat(Submitted(t))) && DeliveredFirst(t.path)
    ensures IsPrefix(Past(t.path.log).delivered, Concat(Submitted(t)))
  {
    hide Past, Concat, Submitted;
  }

  predicate NeverClears(moves: seq<Move>) {
    forall m | m in moves :: m.Other? ==> !m.step.Clear?
  }

  lemma {:induction false} NeverClearsDiscardsNothing(s: System, moves: seq<Move>)
    requires Schedule(s, moves) && NeverClears(moves)
    ensures NoMoveDiscards(s, moves)
    decreases |moves|
  {
    if moves != [] {
      hide Act, Allowed;
      assert moves[0] in moves;
      NeverClearsDiscardsNothing(Act(s, moves[0]), moves[1..]);
    }
  }

  /** In particular without any clear, whatever reads, cancels, aborts and destroys happen. */
  lemma DeliveredWithoutClear(cap: nat, moves: seq<Move>)
    requires Schedule(Start(cap), moves) && NeverClears(moves)
    ensures var t := Play(Start(cap), moves); IsPrefix(Past(t.path.log).delivered, Concat(Submitted(t)))
  {
    NeverClearsDiscardsNothing(Start(cap), moves);
    StreamIsDeliveredInOrder(cap, moves);
  }

  lemma SubmittedBytes(s: System)
    ensures Concat(Submitted(s)) == Concat(s.sent) + Current(s.writer)
  {
    if s.writer.Idle? {
      assert Submitted(s) == s.sent;
    } else {
      ConcatSnoc(s.sent, s.writer.chunk);
    }
  }

  /** Each answered WriteFile advances the offset, by at most what was asked: do_write never retries on zero bytes. */
  lemma OffsetAdvances(cap: nat, moves: seq<Move>)
    requires Schedule(Start(cap), moves + [Observe])
    ensures Schedule(Start(cap), moves)
    ensures var t := Play(Start(cap), moves);
            && Allowed(t, Observe)
            && var u := Act(t, Observe);
               u.writer.Busy? ==> t.writer.offset < u.writer.offset <= |t.writer.chunk|
  {
    ScheduleSnoc(Start(cap), moves, Observe);
    PlayKeeps(Start(cap), moves);
    var t := Play(Start(cap), moves);
    TakenIsPrefix(t.path, t.writer.req);
  }

  lemma {:induction false} ScheduleSnoc(s: System, moves: seq<Move>, m: Move)
    requires Schedule(s, moves + [m])
    ensures Schedule(s, moves) && Allowed(Play(s, moves), m)
    decreases |moves|
  {
    assert (moves + [m])[0] == if moves == [] then m else moves[0];
    if moves != [] {
      assert (moves + [m])[1..] == moves[1..] + [m];
      ScheduleSnoc(Act(s, moves[0]), moves[1..], m);
    }
  }
}
