/** What every step of a data path keeps, and what therefore holds over whole runs. */
module DataPathRuns {
  import opened Prelude
  import opened DataPath

  /* ------------------------------------------------------- arrivals keep Inv */

  lemma NoteKeepsPending(q: Path, req: Request, status: NtStatus, bytes: seq<byte>)
    requires Pending(q) && EventOk(Completed(req, status, bytes))
    ensures Pending(Note(q, req, status, bytes))
  {
    hide Past;
    forall e | e in q.log + [Completed(req, status, bytes)]
      ensures EventOk(e)
    {
      assert e in q.log || e == Completed(req, status, bytes);
    }
  }

  /** A new request is completed in the state q its handler left, and joins the arrivals. */
  lemma Finish(q: Path, req: Request, status: NtStatus, bytes: seq<byte>, t: Path)
    requires Pending(q) && Held(q) == multiset(q.arrived) && Numbered(q.arrived)
    requires req.id == |q.arrived| && EventOk(Completed(req, status, bytes))
    requires t == Note(q, req, status, bytes).(arrived := q.arrived + [req])
    ensures Pending(t) && Held(t) == multiset(t.arrived) && Numbered(t.arrived)
    ensures Past(t.log) == Extend(Past(q.log), Completed(req, status, bytes))
  {
    hide Past, EventOk;
    Snoc(q.log, Completed(req, status, bytes));
    NoteKeepsPending(q, req, status, bytes);
  }

  /** A request completed with no bytes changes nothing but the list of finished requests. */
  lemma FinishEmpty(p: Path, req: Request, status: NtStatus, t: Path)
    requires Inv(p) && req.id == |p.arrived| && EventOk(Completed(req, status, []))
    requires t == Note(p, req, status, []).(arrived := p.arrived + [req])
    ensures Inv(t)
  {
    hide Past;
    Finish(p, req, status, [], t);
  }

  lemma ReadTakes(p: Path, req: Request, n: nat, q: Path, t: Path)
    requires Inv(p) && req.Read? && req.id == |p.arrived| && n == Min(req.len, |p.ring|) && n > 0
    requires q == DrainWrites(p.(ring := p.ring[n..]))
    requires t == Note(q, req, Success, p.ring[..n]).(arrived := p.arrived + [req])
    ensures Inv(t) && WritersWaitOnFull(t)
  {
    hide Past;
    var was, p' := Past(p.log), p.(ring := p.ring[n..]);
    var ins := DrainWritesEffect(p');
    Finish(q, req, Success, p.ring[..n], t);
    Split(p.ring, n);
    Assoc(was.consumed, p.ring[..n], p.ring[n..]);
    Assoc(was.consumed + p.ring[..n], p.ring[n..], ins);
  }

  lemma ReadPends(p: Path, req: Request, t: Path)
    requires Inv(p) && p.active && req.Read? && req.len > 0 && p.ring == [] && req.id == |p.arrived|
    requires t == p.(readQueue := p.readQueue + [req], arrived := p.arrived + [req])
    ensures Inv(t)
  {
    hide Past;
  }

  lemma ReadArrives(p: Path, req: Request, nonBlocking: bool, forwards: bool)
    requires Inv(p) && req.Read? && req.id == |p.arrived|
    ensures var t := Apply(p, Arrive(req, nonBlocking, forwards));
            Inv(t) && (WritersWaitOnFull(p) ==> WritersWaitOnFull(t))
  {
    hide Past;
    var t, n := Apply(p, Arrive(req, nonBlocking, forwards)), Min(req.len, |p.ring|);
    if !p.active {
      FinishEmpty(p, req, DeviceNotConnected, t);
    } else if req.len == 0 {
      FinishEmpty(p, req, BufferTooSmall, t);
    } else if n > 0 {
      ReadTakes(p, req, n, DrainWrites(p.(ring := p.ring[n..])), t);
    } else if nonBlocking {
      FinishEmpty(p, req, Success, t);
    } else if forwards {
      ReadPends(p, req, t);
    } else {
      FinishEmpty(p, req, ForwardFailed, t);
    }
  }

  /** bytes of a new request enter the ring, pended reads are served, the request completes. */
  lemma BytesEnter(p: Path, req: Request, bytes: seq<byte>, q: Path, t: Path)
    requires Inv(p) && !req.Read? && |p.ring| + |bytes| <= p.cap && req.id == |p.arrived|
    requires EventOk(Completed(req, Success, bytes))
    requires q == DrainReads(p.(ring := p.ring + bytes))
    requires t == Note(q, req, Success, bytes).(arrived := p.arrived + [req])
    ensures Inv(t)
    ensures bytes == [] ==> q == p
  {
    hide Past;
    var p' := p.(ring := p.ring + bytes);
    assert bytes == [] ==> p' == p;
    assert Pending(p') && Held(p') == Held(p);
    DrainReadsEffect(p');
    Finish(q, req, Success, bytes, t);
    Assoc(Past(p.log).consumed, p.ring, bytes);
  }

  lemma WritePends(p: Path, req: Request, t: Path)
    requires Inv(p) && p.active && req.Write? && req.data != [] && req.id == |p.arrived|
    requires t == p.(writeQueue := p.writeQueue + [req], arrived := p.arrived + [req])
    ensures Inv(t)
  {
    hide Past;
  }

  lemma WriteArrives(p: Path, req: Request, nonBlocking: bool, forwards: bool)
    requires Inv(p) && !req.Read? && req.id == |p.arrived|
    ensures var t := Apply(p, Arrive(req, nonBlocking, forwards));
            Inv(t) && (WritersWaitOnFull(p) ==> WritersWaitOnFull(t))
  {
    hide Past;
    var t := Apply(p, Arrive(req, nonBlocking, forwards));
    if !p.active {
      FinishEmpty(p, req, DeviceNotConnected, t);
    } else if req.Write? {
      var n := Min(|req.data|, Room(p));
      if req.data == [] {
        FinishEmpty(p, req, BufferTooSmall, t);
      } else if n > 0 {
        BytesEnter(p, req, req.data[..n], DrainReads(p.(ring := p.ring + req.data[..n])), t);
      } else if forwards {
        WritePends(p, req, t);
      } else {
        FinishEmpty(p, req, ForwardFailed, t);
      }
    } else {
      var n := Min(1, Room(p));
      if req.chars == [] {
        FinishEmpty(p, req, BufferTooSmall, t);
      } else {
        BytesEnter(p, req, req.chars[..n], DrainReads(p.(ring := p.ring + req.chars[..n])), t);
      }
    }
  }

  /* ----------------------------------------------- cancellation and clearing */

  lemma {:induction false} CancelAllPast(log: seq<Event>, reqs: seq<Request>)
    ensures Past(CancelAll(log, reqs)) == Past(log).(finished := Past(log).finished + reqs)
    decreases |reqs|
  {
    if reqs == [] {
      assert Past(log).finished + reqs == Past(log).finished;
    } else {
      var e := Completed(reqs[0], Cancelled, []);
      Snoc(log, e);
      CancelAllPast(log + [e], reqs[1..]);
      Assoc(Past(log).finished, [reqs[0]], reqs[1..]);
      assert [reqs[0]] + reqs[1..] == reqs;
    }
  }

  lemma {:induction false} CancelAllOk(log: seq<Event>, reqs: seq<Request>)
    requires forall e | e in log :: EventOk(e)
    ensures forall e | e in CancelAll(log, reqs) :: EventOk(e)
    decreases |reqs|
  {
    if reqs != [] {
      var e := Completed(reqs[0], Cancelled, []);
      var log' := log + [e];
      forall x | x in log'
        ensures EventOk(x)
      {
        assert x in log || x == e;
      }
      CancelAllOk(log', reqs[1..]);
    }
  }

  lemma PurgeReadsKeeps(p: Path)
    requires Inv(p)
    ensures Inv(PurgeReads(p))
  {
    hide Past;
    CancelAllPast(p.log, p.readQueue);
    CancelAllOk(p.log, p.readQueue);
  }

  lemma PurgeWritesKeeps(p: Path)
    requires Inv(p)
    ensures Inv(PurgeWrites(p))
  {
    hide Past;
    CancelAllPast(p.log, p.writeQueue);
    CancelAllOk(p.log, p.writeQueue);
  }

  lemma ClearKeeps(p: Path)
    requires Inv(p)
    ensures Inv(ClearRing(p))
  {
    hide Past;
    Snoc(p.log, Flushed(p.ring));
    forall e | e in ClearRing(p).log
      ensures EventOk(e)
    {
      assert e in p.log || e == Flushed(p.ring);
    }
  }

  lemma CancelReadKeeps(p: Path, i: nat)
    requires Inv(p) && i < |p.readQueue|
    ensures Inv(Apply(p, CancelRead(i)))
  {
    hide Past;
    WithoutElements(p.readQueue, i);
    Snoc(p.log, Completed(p.readQueue[i], Cancelled, []));
    NoteKeepsPending(p.(readQueue := Without(p.readQueue, i)), p.readQueue[i], Cancelled, []);
  }

  lemma CancelWriteKeeps(p: Path, i: nat)
    requires Inv(p) && i < |p.writeQueue|
    ensures Inv(Apply(p, CancelWrite(i)))
  {
    hide Past;
    WithoutElements(p.writeQueue, i);
    Snoc(p.log, Completed(p.writeQueue[i], Cancelled, []));
    NoteKeepsPending(p.(writeQueue := Without(p.writeQueue, i)), p.writeQueue[i], Cancelled, []);
  }

  lemma DeactivateKeeps(p: Path)
    requires Inv(p) && p.readQueue == [] && p.writeQueue == []
    ensures Inv(p.(active := false))
  {
    hide Past;
  }

  lemma DestroyKeeps(p: Path)
    requires Inv(p)
    ensures Inv(Apply(p, Destroy))
  {
    PurgeReadsKeeps(p);
    var p1 := PurgeReads(p);
    PurgeWritesKeeps(p1);
    ClearKeeps(PurgeWrites(p1));
    DeactivateKeeps(ClearRing(PurgeWrites(p1)));
  }

  /** A clear that leaves a write pended behind the flushed ring. */
  predicate StrandsWriters(p: Path, step: Step) {
    step.Clear? && p.active && p.writeQueue != [] && p.cap > 0
  }

  /** Every step keeps the invariant; every step that strands no writer keeps writers waiting only on a full ring. */
  lemma StepKeeps(p: Path, step: Step)
    requires Inv(p) && Enabled(p, step)
    ensures Inv(Apply(p, step))
    ensures WritersWaitOnFull(p) && !StrandsWriters(p, step) ==> WritersWaitOnFull(Apply(p, step))
  {
    match step
    case Arrive(req, nonBlocking, forwards) =>
      if req.Read? { ReadArrives(p, req, nonBlocking, forwards); }
      else { WriteArrives(p, req, nonBlocking, forwards); }
    case CancelRead(i) => CancelReadKeeps(p, i);
    case CancelWrite(i) => CancelWriteKeeps(p, i);
    case AbortReads => PurgeReadsKeeps(p);
    case AbortWrites => PurgeWritesKeeps(p);
    case Clear => ClearKeeps(p);
    case Destroy => DestroyKeeps(p);
  }

  /* ------------------------------------------------------------ arrival order */

  lemma OrderGrows(reqs: seq<Request>, next: nat)
    requires InOrder(reqs, next)
    ensures InOrder(reqs, next + 1)
  {
  }

  lemma OrderSnoc(reqs: seq<Request>, req: Request)
    requires InOrder(reqs, req.id)
    ensures InOrder(reqs + [req], req.id + 1)
  {
  }

  /** Leaving out the request at place k of a queue keeps the order. */
  lemma OrderWithout(front: seq<Request>, queue: seq<Request>, k: nat, next: nat)
    requires InOrder(front + queue, next) && k < |queue|
    ensures InOrder(front + Without(queue, k), next)
  {
    var all, less := front + queue, front + Without(queue, k);
    forall i | 0 <= i < |less|
      ensures less[i] == all[if i < |front| + k then i else i + 1]
    {
    }
  }

  lemma OrderFront(front: seq<Request>, queue: seq<Request>, next: nat)
    requires InOrder(front + queue, next)
    ensures InOrder(front + [], next)
  {
    forall i | 0 <= i < |front|
      ensures front[i] == (front + queue)[i]
    {
    }
  }

  lemma EmptyFinishOrder(p: Path, req: Request, status: NtStatus, t: Path)
    requires req.id == |p.arrived| && t == Note(p, req, status, []).(arrived := p.arrived + [req])
    ensures ReadOrder(p) ==> ReadOrder(t)
    ensures WriteOrder(p) ==> WriteOrder(t)
  {
    hide Past, InOrder;
    Snoc(p.log, Completed(req, status, []));
    if ReadOrder(p) { OrderGrows(Past(p.log).served + p.readQueue, req.id); }
    if WriteOrder(p) { OrderGrows(Past(p.log).entered + p.writeQueue, req.id); }
  }

  /** A new request took bytes from the ring; pended writes were drained; the request completed. */
  lemma TakeOrder(p: Path, req: Request, n: nat, q: Path, t: Path)
    requires Inv(p) && req.Read? && req.id == |p.arrived| && 0 < n <= |p.ring|
    requires q == DrainWrites(p.(ring := p.ring[n..]))
    requires t == Note(q, req, Success, p.ring[..n]).(arrived := p.arrived + [req])
    ensures (ReadOrder(p) ==> ReadOrder(t)) && (WriteOrder(p) ==> WriteOrder(t))
  {
    hide Past, InOrder, DrainWrites;
    var was := Past(p.log);
    var ins := DrainWritesEffect(p.(ring := p.ring[n..]));
    Snoc(q.log, Completed(req, Success, p.ring[..n]));
    if ReadOrder(p) {
      OrderSnoc(was.served + p.readQueue, req);
      assert Past(t.log).served + t.readQueue == was.served + p.readQueue + [req];
    }
    if WriteOrder(p) { OrderGrows(was.entered + p.writeQueue, req.id); }
  }

  lemma ReadPendOrder(p: Path, req: Request, t: Path)
    requires req.id == |p.arrived| && t == p.(readQueue := p.readQueue + [req], arrived := p.arrived + [req])
    ensures (ReadOrder(p) ==> ReadOrder(t)) && (WriteOrder(p) ==> WriteOrder(t))
  {
    hide Past, InOrder;
    var was := Past(p.log);
    if ReadOrder(p) {
      OrderSnoc(was.served + p.readQueue, req);
      Assoc(was.served, p.readQueue, [req]);
    }
    if WriteOrder(p) { OrderGrows(was.entered + p.writeQueue, req.id); }
  }

  lemma ReadArrivalOrder(p: Path, req: Request, nonBlocking: bool, forwards: bool)
    requires Inv(p) && req.Read? && req.id == |p.arrived|
    ensures var t := Apply(p, Arrive(req, nonBlocking, forwards));
            (ReadOrder(p) ==> ReadOrder(t)) && (WriteOrder(p) ==> WriteOrder(t))
  {
    hide Past, InOrder, DrainWrites;
    var t, n := Apply(p, Arrive(req, nonBlocking, forwards)), Min(req.len, |p.ring|);
    if !p.active || req.len == 0 || (n == 0 && (nonBlocking || !forwards)) {
      EmptyFinishOrder(p, req, t.log[|p.log|].status, t);
    } else if n == 0 {
      ReadPendOrder(p, req, t);
    } else {
      TakeOrder(p, req, n, DrainWrites(p.(ring := p.ring[n..])), t);
    }
  }

  /** bytes of a new request entered the ring; pended reads were served; the request completed. */
  lemma EnterOrder(p: Path, req: Request, bytes: seq<byte>, q: Path, t: Path)
    requires Inv(p) && !req.Read? && |p.ring| + |bytes| <= p.cap && req.id == |p.arrived| && bytes != []
    requires q == DrainReads(p.(ring := p.ring + bytes))
    requires t == Note(q, req, Success, bytes).(arrived := p.arrived + [req])
    ensures Past(t.log).entered + t.writeQueue == Past(p.log).entered + [req] + p.writeQueue
    ensures ReadOrder(p) ==> ReadOrder(t)
    ensures WriteOrder(p) && p.writeQueue == [] ==> WriteOrder(t)
  {
    hide Past, InOrder, DrainReads;
    var was := Past(p.log);
    DrainReadsEffect(p.(ring := p.ring + bytes));
    Snoc(q.log, Completed(req, Success, bytes));
    if ReadOrder(p) { OrderGrows(was.served + p.readQueue, req.id); }
    if WriteOrder(p) && p.writeQueue == [] {
      assert was.entered + p.writeQueue == was.entered;
      OrderSnoc(was.entered, req);
      assert was.entered + [req] + p.writeQueue == was.entered + [req];
    }
  }

  /** The bytes with which a new write or character enters the ring. */
  function EntersWith(p: Path, req: Request): seq<byte> {
    match req
    case Read(_, _) => []
    case Write(_, data) => if p.active then data[..Min(|data|, Room(p))] else []
    case Immediate(_, chars) => if p.active then chars[..Min(|chars|, Min(1, Room(p)))] else []
  }

  lemma WriteArrivalShape(p: Path, req: Request, nonBlocking: bool, forwards: bool)
    requires Inv(p) && !req.Read? && req.id == |p.arrived|
    ensures |p.ring| + |EntersWith(p, req)| <= p.cap
    ensures var t, bytes := Apply(p, Arrive(req, nonBlocking, forwards)), EntersWith(p, req);
            if bytes != [] then
              t == Note(DrainReads(p.(ring := p.ring + bytes)), req, Success, bytes).(arrived := p.arrived + [req])
            else
              || (|t.log| > |p.log| && t == Note(p, req, t.log[|p.log|].status, []).(arrived := p.arrived + [req]))
              || t == p.(writeQueue := p.writeQueue + [req], arrived := p.arrived + [req])
  {
    hide Held, Conserved, Numbered;
    if req.Immediate? {
      assert p.ring + [] == p.ring;
    }
  }

  lemma WriteArrivalOrder(p: Path, req: Request, nonBlocking: bool, forwards: bool)
    requires Inv(p) && !req.Read? && req.id == |p.arrived|
    ensures var t := Apply(p, Arrive(req, nonBlocking, forwards));
            && (ReadOrder(p) ==> ReadOrder(t))
            && (WriteOrder(p) && (p.writeQueue == [] || EntersWith(p, req) == []) ==> WriteOrder(t))
  {
    hide Inv, Apply, EntersWith, Past, InOrder, DrainReads;
    var t, bytes := Apply(p, Arrive(req, nonBlocking, forwards)), EntersWith(p, req);
    WriteArrivalShape(p, req, nonBlocking, forwards);
    if bytes != [] {
      EnterOrder(p, req, bytes, DrainReads(p.(ring := p.ring + bytes)), t);
    } else if t.writeQueue == p.writeQueue + [req] {
      PendOrder(p, req, t);
    } else {
      EmptyFinishOrder(p, req, t.log[|p.log|].status, t);
    }
  }

  /** A new request is pended behind the writes. */
  lemma PendOrder(p: Path, req: Request, t: Path)
    requires req.id == |p.arrived| && t == p.(writeQueue := p.writeQueue + [req], arrived := p.arrived + [req])
    ensures (ReadOrder(p) ==> ReadOrder(t)) && (WriteOrder(p) ==> WriteOrder(t))
  {
    hide Past, InOrder;
    var was := Past(p.log);
    if ReadOrder(p) { OrderGrows(was.served + p.readQueue, req.id); }
    if WriteOrder(p) {
      OrderSnoc(was.entered + p.writeQueue, req);
      Assoc(was.entered, p.writeQueue, [req]);
    }
  }

  /**
   A new writer keeps the arrival order exactly when none is pended before it or it finds no
   room: a pended write is overtaken by every later write or character that does find room.
   */
  lemma OvertakesIff(p: Path, req: Request, nonBlocking: bool, forwards: bool)
    requires Inv(p) && WriteOrder(p) && !req.Read? && req.id == |p.arrived|
    ensures WriteOrder(Apply(p, Arrive(req, nonBlocking, forwards)))
            <==> (p.writeQueue == [] || EntersWith(p, req) == [])
  {
    hide Inv, Apply, EntersWith, Past, DrainReads;
    WriteArrivalOrder(p, req, nonBlocking, forwards);
    var t, bytes, was := Apply(p, Arrive(req, nonBlocking, forwards)), EntersWith(p, req), Past(p.log);
    if p.writeQueue != [] && bytes != [] {
      WriteArrivalShape(p, req, nonBlocking, forwards);
      EnterOrder(p, req, bytes, DrainReads(p.(ring := p.ring + bytes)), t);
      var line, k := was.entered + [req] + p.writeQueue, |was.entered|;
      assert line[k] == req && line[k + 1] == p.writeQueue[0];
      assert (was.entered + p.writeQueue)[k] == p.writeQueue[0];
    }
  }

  /**
   An immediate character reports success on a live pair whether or not it enters, which it does
   exactly when the ring has room.
   */
  lemma ImmediateSucceedsAnyway(p: Path, req: Request, nonBlocking: bool, forwards: bool)
    requires Inv(p) && p.active && req.Immediate? && req.chars != []
    ensures var t := Apply(p, Arrive(req, nonBlocking, forwards));
            && t.log != [] && t.log[|t.log|-1].Completed? && t.log[|t.log|-1].req == req
            && t.log[|t.log|-1].status == Success
            && (t.log[|t.log|-1].bytes == req.chars[..1] <==> |p.ring| < p.cap)
            && (t.log[|t.log|-1].bytes == [] <==> |p.ring| == p.cap)
  {
    hide DrainReads;
    var bytes := req.chars[..Min(1, Room(p))];
    assert Apply(p, Arrive(req, nonBlocking, forwards)).log ==
           DrainReads(p.(ring := p.ring + bytes)).log + [Completed(req, Success, bytes)];
    assert bytes == req.chars[..1] || |bytes| == 0;
  }

  lemma QueueStepOrder(p: Path, step: Step)
    requires Inv(p) && Enabled(p, step) && !step.Arrive?
    ensures ReadOrder(p) ==> ReadOrder(Apply(p, step))
    ensures WriteOrder(p) ==> WriteOrder(Apply(p, step))
  {
    hide Past, InOrder;
    var was, next := Past(p.log), |p.arrived|;
    match step
    case CancelRead(i) =>
      Snoc(p.log, Completed(p.readQueue[i], Cancelled, []));
      if ReadOrder(p) { OrderWithout(was.served, p.readQueue, i, next); }
    case CancelWrite(i) =>
      Snoc(p.log, Completed(p.writeQueue[i], Cancelled, []));
      if WriteOrder(p) { OrderWithout(was.entered, p.writeQueue, i, next); }
    case AbortReads =>
      CancelAllPast(p.log, p.readQueue);
      if ReadOrder(p) { OrderFront(was.served, p.readQueue, next); }
    case AbortWrites =>
      CancelAllPast(p.log, p.writeQueue);
      if WriteOrder(p) { OrderFront(was.entered, p.writeQueue, next); }
    case Clear =>
      Snoc(p.log, Flushed(p.ring));
    case Destroy =>
      var log1 := CancelAll(p.log, p.readQueue);
      CancelAllPast(p.log, p.readQueue);
      CancelAllPast(log1, p.writeQueue);
      Snoc(CancelAll(log1, p.writeQueue), Flushed(p.ring));
      if ReadOrder(p) { OrderFront(was.served, p.readQueue, next); }
      if WriteOrder(p) { OrderFront(was.entered, p.writeQueue, next); }
  }

  /** Reads are always served in arrival order; writes too, as long as writers wait only on a full ring. */
  lemma StepKeepsOrder(p: Path, step: Step)
    requires Inv(p) && Enabled(p, step)
    ensures ReadOrder(p) ==> ReadOrder(Apply(p, step))
    ensures WritersWaitOnFull(p) && WriteOrder(p) ==> WriteOrder(Apply(p, step))
  {
    match step
    case Arrive(req, nonBlocking, forwards) =>
      if req.Read? { ReadArrivalOrder(p, req, nonBlocking, forwards); }
      else { WriteArrivalOrder(p, req, nonBlocking, forwards); }
    case _ => QueueStepOrder(p, step);
  }

  /* --------------------------------------------------------------- whole runs */

  ghost predicate StrandsNoWriters(p: Path, run: seq<Step>)
    decreases |run|
  {
    run == [] || (!StrandsWriters(p, run[0]) && StrandsNoWriters(Apply(p, run[0]), run[1..]))
  }

  lemma InitialOk(cap: nat)
    ensures Inv(Initial(cap)) && ReadOrder(Initial(cap)) && WriteOrder(Initial(cap)) && WritersWaitOnFull(Initial(cap))
  {
  }

  lemma {:induction false} InvRun(p: Path, run: seq<Step>)
    requires Inv(p) && Legal(p, run)
    ensures Inv(Exec(p, run))
    decreases |run|
  {
    if run != [] {
      StepKeeps(p, run[0]);
      InvRun(Apply(p, run[0]), run[1..]);
    }
  }

  lemma {:induction false} RunKeeps(p: Path, run: seq<Step>)
    requires Inv(p) && ReadOrder(p) && Legal(p, run)
    ensures Inv(Exec(p, run)) && ReadOrder(Exec(p, run))
    ensures WritersWaitOnFull(p) && WriteOrder(p) && StrandsNoWriters(p, run)
            ==> WritersWaitOnFull(Exec(p, run)) && WriteOrder(Exec(p, run))
    decreases |run|
  {
    if run != [] {
      StepKeeps(p, run[0]);
      StepKeepsOrder(p, run[0]);
      RunKeeps(Apply(p, run[0]), run[1..]);
    }
  }

  /**
   The pending-queue theorem: in every run whose clears strand no writer, a reader waits only
   on an empty ring and a writer only on a full one, so they never wait for each other; and
   both queues are served in the order of arrival.
   */
  lemma NeverBothStuck(cap: nat, run: seq<Step>)
    requires Legal(Initial(cap), run) && StrandsNoWriters(Initial(cap), run)
    ensures var t := Exec(Initial(cap), run);
            && ReadersWaitOnEmpty(t) && WritersWaitOnFull(t)
            && (cap >= 1 ==> t.readQueue == [] || t.writeQueue == [])
            && ReadOrder(t) && WriteOrder(t)
  {
    hide Inv, Exec, Legal, StrandsNoWriters, ReadOrder, WriteOrder;
    InitialOk(cap);
    RunKeeps(Initial(cap), run);
    CapNeverChanges(Initial(cap), run);
  }

  lemma {:induction false} CapNeverChanges(p: Path, run: seq<Step>)
    requires Inv(p) && Legal(p, run)
    ensures Exec(p, run).cap == p.cap
    decreases |run|
  {
    if run != [] {
      StepKeepsCap(p, run[0]);
      StepKeeps(p, run[0]);
      CapNeverChanges(Apply(p, run[0]), run[1..]);
    }
  }

  lemma StepKeepsCap(p: Path, step: Step)
    requires Inv(p) && Enabled(p, step)
    ensures Apply(p, step).cap == p.cap
  {
    hide Past, Held;
    if step.Arrive? {
      if step.req.Read? {
        var n := Min(step.req.len, |p.ring|);
        var ins := DrainWritesEffect(p.(ring := p.ring[n..]));
      } else {
        WriteArrivalShape(p, step.req, step.nonBlocking, step.forwards);
        var bytes := EntersWith(p, step.req);
        DrainReadsEffect(p.(ring := p.ring + bytes));
      }
    }
  }

  /**
   Conservation over every run, clears included: what was accepted is what was consumed and
   then what is still in the ring: the segments that reads and flushes took, one after another,
   are the accepted bytes cut up in order; each consumed byte went to one read or one flush.
   */
  lemma BytesAreConserved(cap: nat, run: seq<Step>)
    requires Legal(Initial(cap), run)
    ensures var t := Exec(Initial(cap), run);
            && Past(t.log).accepted == Past(t.log).consumed + t.ring
            && Past(t.log).accepted == Concat(Segments(t.log)) + t.ring
            && multiset(Past(t.log).consumed) == multiset(Past(t.log).delivered) + multiset(Discarded(t.log))
            && ((forall e | e in t.log :: e.Completed?) ==> Past(t.log).delivered == Past(t.log).consumed)
  {
    RunKeeps(Initial(cap), run);
    var t := Exec(Initial(cap), run);
    DeliveredOrDiscarded(t.log);
    ConsumedInSegments(t.log);
    if forall e | e in t.log :: e.Completed? {
      NoFlushNoLoss(t.log);
    }
  }

  /** What each read and each flush of a log took, in order. */
  function Segments(log: seq<Event>): seq<seq<byte>> {
    if log == [] then []
    else
      var last := log[|log|-1];
      Segments(log[..|log|-1]) + (if last.Flushed? || last.req.Read? then [last.bytes] else [])
  }

  lemma {:induction false} ConsumedInSegments(log: seq<Event>)
    ensures Concat(Segments(log)) == Past(log).consumed
  {
    if log != [] {
      var init, last := log[..|log|-1], log[|log|-1];
      ConsumedInSegments(init);
      ConcatSnoc(Segments(init), last.bytes);
      assert Segments(init) + [] == Segments(init);
    }
  }

  /** The bytes the flushes of a log discarded. */
  function Discarded(log: seq<Event>): seq<byte> {
    if log == [] then []
    else
      var last := log[|log|-1];
      Discarded(log[..|log|-1]) + (if last.Flushed? then last.bytes else [])
  }

  lemma {:induction false} DeliveredOrDiscarded(log: seq<Event>)
    ensures multiset(Past(log).consumed) == multiset(Past(log).delivered) + multiset(Discarded(log))
  {
    if log != [] {
      var init, last := log[..|log|-1], log[|log|-1];
      DeliveredOrDiscarded(init);
      var h := Past(init);
      assert multiset(h.consumed + last.bytes) == multiset(h.consumed) + multiset(last.bytes);
      assert multiset(h.delivered + last.bytes) == multiset(h.delivered) + multiset(last.bytes);
      assert multiset(Discarded(init) + last.bytes) == multiset(Discarded(init)) + multiset(last.bytes);
      assert Discarded(init) + [] == Discarded(init);
    }
  }

  lemma {:induction false} NoFlushNoLoss(log: seq<Event>)
    requires forall e | e in log :: e.Completed?
    ensures Past(log).delivered == Past(log).consumed
  {
    if log != [] {
      NoFlushNoLoss(log[..|log|-1]);
    }
  }

  /**
   Exactly once: in every run each arrived request is in one queue or completed once, unchanged;
   no other request is anywhere.
   */
  lemma ExactlyOnce(cap: nat, run: seq<Step>, req: Request)
    requires Legal(Initial(cap), run)
    ensures var t := Exec(Initial(cap), run);
            multiset(t.readQueue)[req] + multiset(t.writeQueue)[req] + multiset(Past(t.log).finished)[req]
            == (if req in t.arrived then 1 else 0)
  {
    RunKeeps(Initial(cap), run);
    var t := Exec(Initial(cap), run);
    assert Held(t)[req] == multiset(t.arrived)[req];
    NumberedOnce(t.arrived, req);
  }

  lemma {:induction false} NumberedOnce(reqs: seq<Request>, req: Request)
    requires Numbered(reqs)
    ensures multiset(reqs)[req] == (if req in reqs then 1 else 0)
  {
    if reqs != [] {
      var front, last := reqs[..|reqs|-1], reqs[|reqs|-1];
      assert reqs == front + [last];
      NumberedOnce(front, req);
    }
  }

  /** After destroy nothing is pended: every request that ever arrived has completed, exactly once. */
  lemma DestroyCompletesAll(cap: nat, run: seq<Step>, req: Request)
    requires Legal(Initial(cap), run + [Destroy])
    ensures Legal(Initial(cap), run)
    ensures var t := Apply(Exec(Initial(cap), run), Destroy);
            req in t.arrived ==> multiset(Past(t.log).finished)[req] == 1
  {
    LegalSnoc(Initial(cap), run, Destroy);
    RunKeeps(Initial(cap), run);
    DestroyFinishes(Exec(Initial(cap), run), req);
  }

  lemma DestroyFinishes(p: Path, req: Request)
    requires Inv(p)
    ensures var t := Apply(p, Destroy); req in t.arrived ==> multiset(Past(t.log).finished)[req] == 1
  {
    DestroyKeeps(p);
    var t := Apply(p, Destroy);
    assert Held(t)[req] == multiset(t.arrived)[req];
    assert Held(t) == multiset(Past(t.log).finished);
    NumberedOnce(t.arrived, req);
  }

  lemma {:induction false} LegalSnoc(p: Path, run: seq<Step>, step: Step)
    requires Legal(p, run + [step])
    ensures Legal(p, run)
    decreases |run|
  {
    if run != [] {
      assert (run + [step])[0] == run[0] && (run + [step])[1..] == run[1..] + [step];
      LegalSnoc(Apply(p, run[0]), run[1..], step);
    }
  }

  /** Every event of every run is well formed; in particular each successful write made progress within its own data. */
  lemma EventsAreWellFormed(cap: nat, run: seq<Step>, e: Event)
    requires Legal(Initial(cap), run) && e in Exec(Initial(cap), run).log
    ensures EventOk(e)
    ensures e.Completed? && e.req.Write? && e.status == Success ==> 1 <= |e.bytes| <= |e.req.data|
  {
    RunKeeps(Initial(cap), run);
  }

  lemma InactiveStep(p: Path, step: Step)
    requires Inv(p) && Enabled(p, step) && (step.Destroy? || !p.active)
    ensures !Apply(p, step).active && Past(Apply(p, step).log).delivered == Past(p.log).delivered
  {
    hide Past;
    match step
    case Arrive(req, _, _) =>
      Snoc(p.log, Completed(req, DeviceNotConnected, []));
    case Destroy =>
      var log1 := CancelAll(p.log, p.readQueue);
      CancelAllPast(p.log, p.readQueue);
      CancelAllPast(log1, p.writeQueue);
      Snoc(CancelAll(log1, p.writeQueue), Flushed(p.ring));
    case _ =>
  }

  lemma {:induction false} InactiveRun(p: Path, run: seq<Step>)
    requires Inv(p) && !p.active && Legal(p, run)
    ensures !Exec(p, run).active && Past(Exec(p, run).log).delivered == Past(p.log).delivered
    decreases |run|
  {
    if run != [] {
      StepKeeps(p, run[0]);
      InactiveStep(p, run[0]);
      InactiveRun(Apply(p, run[0]), run[1..]);
    }
  }

  /** Destroy delivers nothing, and neither does anything that happens after it. */
  lemma NothingIsDeliveredAfterDestroy(cap: nat, before: seq<Step>, after: seq<Step>)
    requires Legal(Initial(cap), before) && Legal(Apply(Exec(Initial(cap), before), Destroy), after)
    ensures var p := Exec(Initial(cap), before);
            Past(Exec(Apply(p, Destroy), after).log).delivered == Past(p.log).delivered
  {
    var p := Exec(Initial(cap), before);
    RunKeeps(Initial(cap), before);
    StepKeeps(p, Destroy);
    InactiveStep(p, Destroy);
    InactiveRun(Apply(p, Destroy), after);
  }

  /* ------------------------------------------------------- the history only grows */

  lemma {:induction false} DrainReadsExtends(p: Path)
    ensures p.log <= DrainReads(p).log && DrainReads(p).arrived == p.arrived
    decreases |p.readQueue|
  {
    if p.ring != [] && p.readQueue != [] {
      var r, rest := p.readQueue[0], p.(readQueue := p.readQueue[1..]);
      if !r.Read? || r.len == 0 {
        DrainReadsExtends(Note(rest, r, BufferTooSmall, []));
      } else {
        var n := Min(r.len, |p.ring|);
        DrainReadsExtends(Note(rest.(ring := p.ring[n..]), r, Success, p.ring[..n]));
      }
    }
  }

  lemma {:induction false} DrainWritesExtends(p: Path)
    ensures p.log <= DrainWrites(p).log && DrainWrites(p).arrived == p.arrived
    decreases |p.writeQueue|
  {
    if |p.ring| < p.cap && p.writeQueue != [] {
      var r, rest := p.writeQueue[0], p.(writeQueue := p.writeQueue[1..]);
      if !r.Write? || r.data == [] {
        DrainWritesExtends(Note(rest, r, BufferTooSmall, []));
      } else {
        var n := Min(|r.data|, p.cap - |p.ring|);
        var one := Note(rest.(ring := p.ring + r.data[..n]), r, Success, r.data[..n]);
        DrainReadsExtends(one);
        DrainWritesExtends(DrainReads(one));
      }
    }
  }

  lemma {:induction false} CancelAllExtends(log: seq<Event>, reqs: seq<Request>)
    ensures log <= CancelAll(log, reqs)
    decreases |reqs|
  {
    if reqs != [] {
      CancelAllExtends(log + [Completed(reqs[0], Cancelled, [])], reqs[1..]);
    }
  }

  lemma ArrivalExtends(p: Path, req: Request, nonBlocking: bool, forwards: bool)
    ensures p.log <= Evt(p, req, nonBlocking, forwards).log
  {
    hide DrainReads, DrainWrites;
    match req
    case Read(_, len) =>
      DrainWritesExtends(p.(ring := p.ring[Min(len, |p.ring|)..]));
    case Write(_, data) =>
      DrainReadsExtends(p.(ring := p.ring + data[..Min(|data|, Room(p))]));
    case Immediate(_, chars) =>
      DrainReadsExtends(p.(ring := p.ring + chars[..Min(|chars|, Min(1, Room(p)))]));
  }

  lemma StepExtends(p: Path, step: Step)
    ensures p.log <= Apply(p, step).log && p.arrived <= Apply(p, step).arrived
  {
    hide CancelAll, Evt;
    CancelAllExtends(p.log, p.readQueue);
    CancelAllExtends(p.log, p.writeQueue);
    CancelAllExtends(CancelAll(p.log, p.readQueue), p.writeQueue);
    if step.Arrive? {
      ArrivalExtends(p, step.req, step.nonBlocking, step.forwards);
    }
  }

  lemma {:induction false} RunExtends(p: Path, run: seq<Step>)
    ensures p.log <= Exec(p, run).log && p.arrived <= Exec(p, run).arrived
    decreases |run|
  {
    if run != [] {
      StepExtends(p, run[0]);
      RunExtends(Apply(p, run[0]), run[1..]);
    }
  }

  lemma {:induction false} FinishedGrows(older: seq<Event>, newer: seq<Event>)
    requires older <= newer
    ensures Past(older).finished <= Past(newer).finished
  {
    if |older| < |newer| {
      var init, last := newer[..|newer|-1], newer[|newer|-1];
      FinishedGrows(older, init);
      assert newer == init + [last];
      Snoc(init, last);
    } else {
      assert older == newer;
    }
  }

  /** A write that arrived is pended or finished, and not both. */
  lemma PendedOrFinished(p: Path, req: Request)
    requires Inv(p) && req.Write?
    ensures req in p.arrived <==> req in p.writeQueue || req in Past(p.log).finished
    ensures !(req in p.writeQueue && req in Past(p.log).finished)
  {
    assert req !in p.readQueue;
    assert Held(p)[req] == multiset(p.arrived)[req];
    NumberedOnce(p.arrived, req);
  }

  /** From an empty write queue on: it is empty again exactly when every write that arrived since has completed. */
  lemma NoWritePendsIff(p: Path, run: seq<Step>)
    requires Inv(p) && Legal(p, run) && p.writeQueue == []
    ensures var t := Exec(p, run);
            && |p.arrived| <= |t.arrived|
            && (t.writeQueue == [] <==>
                forall r | r in t.arrived[|p.arrived|..] && r.Write? :: r in Past(t.log).finished)
  {
    hide Held, Past, Legal, Exec, Conserved, ReadersWaitOnEmpty;
    var t := Exec(p, run);
    InvRun(p, run);
    RunExtends(p, run);
    FinishedGrows(p.log, t.log);
    forall r | r in t.arrived[|p.arrived|..] && r.Write?
      ensures r in t.arrived && (t.writeQueue == [] ==> r in Past(t.log).finished)
    {
      PendedOrFinished(t, r);
    }
    if t.writeQueue != [] {
      var r := t.writeQueue[0];
      PendedOrFinished(t, r);
      PendedOrFinished(p, r);
      assert r in t.arrived && r !in Past(t.log).finished;
      assert r !in Past(p.log).finished;
      assert r !in p.arrived;
      LaterArrival(p.arrived, t.arrived, r);
    }
  }

  lemma LaterArrival(earlier: seq<Request>, later: seq<Request>, r: Request)
    requires earlier <= later && r in later && r !in earlier
    ensures r in later[|earlier|..]
  {
    var i :| 0 <= i < |later| && later[i] == r;
    assert i >= |earlier|;
    assert later[|earlier|..][i - |earlier|] == r;
  }

  /* ----------------------------------------------- what readers got, destroys included */

  /** While a path is active nothing was discarded; readers got a prefix of what left the ring. */
  ghost predicate DeliveredFirst(p: Path) {
    (p.active ==> Discarded(p.log) == []) && Past(p.log).delivered <= Past(p.log).consumed
  }

  lemma DiscardedSnoc(log: seq<Event>, e: Event)
    ensures Discarded(log + [e]) == Discarded(log) + (if e.Flushed? then e.bytes else [])
  {
    assert (log + [e])[..|log|] == log;
  }

  lemma {:induction false} DrainReadsDiscardNothing(p: Path)
    ensures Discarded(DrainReads(p).log) == Discarded(p.log) && DrainReads(p).active == p.active
    decreases |p.readQueue|
  {
    if p.ring != [] && p.readQueue != [] {
      hide Discarded;
      var r, rest := p.readQueue[0], p.(readQueue := p.readQueue[1..]);
      if !r.Read? || r.len == 0 {
        DiscardedSnoc(p.log, Completed(r, BufferTooSmall, []));
        DrainReadsDiscardNothing(Note(rest, r, BufferTooSmall, []));
      } else {
        var n := Min(r.len, |p.ring|);
        DiscardedSnoc(p.log, Completed(r, Success, p.ring[..n]));
        DrainReadsDiscardNothing(Note(rest.(ring := p.ring[n..]), r, Success, p.ring[..n]));
      }
    }
  }

  lemma {:induction false} DrainWritesDiscardNothing(p: Path)
    ensures Discarded(DrainWrites(p).log) == Discarded(p.log) && DrainWrites(p).active == p.active
    decreases |p.writeQueue|
  {
    if |p.ring| < p.cap && p.writeQueue != [] {
      hide Discarded, DrainReads;
      var r, rest := p.writeQueue[0], p.(writeQueue := p.writeQueue[1..]);
      if !r.Write? || r.data == [] {
        DiscardedSnoc(p.log, Completed(r, BufferTooSmall, []));
        DrainWritesDiscardNothing(Note(rest, r, BufferTooSmall, []));
      } else {
        var n := Min(|r.data|, p.cap - |p.ring|);
        var one := Note(rest.(ring := p.ring + r.data[..n]), r, Success, r.data[..n]);
        DiscardedSnoc(p.log, Completed(r, Success, r.data[..n]));
        DrainReadsDiscardNothing(one);
        DrainWritesDiscardNothing(DrainReads(one));
      }
    }
  }

  lemma {:induction false} CancelsDiscardNothing(log: seq<Event>, reqs: seq<Request>)
    ensures Discarded(CancelAll(log, reqs)) == Discarded(log)
    decreases |reqs|
  {
    if reqs != [] {
      DiscardedSnoc(log, Completed(reqs[0], Cancelled, []));
      CancelsDiscardNothing(log + [Completed(reqs[0], Cancelled, [])], reqs[1..]);
    }
  }

  lemma ArrivalDiscardsNothing(p: Path, req: Request, nonBlocking: bool, forwards: bool)
    ensures Discarded(Evt(p, req, nonBlocking, forwards).log) == Discarded(p.log)
    ensures Evt(p, req, nonBlocking, forwards).active == p.active
  {
    hide Discarded, DrainReads, DrainWrites;
    var t := Evt(p, req, nonBlocking, forwards);
    if |t.log| > 0 { DiscardedSnoc(t.log[..|t.log|-1], t.log[|t.log|-1]); }
    match req
    case Read(_, len) =>
      var q := p.(ring := p.ring[Min(len, |p.ring|)..]);
      DrainWritesDiscardNothing(q);
      EachLogEndsSo(p.log, t.log, DrainWrites(q).log);
    case Write(_, data) =>
      var q := p.(ring := p.ring + data[..Min(|data|, Room(p))]);
      DrainReadsDiscardNothing(q);
      EachLogEndsSo(p.log, t.log, DrainReads(q).log);
    case Immediate(_, chars) =>
      var q := p.(ring := p.ring + chars[..Min(|chars|, Min(1, Room(p)))]);
      DrainReadsDiscardNothing(q);
      EachLogEndsSo(p.log, t.log, DrainReads(q).log);
  }

  /** A log that is one of the two others, or one completion longer, discards no more than they do. */
  lemma EachLogEndsSo(a: seq<Event>, t: seq<Event>, b: seq<Event>)
    requires Discarded(b) == Discarded(a)
    ensures t != [] && t[|t|-1].Completed? && (t[..|t|-1] == a || t[..|t|-1] == b) ==> Discarded(t) == Discarded(a)
  {
  }

  /** A clear discards nothing if it finds nothing unread. */
  predicate ClearsNothing(p: Path, step: Step) {
    step.Clear? && p.active ==> p.ring == []
  }

  lemma DiscardsNothingStep(p: Path, step: Step)
    requires p.active && !step.Destroy? && ClearsNothing(p, step)
    ensures Apply(p, step).active && Discarded(Apply(p, step).log) == Discarded(p.log)
  {
    hide Discarded, Evt, CancelAll;
    match step
    case Arrive(req, nonBlocking, forwards) => ArrivalDiscardsNothing(p, req, nonBlocking, forwards);
    case CancelRead(i) => if i < |p.readQueue| { DiscardedSnoc(p.log, Completed(p.readQueue[i], Cancelled, [])); }
    case CancelWrite(i) => if i < |p.writeQueue| { DiscardedSnoc(p.log, Completed(p.writeQueue[i], Cancelled, [])); }
    case AbortReads => CancelsDiscardNothing(p.log, p.readQueue);
    case AbortWrites => CancelsDiscardNothing(p.log, p.writeQueue);
    case Clear => DiscardedSnoc(p.log, Flushed([]));
  }

  lemma {:induction false} NothingDiscardedAllDelivered(log: seq<Event>)
    requires Discarded(log) == []
    ensures Past(log).delivered == Past(log).consumed
  {
    if log != [] {
      NothingDiscardedAllDelivered(log[..|log|-1]);
    }
  }

  lemma {:induction false} ConsumedGrows(older: seq<Event>, newer: seq<Event>)
    requires older <= newer
    ensures Past(older).consumed <= Past(newer).consumed
  {
    if |older| < |newer| {
      var init, last := newer[..|newer|-1], newer[|newer|-1];
      ConsumedGrows(older, init);
      assert newer == init + [last];
      Snoc(init, last);
    } else {
      assert older == newer;
    }
  }

  lemma DeliveredFirstStep(p: Path, step: Step)
    requires Inv(p) && Enabled(p, step) && DeliveredFirst(p) && ClearsNothing(p, step)
    ensures DeliveredFirst(Apply(p, step))
  {
    hide Inv, Enabled, Apply, Discarded, Past;
    if p.active && !step.Destroy? {
      DiscardsNothingStep(p, step);
      NothingDiscardedAllDelivered(Apply(p, step).log);
    } else {
      InactiveStep(p, step);
      StepExtends(p, step);
      ConsumedGrows(p.log, Apply(p, step).log);
    }
  }

  ghost predicate NoClearDiscards(p: Path, run: seq<Step>)
    decreases |run|
  {
    run == [] || (ClearsNothing(p, run[0]) && NoClearDiscards(Apply(p, run[0]), run[1..]))
  }

  lemma {:induction false} DeliveredFirstRun(p: Path, run: seq<Step>)
    requires Inv(p) && Legal(p, run) && DeliveredFirst(p) && NoClearDiscards(p, run)
    ensures DeliveredFirst(Exec(p, run))
    decreases |run|
  {
    if run != [] {
      hide Inv, Apply, Enabled, DeliveredFirst, ClearsNothing;
      DeliveredFirstStep(p, run[0]);
      StepKeeps(p, run[0]);
      DeliveredFirstRun(Apply(p, run[0]), run[1..]);
    }
  }

  /**
   Over every run in which no clear discards bytes, destroys included, what readers got is a
   prefix of what was accepted.
   */
  lemma ReadersGetAPrefix(cap: nat, run: seq<Step>)
    requires Legal(Initial(cap), run) && NoClearDiscards(Initial(cap), run)
    ensures var t := Exec(Initial(cap), run); Past(t.log).delivered <= Past(t.log).accepted
  {
    InitialOk(cap);
    assert DeliveredFirst(Initial(cap));
    hide Inv, DeliveredFirst, Legal, Exec, NoClearDiscards;
    InvRun(Initial(cap), run);
    DeliveredFirstRun(Initial(cap), run);
    DeliveredIsPrefix(Exec(Initial(cap), run));
  }

  lemma DeliveredIsPrefix(p: Path)
    requires Inv(p) && DeliveredFirst(p)
    ensures Past(p.log).delivered <= Past(p.log).accepted
  {
    hide Past;
  }
}
