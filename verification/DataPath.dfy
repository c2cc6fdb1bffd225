/**
 One direction of a port pair: a ring, the reads pended because it was empty and the writes
 pended because it was full. Every handler runs under DataLock, so a handler is one step.
 The log lists completions and flushes; with the arrivals it is the history of the path.
 Requests are named by their place in the order of arrival.
 */
module DataPath {
  import opened Prelude

  datatype Request =
    | Read(id: nat, len: nat)
    | Write(id: nat, data: seq<byte>)
    | Immediate(id: nat, chars: seq<byte>)

  /** bytes is what the request moved into or out of the ring. */
  datatype Event =
    | Completed(req: Request, status: NtStatus, bytes: seq<byte>)
    | Flushed(bytes: seq<byte>)

  datatype Path = Path(cap: nat, active: bool, ring: seq<byte>, readQueue: seq<Request>, writeQueue: seq<Request>,
                       log: seq<Event>, arrived: seq<Request>)

  datatype Step =
    | Arrive(req: Request, nonBlocking: bool, forwards: bool)
    | CancelRead(i: nat)
    | CancelWrite(i: nat)
    | AbortReads
    | AbortWrites
    | Clear
    | Destroy

  /* ---------------------------------------------------------------- behaviour */

  function Note(p: Path, req: Request, status: NtStatus, bytes: seq<byte>): Path {
    p.(log := p.log + [Completed(req, status, bytes)])
  }

  /** GcomDrainRingToReads. */
  function DrainReads(p: Path): (q: Path)
    ensures q.writeQueue == p.writeQueue
    decreases |p.readQueue|
  {
    if p.ring == [] || p.readQueue == [] then p
    else
      var r, rest := p.readQueue[0], p.(readQueue := p.readQueue[1..]);
      if !r.Read? || r.len == 0 then DrainReads(Note(rest, r, BufferTooSmall, []))
      else
        var n := Min(r.len, |p.ring|);
        DrainReads(Note(rest.(ring := p.ring[n..]), r, Success, p.ring[..n]))
  }

  /** GcomDrainWritesToRing. */
  function DrainWrites(p: Path): Path
    decreases |p.writeQueue|
  {
    if |p.ring| >= p.cap || p.writeQueue == [] then p
    else
      var r, rest := p.writeQueue[0], p.(writeQueue := p.writeQueue[1..]);
      if !r.Write? || r.data == [] then DrainWrites(Note(rest, r, BufferTooSmall, []))
      else
        var n := Min(|r.data|, p.cap - |p.ring|);
        DrainWrites(DrainReads(Note(rest.(ring := p.ring + r.data[..n]), r, Success, r.data[..n])))
  }

  function Room(p: Path): nat {
    if |p.ring| <= p.cap then p.cap - |p.ring| else 0
  }

  /** GcomComEvtRead and, with nonBlocking false, GcomCompEvtRead. */
  function EvtRead(p: Path, req: Request, nonBlocking: bool, forwards: bool): Path
    requires req.Read?
  {
    if !p.active then Note(p, req, DeviceNotConnected, [])
    else if req.len == 0 then Note(p, req, BufferTooSmall, [])
    else
      var n := Min(req.len, |p.ring|);
      if n > 0 then Note(DrainWrites(p.(ring := p.ring[n..])), req, Success, p.ring[..n])
      else if nonBlocking then Note(p, req, Success, [])
      else if forwards then p.(readQueue := p.readQueue + [req])
      else Note(p, req, ForwardFailed, [])
  }

  /** GcomComEvtWrite and GcomCompEvtWrite. */
  function EvtWrite(p: Path, req: Request, forwards: bool): Path
    requires req.Write?
  {
    if !p.active then Note(p, req, DeviceNotConnected, [])
    else if req.data == [] then Note(p, req, BufferTooSmall, [])
    else
      var n := Min(|req.data|, Room(p));
      if n > 0 then Note(DrainReads(p.(ring := p.ring + req.data[..n])), req, Success, req.data[..n])
      else if forwards then p.(writeQueue := p.writeQueue + [req])
      else Note(p, req, ForwardFailed, [])
  }

  /** IOCTL_SERIAL_IMMEDIATE_CHAR: completes with success whether or not the byte found room. */
  function ImmediateChar(p: Path, req: Request): Path
    requires req.Immediate?
  {
    if !p.active then Note(p, req, DeviceNotConnected, [])
    else if req.chars == [] then Note(p, req, BufferTooSmall, [])
    else
      var n := Min(1, Room(p));
      Note(DrainReads(p.(ring := p.ring + req.chars[..n])), req, Success, req.chars[..n])
  }

  function Evt(p: Path, req: Request, nonBlocking: bool, forwards: bool): Path {
    match req
    case Read(_, _) => EvtRead(p, req, nonBlocking, forwards)
    case Write(_, _) => EvtWrite(p, req, forwards)
    case Immediate(_, _) => ImmediateChar(p, req)
  }

  /** A purged or deleted queue completes everything in it with a cancelled status. */
  function CancelAll(log: seq<Event>, reqs: seq<Request>): seq<Event>
    decreases |reqs|
  {
    if reqs == [] then log
    else CancelAll(log + [Completed(reqs[0], Cancelled, [])], reqs[1..])
  }

  function PurgeReads(p: Path): Path {
    p.(readQueue := [], log := CancelAll(p.log, p.readQueue))
  }

  function PurgeWrites(p: Path): Path {
    p.(writeQueue := [], log := CancelAll(p.log, p.writeQueue))
  }

  /** GcomRingFlush as PURGE calls it: nothing is drained. */
  function ClearRing(p: Path): Path {
    p.(ring := [], log := p.log + [Flushed(p.ring)])
  }

  ghost predicate Enabled(p: Path, step: Step) {
    match step
    case Arrive(req, _, _) => req.id == |p.arrived|
    case CancelRead(i) => i < |p.readQueue|
    case CancelWrite(i) => i < |p.writeQueue|
    case _ => true
  }

  function Apply(p: Path, step: Step): Path {
    match step
    case Arrive(req, nonBlocking, forwards) => Evt(p, req, nonBlocking, forwards).(arrived := p.arrived + [req])
    case CancelRead(i) =>
      if i < |p.readQueue| then Note(p.(readQueue := Without(p.readQueue, i)), p.readQueue[i], Cancelled, []) else p
    case CancelWrite(i) =>
      if i < |p.writeQueue| then Note(p.(writeQueue := Without(p.writeQueue, i)), p.writeQueue[i], Cancelled, []) else p
    case AbortReads => if p.active then PurgeReads(p) else p
    case AbortWrites => if p.active then PurgeWrites(p) else p
    case Clear => if p.active then ClearRing(p) else p
    case Destroy => ClearRing(PurgeWrites(PurgeReads(p))).(active := false)
  }

  ghost predicate Legal(p: Path, run: seq<Step>)
    decreases |run|
  {
    run == [] || (Enabled(p, run[0]) && Legal(Apply(p, run[0]), run[1..]))
  }

  function Exec(p: Path, run: seq<Step>): Path
    decreases |run|
  {
    if run == [] then p else Exec(Apply(p, run[0]), run[1..])
  }

  function Initial(cap: nat): Path {
    Path(cap, true, [], [], [], [], [])
  }

  /* ------------------------------------------------------- reading the history */

  /**
   What a log adds up to, each in order: the bytes that entered the ring; those that left it,
   to a read or to a flush; those that reads got; the completed requests; the requests that
   put bytes into the ring; the reads that got bytes out of it.
   */
  datatype History = History(accepted: seq<byte>, consumed: seq<byte>, delivered: seq<byte>,
                             finished: seq<Request>, entered: seq<Request>, served: seq<Request>)

  function Extend(h: History, e: Event): History {
    match e
    case Flushed(bytes) => h.(consumed := h.consumed + bytes)
    case Completed(req, _, bytes) =>
      var h' := h.(finished := h.finished + [req]);
      if bytes == [] then h'
      else if req.Read? then
        h'.(consumed := h.consumed + bytes, delivered := h.delivered + bytes, served := h.served + [req])
      else
        h'.(accepted := h.accepted + bytes, entered := h.entered + [req])
  }

  function Past(log: seq<Event>): History {
    if log == [] then History([], [], [], [], [], [])
    else Extend(Past(log[..|log|-1]), log[|log|-1])
  }

  lemma Snoc(log: seq<Event>, e: Event)
    ensures Past(log + [e]) == Extend(Past(log), e)
  {
    assert (log + [e])[..|log|] == log;
  }

  /* ------------------------------------------------------------------ invariant */

  /**
   What a completion may say: a read gets at most what it asked for; a write succeeds exactly
   when it made progress, with a prefix of its data; a character enters whole or not at all.
   */
  predicate EventOk(e: Event) {
    e.Completed? ==>
      match e.req
      case Read(_, len) => |e.bytes| <= len && (e.status != Success ==> e.bytes == [])
      case Write(_, data) =>
        |e.bytes| <= |data| && e.bytes == data[..|e.bytes|] && (e.status == Success <==> e.bytes != [])
      case Immediate(_, chars) =>
        e.bytes == [] || (e.status == Success && chars != [] && e.bytes == chars[..1])
  }

  ghost predicate Pending(p: Path) {
    && |p.ring| <= p.cap
    && (forall r | r in p.readQueue :: r.Read? && r.len >= 1)
    && (forall r | r in p.writeQueue :: r.Write? && r.data != [])
    && (!p.active ==> p.readQueue == [] && p.writeQueue == [])
    && (forall e | e in p.log :: EventOk(e))
  }

  /** A pended read waits only on an empty ring. */
  predicate ReadersWaitOnEmpty(p: Path) {
    p.readQueue != [] ==> p.ring == []
  }

  /** A pended write waits only on a full ring. */
  predicate WritersWaitOnFull(p: Path) {
    p.writeQueue != [] ==> |p.ring| == p.cap
  }

  predicate Conserved(p: Path) {
    Past(p.log).accepted == Past(p.log).consumed + p.ring
  }

  ghost function Held(p: Path): multiset<Request> {
    multiset(p.readQueue) + multiset(p.writeQueue) + multiset(Past(p.log).finished)
  }

  /** Requests are named by their place in the order of arrival. */
  ghost predicate Numbered(reqs: seq<Request>) {
    forall i | 0 <= i < |reqs| :: reqs[i].id == i
  }

  ghost predicate Inv(p: Path) {
    && Pending(p)
    && ReadersWaitOnEmpty(p)
    && Conserved(p)
    && Held(p) == multiset(p.arrived)
    && Numbered(p.arrived)
  }

  /** The requests stand in order of arrival, and all of them arrived before the given one. */
  ghost predicate InOrder(reqs: seq<Request>, next: nat) {
    && (forall i | 0 <= i < |reqs| :: reqs[i].id < next)
    && (forall i, j | 0 <= i < j < |reqs| :: reqs[i].id < reqs[j].id)
  }

  /** Reads are served in arrival order, those still pended after all served ones. */
  ghost predicate ReadOrder(p: Path) {
    InOrder(Past(p.log).served + p.readQueue, |p.arrived|)
  }

  /** Writers entered the ring in arrival order, those still pended after all that entered. */
  ghost predicate WriteOrder(p: Path) {
    InOrder(Past(p.log).entered + p.writeQueue, |p.arrived|)
  }

  /* -------------------------------------------------------------------- drains */

  lemma HeadOf(reqs: seq<Request>)
    requires reqs != []
    ensures reqs == [reqs[0]] + reqs[1..]
    ensures multiset(reqs) == multiset{reqs[0]} + multiset(reqs[1..])
  {
    assert reqs == [reqs[0]] + reqs[1..];
  }

  /** What a drain of pended reads does to the history, whatever is in hand around it. */
  ghost predicate ReadDrainEffect(p: Path, q: Path) {
    var was, now := Past(p.log), Past(q.log);
    && Pending(q) && q == p.(ring := q.ring, readQueue := q.readQueue, log := q.log)
    && now.consumed + q.ring == was.consumed + p.ring
    && now.accepted == was.accepted && now.entered == was.entered
    && Held(q) == Held(p)
    && now.served + q.readQueue == was.served + p.readQueue
  }

  lemma ServeOne(p: Path, q: Path, n: nat)
    requires Pending(p) && p.ring != [] && p.readQueue != []
    requires n == Min(p.readQueue[0].len, |p.ring|)
    requires q == Note(p.(readQueue := p.readQueue[1..], ring := p.ring[n..]), p.readQueue[0], Success, p.ring[..n])
    ensures ReadDrainEffect(p, q)
  {
    hide Past;
    Snoc(p.log, q.log[|p.log|]);
    HeadOf(p.readQueue);
    var was := Past(p.log);
    Split(p.ring, n);
    Assoc(was.consumed, p.ring[..n], p.ring[n..]);
    Assoc(was.served, [p.readQueue[0]], p.readQueue[1..]);
  }

  /** The read drain moves bytes and requests only from ring and queue to the log, and stops on an empty ring or queue. */
  lemma {:induction false} DrainReadsEffect(p: Path)
    requires Pending(p)
    ensures ReadDrainEffect(p, DrainReads(p))
    ensures DrainReads(p).ring == [] || DrainReads(p).readQueue == []
    ensures p.readQueue == [] ==> DrainReads(p) == p
    decreases |p.readQueue|
  {
    hide Past;
    if p.ring != [] && p.readQueue != [] {
      var r, n := p.readQueue[0], Min(p.readQueue[0].len, |p.ring|);
      var one := Note(p.(readQueue := p.readQueue[1..], ring := p.ring[n..]), r, Success, p.ring[..n]);
      ServeOne(p, one, n);
      DrainReadsEffect(one);
    }
  }

  /** What a drain of pended writes does to the history, whatever is in hand around it. */
  ghost predicate WriteDrainEffect(p: Path, q: Path, ins: seq<byte>) {
    var was, now := Past(p.log), Past(q.log);
    && Pending(q) && q == p.(ring := q.ring, readQueue := q.readQueue, writeQueue := q.writeQueue, log := q.log)
    && now.accepted == was.accepted + ins
    && now.consumed + q.ring == was.consumed + p.ring + ins
    && Held(q) == Held(p)
    && now.served + q.readQueue == was.served + p.readQueue
    && now.entered + q.writeQueue == was.entered + p.writeQueue
    && (p.readQueue == [] ==> q.readQueue == [] && q.ring == p.ring + ins && now.consumed == was.consumed)
  }

  lemma AdmitOne(p: Path, q: Path, n: nat)
    requires Pending(p) && |p.ring| < p.cap && p.writeQueue != []
    requires n == Min(|p.writeQueue[0].data|, p.cap - |p.ring|)
    requires var data := p.writeQueue[0].data[..n];
             q == Note(p.(writeQueue := p.writeQueue[1..], ring := p.ring + data), p.writeQueue[0], Success, data)
    ensures Pending(q) && WriteDrainEffect(p, q, p.writeQueue[0].data[..n])
  {
    hide Past;
    var was, r := Past(p.log), p.writeQueue[0];
    var e := Completed(r, Success, r.data[..n]);
    Snoc(p.log, e);
    HeadOf(p.writeQueue);
    assert r in p.writeQueue;
    assert EventOk(e);
    assert Pending(q);
    Assoc(was.entered, [r], p.writeQueue[1..]);
    Assoc(was.consumed, p.ring, r.data[..n]);
  }

  lemma WriteDrainChain(p: Path, one: Path, two: Path, q: Path, x: seq<byte>, y: seq<byte>)
    requires WriteDrainEffect(p, one, x) && ReadDrainEffect(one, two) && WriteDrainEffect(two, q, y)
    requires one.readQueue == p.readQueue && (one.readQueue == [] ==> two == one)
    ensures WriteDrainEffect(p, q, x + y)
  {
    hide Past;
    Assoc(Past(p.log).consumed + p.ring, x, y);
    Assoc(Past(p.log).accepted, x, y);
    Assoc(p.ring, x, y);
  }

  /**
   The write drain ends on a full ring or an empty write queue, keeps readers waiting only on
   an empty ring, and takes the writes in queue order.
   */
  lemma {:induction false} DrainWritesEffect(p: Path) returns (ins: seq<byte>)
    requires Pending(p) && ReadersWaitOnEmpty(p)
    ensures WriteDrainEffect(p, DrainWrites(p), ins)
    ensures ReadersWaitOnEmpty(DrainWrites(p)) && WritersWaitOnFull(DrainWrites(p))
    decreases |p.writeQueue|
  {
    hide Past, Held, EventOk, ReadDrainEffect, WriteDrainEffect;
    ins := [];
    if |p.ring| < p.cap && p.writeQueue != [] {
      var r, n := p.writeQueue[0], Min(|p.writeQueue[0].data|, p.cap - |p.ring|);
      var one := Note(p.(writeQueue := p.writeQueue[1..], ring := p.ring + r.data[..n]), r, Success, r.data[..n]);
      AdmitOne(p, one, n);
      DrainReadsEffect(one);
      DrainedIsPending(one, DrainReads(one));
      var more := DrainWritesEffect(DrainReads(one));
      ins := r.data[..n] + more;
      WriteDrainChain(p, one, DrainReads(one), DrainWrites(p), r.data[..n], more);
    } else {
      DrainsNothing(p);
    }
  }

  lemma DrainsNothing(p: Path)
    requires Pending(p)
    ensures WriteDrainEffect(p, p, [])
  {
    hide Past;
    assert Past(p.log).accepted + [] == Past(p.log).accepted;
    assert Past(p.log).consumed + p.ring + [] == Past(p.log).consumed + p.ring;
    assert p.ring + [] == p.ring;
  }

  lemma DrainedIsPending(p: Path, q: Path)
    requires ReadDrainEffect(p, q)
    ensures Pending(q)
  {
  }

  /** Both drains are no-ops where they have nothing to do, and draining twice is draining once. */
  lemma DrainWritesSettles(p: Path)
    requires Pending(p) && ReadersWaitOnEmpty(p)
    ensures DrainWrites(DrainWrites(p)) == DrainWrites(p) && DrainReads(DrainWrites(p)) == DrainWrites(p)
  {
    var ins := DrainWritesEffect(p);
  }
}
