# GhostCOM: verified model

GhostCOM is a kernel-mode null modem for Windows. Each port pair joins a COM device to a companion
device through two ring buffers, queues of pended requests, a signal snapshot protocol, a reference
count and a slot of a port table; a native addon and a TypeScript layer use the companion side. This
project models that core in Dafny and proves what holds of it over all inputs and all runs.

`dafny verify dfyconfig.toml` checks everything.

## What the model consists of

| file | content |
|---|---|
| `Prelude.dfy`, `Bits.dfy` | bytes, options, sequences; `&` on words, powers of two, 32-bit patterns |
| `RingBuffer.dfy` | the ring as a class over a byte array, refining a bounded FIFO |
| `Spsc.dfy` | the same ring as a small-step machine: one producer and one consumer, interleaved load by load and byte by byte |
| `DataPath.dfy`, `DataPathRuns.dfy` | one direction of a pair: ring, pended reads, pended writes, history; steps, invariant, whole runs |
| `PathOutcomes.dfy` | what becomes of each request of a direction: when it is pended, how it is answered, and that drains move all they can |
| `Purge.dfy`, `PurgeHandler.dfy` | the PURGE request over both directions, section by section among other handlers, and exactly when it breaks the pending-queue invariant |
| `PathDevice.dfy` | the handlers of one direction as methods with their drain loops, each proved equal to its step |
| `EndToEnd.dfy`, `StreamWriter.dfy` | the companion's writer on top: as a machine over all interleavings, and as the loop of `do_write` |
| `Signals.dfy` | the signal protocol with any number of handlers in flight |
| `SignalSettings.dfy` | where the told settings come from: the last request that named each field, and the bits that stand for it |
| `SignalOrder.dfy`, `SignalWaits.dfy` | exactly when overlapping calls tell snapshots in order; every wait pended or completed exactly once |
| `WaitMask.dfy` | WaitCommEvent: mask, pended waits and the calls that answer them, and exactly when a told event is still asked for |
| `SignalHub.dfy`, `SignalWatcher.dfy` | `GcomSignalChanged` and the watcher loop as methods, when handlers run one at a time |
| `PortTable.dfy`, `PortTableRuns.dfy` | port table, reference counts, files and symlinks: steps, invariant, whole runs |
| `DeviceContext.dfy` | create with every exit, destroy, cleanup, open and close as methods, each proved equal to its step |
| `CreateWindow.dfy` | the same table with create split where its COM device can first be seen: exactly when structs live as long as their files |
| `PortList.dfy` | the list reply, encoded by the driver and decoded by the addon |
| `Healing.dfy` | `createPort` and its recovery from a port held by a crashed process |

Every imperative file has a value-level partner: a method's contract equates the abstract value of the
object after the call with a step function applied to the value before, and the lemmas about runs are
about those step functions.

## Reading the model

- Ring sizes are any power of two below 2^32; the driver uses `GCOM_RING_BUFFER_SIZE`.
- The Interlocked operations are sequentially consistent, and a copy moves its bytes in any order.
- Handlers that hold `DataLock` are one step of a data path. The timeouts test that makes a read
  non-blocking (`driver/src/comport.c:545-547`) is the parameter `nonBlocking`; whether
  `WdfRequestForwardToIoQueue` succeeds is the parameter `forwards`. Completion calls are listed in the
  order in which the locked sections end. A purged or deleted queue completes everything in it with a
  cancelled status, in one step; the three sections of PURGE are separate steps.
- Requests are named by their place in the order of arrival, which makes arrival order the order of names.
- Memory of port pairs is a map from addresses to structs. A freed struct is not in the map, so every
  dereference in the model is proved to hit allocated memory.
- Control requests are serialised (`driver/src/control.c:102`). A create is one step in `PortTable.dfy`, where
  opens, closes and destroys are steps too, and two in `CreateWindow.dfy`, with opens, closes and other
  drivers' links in between. An open reaches a pair only through the live device of its side. Other drivers
  may change the symlink namespace at any time but do not touch our names. A freed address may be handed
  out again.
- `ChangedMask` is the set of its bits; sequence numbers are reduced modulo 2^32.

## Claims that do not hold, and their exact conditions

- Clearing a ring without draining breaks the rule that a write waits only on a full ring. PURGE runs as
  three sections (`driver/src/comport.c:1106-1123`), only the last of them under `DataLock`, and other handlers
  run in between. It keeps the rule exactly when, at the flush, no write is pended behind a ring it clears
  (`PurgeKeepsFlowIff`). TXABORT secures that exactly when every write that arrived since the abort has
  completed (`AbortSecuresIff`); a write dispatched between the sections of TXABORT with TXCLEAR is stranded
  on every full ring (`WriteInWindowIsStranded`). `ClearBreaksOrderAndFlow` is a run for rings of any size,
  `StrandedThenStuck` and `StuckThroughReads` show the reader and the writer that then wait for each other,
  `DrainAfterFlushRestores` the repair.
- A new write can overtake a pended one: exactly when one is pended and room is found (`OvertakesIff`).
- An immediate character reports success even when the ring is full (`ImmediateSucceedsAnyway`).
- Concurrent signal calls deliver snapshots out of order (`OverlapIsReachable`, `OverlapInverts`). Order is
  safe from a given state on exactly when no delivering call is behind (`InOrderIff`), and throughout a run
  exactly when every snapshot is taken while no other call is delivering (`InOrderThroughoutIff`).
- Change bits delivered to nobody are dropped (`MissedChangeIsNotTold`): a told mask is exactly the bits of the
  one call behind it (`WatcherSeesGaps`).
- Signed position arithmetic is free of overflow exactly for sizes up to 2^30, not for every size that
  the size check accepts (`NoSignedOverflowIff`, `SignedOverflowHappens`).
- A flush by anybody but the consumer breaks the lock-free ring exactly when the consumer holds a claim on one
  byte or more by the positions it loaded: then, and only then, some continuation passes over bytes that are
  not a prefix of what was published (`ForeignFlushIff`); every ring of two bytes or more reaches such a moment
  (`ForeignFlushBreaks`). TXCLEAR is such a flush (`driver/src/comport.c:1116-1118`); the driver is safe because
  flushes and reads both hold `DataLock`.
- A wait for comm events can be told an event that the mask in force no longer asks for: the mask is read under
  `SignalLock` (`driver/src/portpair.c:623-626`) and the waits are answered after it (`StaleEventIsTold` is a run).
  From a given state on it cannot, until the next mask is stored, exactly when no call in flight carries such an
  event (`InForceIff`), and throughout a run exactly when no mask is stored that drops an event some call in
  flight carries (`InForceThroughoutIff`).
- A struct does not always live as long as the files that hold it. The COM device of a new pair can be opened
  (`driver/src/comport.c:242-286`) up to a second before its companion device is made
  (`driver/src/comport.c:384-402`); if that fails, the struct is freed whatever its count
  (`driver/src/portpair.c:294-335`). The lifetime theorem holds throughout a run exactly when no file holds the
  pair of a create that fails then (`StructLivesWhileReferencedIff`, `CallbacksTouchLiveMemoryIff`);
  `OpenInsideCreateDangles` is a run from the empty table, with a number whose GCOM link is held, which a request
  for an explicit number does not look at.
- The doc comment at `src/port.ts:266-268` says that a port with an open companion is never disturbed. The
  listing and the destroy are separate requests: a companion opened in between, and still open, is torn down,
  and only then (`OpenPortDestroyedIff`); `LivePortIsDisturbed` is a run from the empty table.
- A full table is not healed although destroying the zombie would free a slot (`AloneSucceedsIff`,
  `FullTableIsNotHealed`).
- The comment at `driver/src/comport.c:84-91` says the locks survive until the last reference is dropped.
  `GcomPortPairDestroy` deletes them whatever the count (`driver/src/portpair.c:434-445`); the model follows
  the code. Locks live exactly while the pair is active (`LocksLiveIffActive`), and
  `LocksGoBeforeLastReference` is a run in which a file outlives them.

## Model

| member | source | states |
|---|---|---|
| `Bits.AndDigits` | driver/src/ringbuf.h:48-48 | And is the bitwise conjunction, digit by digit |
| `Bits.AndMask` | driver/src/ringbuf.h:143-143 | masking with a power of two less one is reduction modulo that power |
| `Bits.SizeCheckIffPowerOfTwo` | driver/src/ringbuf.h:48-50 | the runtime size check accepts exactly the powers of two |
| `Bits.MaskedIsModulo` | driver/src/ringbuf.h:98-100 | through the 32-bit pattern of a possibly negative difference, or of a sum, masking equals subtraction or addition modulo Size |
| `Bits.NoSignedOverflowIff` | driver/src/ringbuf.h:98-195 | no signed difference or sum of positions overflows, at any positions and for any write within the free room and read within the unread bytes, exactly when Size is at most 2^30 |
| `Bits.SignedOverflowHappens` | driver/src/ringbuf.h:158-159 | at size 2^31, which the size check accepts, writing one byte to an empty ring overflows |
| `RingMath.WindowSplit` | driver/src/ringbuf.h:185-195 | the unread window splits at any place; taking a prefix is moving its start |
| `RingMath.WindowAppend` | driver/src/ringbuf.h:149-159 | filling the slots after the unread window, across the wrap, appends to it and disturbs nothing unread |
| `RingBuffers.RingBuffer.Init` | driver/src/ringbuf.h:42-68 | succeeds exactly for a power of two whose allocation succeeds, with an empty ring; an invalid size changes nothing, a failed allocation only the pointer |
| `RingBuffers.RingBuffer.Free` | driver/src/ringbuf.h:74-86 | releases the buffer and zeroes size, mask and positions |
| `RingBuffers.RingBuffer.ReadAvailable` | driver/src/ringbuf.h:94-101 | the masked difference is the number of unread bytes |
| `RingBuffers.RingBuffer.WriteAvailable` | driver/src/ringbuf.h:107-113 | is the free room of a FIFO of capacity Size - 1 |
| `RingBuffers.RingBuffer.IsEmpty` | driver/src/ringbuf.h:119-124 | true exactly when nothing is unread |
| `RingBuffers.RingBuffer.CopyIn` | driver/src/ringbuf.h:149-155 | the one or two copies put byte i in slot wp + i modulo Size and leave all other slots; they stay inside both buffers |
| `RingBuffers.RingBuffer.CopyOut` | driver/src/ringbuf.h:185-191 | the one or two copies fetch the slots from rp on, in order, and leave the rest of the caller's buffer |
| `RingBuffers.RingBuffer.Write` | driver/src/ringbuf.h:135-162 | appends the longest prefix that fits and reports its length |
| `RingBuffers.RingBuffer.Read` | driver/src/ringbuf.h:171-198 | moves the longest prefix that fits the request out of the ring into the buffer; the rest stays unread |
| `RingBuffers.RingBuffer.Flush` | driver/src/ringbuf.h:204-210 | leaves the ring empty and usable |
| `Spsc.ProdCopyOk` | driver/src/ringbuf.h:149-155 | storing any one byte of the claimed range, at any moment of the consumer, leaves every unread byte |
| `Spsc.ProdPublishOk` | driver/src/ringbuf.h:157-159 | publishing the write position appends exactly the copied bytes |
| `Spsc.ConsPublishOk` | driver/src/ringbuf.h:193-195 | publishing the read position takes exactly the bytes received |
| `Spsc.FlushStoreOk` | driver/src/ringbuf.h:204-210 | a flush with a stale write position discards a prefix of the unread bytes and nothing else |
| `Spsc.InvStep` | driver/src/ringbuf.h:10-18 | each load, byte and publication of either side keeps the invariant in every interleaving |
| `Spsc.StepRefinesFifo` | driver/src/ringbuf.h:134-210 | each step is, on the unread bytes, one append, one take, one discard or nothing |
| `Spsc.ConsumerSeesPublishedPrefix` | driver/src/ringbuf.h:10-18 | after every interleaving what was consumed is a prefix of what was published, and without flushes the consumer received exactly that |
| `Spsc.NoOverlap` | driver/src/ringbuf.h:10-18 | in every interleaving no slot being written holds an unread byte, and every slot being read does |
| `Spsc.StalePositionsUnderestimate` | driver/src/ringbuf.h:98-112 | however old the position a side loaded, it claims no more room or data than there is |
| `Spsc.WriteClaimsRoom` | driver/src/ringbuf.h:135-147 | a write claims all the room there is at its second load, or as many bytes as it has |
| `Spsc.ReadClaimsWhatWasThere` | driver/src/ringbuf.h:171-183 | a read, whatever the producer does between its two loads, claims all that was unread when it began, or as much as it wants |
| `Spsc.FlushDiscardsWhatWasThere` | driver/src/ringbuf.h:204-210 | a flush, whatever the producer does between its two accesses, discards exactly what was unread when it began |
| `Spsc.ForeignFlushIff` | driver/src/ringbuf.h:203-210 | after a flush by anybody but the consumer every continuation has passed over a prefix of what was published, exactly when the consumer held no claim on one byte or more at that moment |
| `Spsc.ForeignFlushBreaks` | driver/src/ringbuf.h:203-210 | from every empty ring of two bytes or more a run reaches a moment at which such a flush breaks the prefix |
| `DataPath.DrainReadsEffect` | driver/src/portpair.c:517-554 | the read drain moves bytes and requests, in queue order, from ring and queue to completions, and ends on an empty ring or queue |
| `DataPath.DrainWritesEffect` | driver/src/portpair.c:560-601 | the write drain admits writes in queue order, conserves bytes and requests, and ends with a full ring or no pended write, readers waiting only on an empty ring |
| `DataPath.DrainWritesSettles` | driver/src/portpair.c:560-601 | draining a drained direction changes nothing |
| `DataPathRuns.ReadArrives` | driver/src/comport.c:484-571 | a read, in every branch, keeps the invariant and the full-ring rule for writers |
| `DataPathRuns.WriteArrives` | driver/src/companion.c:335-389 | a write or an immediate character, in every branch, keeps the invariant and the full-ring rule for writers |
| `DataPathRuns.StepKeeps` | driver/src/portpair.c:516-601 | every step keeps the invariant; every step but a clear over pended writes keeps writers waiting only on a full ring |
| `DataPathRuns.OvertakesIff` | driver/src/companion.c:362-388 | a new writer keeps arrival order exactly when no write is pended or it finds no room |
| `DataPathRuns.ImmediateSucceedsAnyway` | driver/src/comport.c:1204-1210 | an immediate character completes with success whether or not it enters, and enters exactly when the ring has room |
| `DataPathRuns.StepKeepsOrder` | driver/src/portpair.c:528-600 | reads are always served in arrival order, writes while writers wait only on a full ring |
| `DataPathRuns.RunKeeps` | driver/src/portpair.c:516-601 | the invariant, and order and full-ring rule where no clear strands a writer, hold over whole runs |
| `DataPathRuns.NeverBothStuck` | driver/src/comport.c:483-633 | over every run without a stranding clear a reader and a writer never wait for each other and both queues keep arrival order |
| `DataPathRuns.BytesAreConserved` | driver/src/portpair.c:516-601 | over every run the accepted bytes are, in order, the segments that reads and flushes took, one after another, and then the ring; without flushes all of them were delivered |
| `DataPathRuns.ExactlyOnce` | driver/src/comport.c:508-632 | over every run each arrived request is in exactly one queue or completed exactly once, and nothing else is anywhere |
| `DataPathRuns.DestroyCompletesAll` | driver/src/portpair.c:396-427 | after destroy every request that ever arrived has completed exactly once |
| `DataPathRuns.EventsAreWellFormed` | driver/src/portpair.c:581-583 | over every run a successful write completes with a count in 1..length and a prefix of its data, a read with at most what it asked for |
| `DataPathRuns.NothingIsDeliveredAfterDestroy` | driver/src/comport.c:496-499 | neither destroy nor any run of steps after it delivers a byte |
| `DataPathRuns.ReadersGetAPrefix` | driver/src/portpair.c:516-601 | over every run in which no clear finds unread bytes, destroys included, what readers got is a prefix of what was accepted |
| `DataPathRuns.NoWritePendsIff` | driver/src/companion.c:376-388 | from an empty write queue on, the queue is empty again exactly when every write that arrived since has completed |
| `PathOutcomes.ReadOutcome` | driver/src/comport.c:496-570 | a read that arrives is pended exactly on a live pair, asking for a byte, with none unread, blocking and forwarded; otherwise it is answered once, with the status of its case and the first unread bytes asked for |
| `PathOutcomes.NonBlockingNeverPends` | driver/src/comport.c:545-554 | in no run is a read that arrived as non-blocking ever pended |
| `PathOutcomes.WriteOutcome` | driver/src/companion.c:344-388 | a write that arrives is pended exactly on a live pair, with a byte, a full ring and a forward that succeeds; otherwise it is answered once, and as many of its bytes as find room have entered |
| `PathOutcomes.ImmediateOutcome` | driver/src/comport.c:1198-1215 | a character is answered at once, and its first byte entered exactly if there was room |
| `PathOutcomes.CancelReadOutcome` | addon/src/overlapped.rs:270-276 | the read at the given place, and no other, is answered as cancelled; the others keep their order |
| `PathOutcomes.CancelWriteOutcome` | addon/src/overlapped.rs:270-276 | the same for a pended write |
| `PathOutcomes.ClearOutcome` | driver/src/comport.c:1114-1123 | a clear discards exactly what is unread, answers nothing and changes nothing else |
| `PathOutcomes.DestroyOutcome` | driver/src/portpair.c:396-432 | destroy answers every pended request as cancelled and discards what is unread |
| `PathOutcomes.NoReadPendsIff` | driver/src/comport.c:545-570 | from an empty read queue on only later reads are pended, and none exactly when every read that arrived since has completed |
| `PathOutcomes.DrainsMoveAll` | driver/src/portpair.c:517-601 | in a write drain, the reads it serves in between included, every request moves as many bytes as it can at its turn |
| `Purge.PairRunSplits` | driver/src/comport.c:604-606 | the two directions of a pair do not affect each other |
| `Purge.PurgeKeepsFlowIff` | driver/src/comport.c:1100-1129 | whatever other handlers do between its sections, a purge leaves writers waiting only on full rings exactly when at the flush no write is pended behind a ring it clears and the rule holds on the rings it does not clear |
| `Purge.FlowReachesFlush` | driver/src/comport.c:1106-1113 | up to the flush the rule holds as long as nobody else clears a ring |
| `Purge.AbortSecuresIff` | driver/src/comport.c:1106-1118 | TXABORT leaves no write pended at the flush exactly when every write that arrived since the abort has completed |
| `Purge.WriteInWindowIsStranded` | driver/src/comport.c:1106-1118 | on every pair with a full ring, TXABORT with TXCLEAR strands a write dispatched between the two sections |
| `Purge.ReadAbortSecuresIff` | driver/src/comport.c:1110-1113 | RXABORT ends every pended read, answered once, as cancelled and without bytes; at the flush only reads that arrived after it are pended, and none exactly when all of those have completed |
| `Purge.WriteAbortCancels` | driver/src/comport.c:1106-1109 | TXABORT ends every pended write, answered once, as cancelled; none of their bytes enters |
| `Purge.FlushDiscards` | driver/src/comport.c:1114-1123 | of each live ring it clears the flush discards exactly what is unread, and leaves the other alone |
| `PurgeHandlers.PurgeIoctl` | driver/src/comport.c:1100-1129 | the handler runs its three sections, with any other handlers in between, exactly as specified |
| `Purge.StrandingIff` | driver/src/comport.c:1114-1123 | of all steps, exactly a clear over pended writes breaks the full-ring rule |
| `Purge.StrandedThenStuck` | driver/src/comport.c:1114-1123 | after such a clear one blocking read leaves a reader and a writer pended on an empty ring |
| `Purge.StuckThroughReads` | driver/src/comport.c:1114-1123 | no further reads end that wait or receive a byte |
| `Purge.DrainAfterFlushRestores` | driver/src/portpair.c:559-601 | draining the writes after the flush would restore the invariant |
| `Purge.ReadWithDataRestores` | driver/src/comport.c:516-522 | so does the next read that finds a byte |
| `Purge.ClearCanStrand` | driver/src/comport.c:1114-1123 | on a ring of any size two writes reach a state in which a clear strands a writer |
| `Purge.ClearBreaksOrderAndFlow` | driver/src/comport.c:1114-1123 | on a ring of any size a run in which a clear strands a write and a later one overtakes it |
| `Purge.FullRingIsReachable` | driver/src/companion.c:362-364 | a full ring, as the stranding purge needs it, is reached on a ring of any size |
| `PathDevices.PathDevice.constructor` | driver/src/portpair.c:239-248 | a ring as create sets it up, with empty queues, is the initial state of a direction |
| `PathDevices.PathDevice.DrainRingToReads` | driver/src/portpair.c:517-554 | the loop computes the specified drain, terminates, and never reaches its re-queue branch |
| `PathDevices.PathDevice.AdmitNextWrite` | driver/src/portpair.c:571-599 | one turn of the write drain; the re-queue branch is never reached |
| `PathDevices.PathDevice.DrainWritesToRing` | driver/src/portpair.c:560-601 | the loop computes the specified drain and terminates |
| `PathDevices.PathDevice.PutInRing` | driver/src/companion.c:362-364 | puts the longest prefix of a request's buffer that fits into the ring |
| `PathDevices.PathDevice.EvtRead` | driver/src/comport.c:484-571 | the handler performs exactly the read step, in all its branches |
| `PathDevices.PathDevice.EvtWrite` | driver/src/companion.c:335-389 | the handler performs exactly the write step, in all its branches |
| `PathDevices.PathDevice.ImmediateCharIoctl` | driver/src/comport.c:1198-1215 | enters at most one byte, drains, and reports success even when the ring is full |
| `PathDevices.PathDevice.AbortReadQueue` | driver/src/comport.c:1110-1113 | completes every pended read as cancelled, in order |
| `PathDevices.PathDevice.AbortWriteQueue` | driver/src/comport.c:1106-1109 | completes every pended write as cancelled, in order |
| `PathDevices.PathDevice.CancelPendedRead` | addon/src/overlapped.rs:270-276 | a pended read whose owner cancels its I/O leaves the queue, cancelled, the others keep their places |
| `PathDevices.PathDevice.CancelPendedWrite` | addon/src/overlapped.rs:270-276 | a pended write whose owner cancels its I/O leaves the queue, cancelled and without having entered a byte |
| `PathDevices.PathDevice.ClearIoctl` | driver/src/comport.c:1114-1123 | discards the ring and drains nothing |
| `PathDevices.PathDevice.Teardown` | driver/src/portpair.c:396-432 | destroy on one direction: both queues cancelled, the ring discarded and freed |
| `EndToEnd.IssueStep` | driver/src/companion.c:335-389 | a write issued with none outstanding becomes the only one, and what it puts in follows what was there |
| `EndToEnd.OthersStep` | driver/src/portpair.c:559-601 | whatever others do meanwhile, the one outstanding write stays pended or is answered with the bytes it put in |
| `EndToEnd.MoveKeeps` | addon/src/stream.rs:305-343 | every move of writer and driver keeps the end-to-end invariant |
| `EndToEnd.StreamIsDeliveredInOrder` | addon/src/stream.rs:299-304 | in every interleaving each chunk whose callback succeeded was accepted whole and in order; unless a clear discarded bytes, what readers got is a prefix of the concatenated chunks, through any destroy |
| `EndToEnd.DeliveredWithoutClear` | addon/src/stream.rs:299-304 | in every schedule without a clear, whatever reads, cancels, aborts and destroys happen, what readers got is a prefix of the concatenated chunks |
| `EndToEnd.OffsetAdvances` | addon/src/stream.rs:333-339 | each successful answer strictly advances the offset, never past the end |
| `EndToEnd.FailsOnlyOnFailure` | addon/src/stream.rs:324-331 | unless its wait is given up, a writer fails only because a write of what was left of its chunk ended without success |
| `StreamWriter.Elsewhere` | driver/src/comport.c:484-571 | a handler run on behalf of somebody else is its step of the data path |
| `StreamWriter.Issue` | addon/src/stream.rs:315-322 | the remaining bytes become the only outstanding write |
| `StreamWriter.Answered` | addon/src/stream.rs:324-331 | an answered write is no longer pended; it moved a prefix, not empty exactly on success |
| `StreamWriter.WriteFile` | addon/src/stream.rs:315-331 | an answer is new in the log, the only one, and for the bytes handed over; it means that a prefix was accepted right after what was accepted before, not empty exactly on success; without an answer the write is still pended |
| `StreamWriter.DoWrite` | addon/src/stream.rs:305-343 | every tick of the schedule that is used has its effect, each dispatch with no write outstanding issues all that is left; done exactly when all of data was accepted, contiguously; an error exactly when a write of this call ended without success, and then one of the bytes from offset on; unfinished only at the end of the schedule; the retry on zero bytes is never reached |
| `Signals.StoresOnlyAnnounced` | driver/src/comport.c:686-819 | a handler stores no field outside the groups whose bits it passes on |
| `SignalSettings.LastWriterIsTold` | driver/src/comport.c:686-970 | over every run of overlapping handlers each field holds the value that the last request naming it named, or its initial one; with none in flight so does the last snapshot; every snapshot shows what the requests up to some moment left, its bits standing for requests made |
| `SignalSettings.LastIs` | driver/src/comport.c:686-970 | the last value named is that of a request after which none names the field |
| `SignalSettings.BitsAreTheNamed` | driver/src/ioctls.h:164-173 | a handler signals exactly the groups whose fields it names, an open and a close their own bit |
| `SignalSettings.SnapOutcome` | driver/src/portpair.c:470-478 | a snapshot has the next number, the current settings, and exactly the bits still set or announced by its call |
| `SignalSettings.ClearOutcome` | driver/src/portpair.c:506-510 | a call clears the bits of its own snapshot and no other |
| `Signals.StepKeeps` | driver/src/portpair.c:470-511 | the protocol invariant holds through every locked section, delivery, wait and destroy |
| `Signals.MaskIsCarriedByCalls` | driver/src/portpair.c:470-510 | for any interleaved calls each set bit lies in the snapshot of a call in flight, so the mask is 0 when none is; each snapshot holds its call's bits |
| `Signals.SequenceNumbersRepeatIff` | driver/src/portpair.c:472-475 | two snapshots share a number exactly when a multiple of 2^32 changes lies between them |
| `Signals.LastSnapshotIsFresh` | driver/src/comport.c:686-970 | on an active pair every configuration group equals that of the last snapshot unless a handler is between its store and its signal |
| `SignalOrder.InOrderIff` | driver/src/portpair.c:480-504 | from any state of a live pair, until the next snapshot, waits are told snapshots in order whatever happens exactly when they were so far and no delivering call is behind what was told or behind another delivering call |
| `SignalOrder.InOrderThroughoutIff` | driver/src/portpair.c:470-504 | over a whole run waits stay in order throughout exactly when every snapshot is taken while no other call is delivering |
| `SignalOrder.AloneInOrder` | driver/src/portpair.c:480-504 | while calls deliver one at a time waiters are told snapshots in order |
| `SignalOrder.OverlapInverts` | driver/src/portpair.c:480-504 | from any state of a live pair with a call that is behind, whatever waits are pended, a few cancels, waits and deliveries break the order |
| `SignalOrder.OverlapIsReachable` | driver/src/comport.c:183-183 | two requests dispatched in parallel reach such a state |
| `SignalWaits.WaitsExactlyOnce` | driver/src/portpair.c:481-504 | over every run of overlapping calls, cancels, failed forwards and destroy, each wait that arrived is pended or completed, exactly once, and no other is anywhere |
| `SignalWaits.DestroyCompletesWaits` | driver/src/portpair.c:390-427 | after destroy no wait is pended; every wait that arrived before or arrives after has completed exactly once |
| `SignalWaits.AnswersAreJustified` | driver/src/portpair.c:481-504 | over every run each answer has its reason: success a snapshot that was taken, told to a wait with room for it; too small a buffer, a failed forward, a cancel or the end of the pair the status that says so, and no snapshot |
| `SignalWaits.WaitOutcome` | driver/src/companion.c:411-439 | a wait is pended exactly on a live pair to which it is forwarded, and otherwise answered at once |
| `SignalWaits.DestroyOutcome` | driver/src/portpair.c:390-427 | destroy ends every pended wait as cancelled, in order |
| `WaitMasks.ToldWhatOccurred` | driver/src/portpair.c:607-651 | over every run of stores, purges, looks, answers, waits, cancels and destroy a wait that succeeds is told exactly the events that some call was made for and that one of the masks stored asked for, of which there is one, and no other wait is told any |
| `WaitMasks.WaitsExactlyOnce` | driver/src/portpair.c:635-650 | over every such run a wait is pended or completed exactly as often as it arrived, and none is pended after destroy |
| `WaitMasks.LookOutcome` | driver/src/portpair.c:612-632 | a call goes on to answer waits exactly on a live pair whose mask asks for one of its events, and carries exactly those that it asks for |
| `WaitMasks.EndOutcome` | driver/src/comport.c:956-963 | the purge after a store, and destroy, end every pended wait as cancelled, in order; a cancel ends the one at its place |
| `WaitMasks.InForceIff` | driver/src/portpair.c:623-643 | on a live pair, until the next store, every event told lies in the mask then in force, whatever happens, exactly when no call in flight carries an event outside it |
| `WaitMasks.InForceThroughoutIff` | driver/src/comport.c:946-970 | that holds throughout a run exactly when no mask is stored that drops an event some call in flight carries |
| `WaitMasks.StaleEventIsTold` | driver/src/comport.c:946-970 | a run from a new pair in which a wait for event 2 is told event 1 |
| `WaitMasks.WaitMaskHub.CheckWaitMask` | driver/src/portpair.c:607-651 | with nothing in between, a match tells every pended wait, in order, the matched events of the mask in force, and no match changes nothing |
| `WaitMasks.WaitMaskHub.SetWaitMask` | driver/src/comport.c:946-970 | stores the mask, then cancels every pended wait in order |
| `WaitMasks.WaitMaskHub.WaitOnMask` | driver/src/comport.c:989-997 | pends the wait, or completes it when the pair is gone or the forward fails |
| `WaitMasks.CheckAloneIsARun` | driver/src/portpair.c:607-651 | an uninterrupted call is a run of the sections of the concurrent protocol |
| `SignalHubs.SignalHub.SignalChanged` | driver/src/portpair.c:456-511 | numbers and snapshots the state, tells every pended wait, and leaves no bit behind |
| `SignalHubs.SignalHub.Handle` | driver/src/comport.c:686-830 | a handler alone: its snapshot shows the values the request names and otherwise those before it, its bits are those of the request, and every waiter is told |
| `SignalHubs.SignalHub.WaitSignalChange` | driver/src/companion.c:411-439 | pends the wait, or completes it when the pair is gone or the forward fails |
| `SignalHubs.SignalHub.CancelPendedWait` | addon/src/signals.rs:120-131 | a cancelled wait leaves the queue without being told anything |
| `SignalHubs.SignalHub.Teardown` | driver/src/portpair.c:390-427 | destroy cancels every pended wait in order |
| `SignalHubs.AloneIsARun` | driver/src/portpair.c:456-511 | an uninterrupted call is a run of the sections of the concurrent protocol |
| `SignalHubs.WatcherSeesGaps` | addon/src/signals.rs:147-203 | each delivered mask is exactly the bits of the call behind it; each gap in the numbers less one is the number of changes made while no wait was pended |
| `SignalHubs.WatcherNumbersIncrease` | addon/src/signals.rs:147-203 | in a run of fewer than 2^32 changes the numbers a watcher sees strictly increase |
| `SignalHubs.MissedChangeIsNotTold` | driver/src/portpair.c:506-510 | a change made while no wait is pended is missing from the mask of the next one told |
| `SignalHubs.ChangeSeenIff` | addon/src/signals.rs:183-194 | a change is seen, as the newest sight, exactly when the watcher has a wait pended |
| `SignalHubs.RewaitPendsIff` | addon/src/signals.rs:147-178 | its next turn pends a wait exactly on a live pair, if it was not stopped, none is pended and the driver takes it |
| `SignalHubs.WatcherKeepsWatching` | addon/src/signals.rs:147-203 | whatever it saw, a watcher that was not stopped sees the next change after its next turn |
| `SignalHubs.NothingSeenAfterStop` | addon/src/signals.rs:120-131 | whatever happens after a stop, nothing more is seen and no wait is left pended |
| `SignalWatchers.Changed` | addon/src/signals.rs:187-194 | a change completes the pended wait and hands over the newest snapshot, read only on success |
| `SignalWatchers.Turn` | addon/src/signals.rs:147-203 | one turn issues a wait only when none is outstanding and no stop was asked for; a refused or cancelled wait, a stop and the end of the pair hand over nothing |
| `SignalWatchers.ThreadMain` | addon/src/signals.rs:120-204 | over any course of changes, refused and cancelled waits, stop and destroy the callback receives exactly the snapshots told, in order |
| `PortTable.FreeNumber` | driver/src/portpair.c:33-114 | the least number in 1..255 free in the table and both namespaces, 0 only if there is none |
| `PortTable.FirstNull` | driver/src/portpair.c:138-144 | the least index of a NULL slot |
| `PortTableRuns.CreateKeeps` | driver/src/portpair.c:121-338 | create, with success and with each failure, keeps the invariant |
| `PortTableRuns.CreateOutcome` | driver/src/portpair.c:121-338 | a create makes one pair, in the first NULL slot, under the number asked for or else the least free one in 1..255, or leaves everything alone |
| `PortTableRuns.CreateSucceedsExactly` | driver/src/portpair.c:133-199 | with nothing failing a create succeeds exactly with a NULL slot and a free number, its own or any in 1..255; otherwise its status says which was missing |
| `PortTableRuns.FaultOutcome` | driver/src/portpair.c:201-306 | a failure after the number was chosen is reported as lack of memory for the struct and the rings, else as a device failure |
| `PortTableRuns.DestroyKeeps` | driver/src/portpair.c:344-450 | destroying any listed pairs keeps the invariant |
| `PortTableRuns.DestroyOutcome` | driver/src/control.c:182-229 | after a destroy by companion index no live pair has it, every other live pair is untouched, the number is free, and the struct is kept exactly while files hold it |
| `PortTableRuns.CleanupOutcome` | driver/src/driver.c:610-634 | a cleanup leaves no live pair, no slot in use and a count of 0; only files keep structs allocated |
| `PortTableRuns.OpenKeeps` | driver/src/comport.c:29-66 | an open of either side, accepted or rejected, keeps the invariant |
| `PortTableRuns.OpenOutcome` | driver/src/comport.c:29-66 | an open succeeds exactly on a live pair whose side no file holds, and then this file alone holds it; otherwise it is refused with the status of its case and holds nothing |
| `PortTableRuns.CloseKeeps` | driver/src/companion.c:64-87 | a close of either side, before or after destroy, keeps the invariant |
| `PortTableRuns.CloseOutcome` | driver/src/companion.c:64-87 | a close of a file that holds a side of a live pair leaves that side free for the next open |
| `PortTableRuns.RunKeeps` | driver/src/control.c:102-102 | the invariant holds over every run of serialised requests, cleanups, opens, closes and foreign links |
| `PortTableRuns.LocksGoBeforeLastReference` | driver/src/comport.c:84-91 | a pair destroyed while its COM side is open stays allocated for that file, with one reference and without locks |
| `PortTableRuns.PublishedThenFinished` | driver/src/portpair.c:283-338 | a pair that nobody opens between its two devices is installed as by the one-step create, or leaves no trace |
| `CreateWindows.StepKeepsIff` | driver/src/portpair.c:283-338 | with a create under way or not, a step keeps the invariant, or it is a create that fails while a file holds its pair: then that file is left with a freed struct |
| `CreateWindows.StructLivesWhileReferencedIff` | driver/src/portpair.c:657-678 | in every state of a run the count is the creation reference plus the files that hold the pair, the struct is allocated exactly while there is one, and each side is held at most once: exactly when no create of the run fails while a file holds its pair |
| `CreateWindows.CallbacksTouchLiveMemoryIff` | driver/src/companion.c:75-86 | in every state every file finds its struct allocated and, while the pair is active, rings, locks, the COM device and, once created, the companion device: under exactly the same condition |
| `CreateWindows.TableIsConsistent` | driver/src/driver.h:147-147 | under that condition, in every state, a create under way included, PortCount is the number of non-NULL slots, every listed pair is live with its number equal to its companion index, and no two share a number |
| `CreateWindows.LocksLiveIffActive` | driver/src/portpair.c:434-445 | over every run, without any condition, locks, rings and COM device of an allocated pair are live exactly while it is active, its companion device once it was created |
| `CreateWindows.HeldRunDangles` | driver/src/portpair.c:294-335 | whenever a number can be asked for, an open of its COM device followed by the failure of its companion device leaves the file with a freed struct |
| `CreateWindows.OpenInsideCreateDangles` | driver/src/comport.c:242-286 | a run from the empty table in which this happens, with a number whose GCOM link is held |
| `CreateWindows.PairCreateDuring` | driver/src/portpair.c:121-338 | create with any opens, closes and foreign links handled between its two devices performs exactly the steps of this machine |
| `DeviceContexts.DeviceContext.ScanForNumber` | driver/src/portpair.c:157-166 | finds whether an active pair has the number, skipping NULL and reserved slots |
| `DeviceContexts.DeviceContext.FindFreePortNumber` | driver/src/portpair.c:20-115 | returns the least free number, or 0 if every number in 1..255 is taken |
| `DeviceContexts.DeviceContext.FindNullSlot` | driver/src/portpair.c:138-144 | returns the first NULL slot or the table size |
| `DeviceContexts.DeviceContext.PairCreate` | driver/src/portpair.c:121-338 | with nobody in between: a pair in the first NULL slot under the number asked for or the least free one, or a status that says why not and table, count, memory and symlinks as before |
| `DeviceContexts.DeviceContext.PairPublish` | driver/src/portpair.c:121-290 | until the COM device can be seen: a pair in the first NULL slot under the number asked for, not in use, or the least free one, or everything as before |
| `DeviceContexts.DeviceContext.PairInstall` | driver/src/portpair.c:201-338 | from the reservation to the COM device: either the pair is in its slot and can be seen or everything is as before |
| `DeviceContexts.DeviceContext.PairInit` | driver/src/portpair.c:233-338 | from the zeroed struct to the COM device: the pair takes over the reserved slot, or slot and struct are released by the exit that fits |
| `DeviceContexts.DeviceContext.FinishCreate` | driver/src/portpair.c:292-338 | whoever opened the COM device meanwhile, the companion device with its symlink, or the COM symlink is taken back, the slot released and the struct freed |
| `DeviceContexts.DeviceContext.FailAlloc` | driver/src/portpair.c:315-338 | releases the slot only while it holds the sentinel, and frees the struct |
| `DeviceContexts.DeviceContext.FailCleanup` | driver/src/portpair.c:308-338 | takes the pair out of the table and frees it; the sentinel branch that follows does not count the slot again |
| `DeviceContexts.DeviceContext.PairDestroy` | driver/src/portpair.c:344-450 | the pair leaves the table at most once more, never counted twice, and its creation reference is dropped |
| `DeviceContexts.DeviceContext.RemoveFromTable` | driver/src/portpair.c:354-363 | removes the pair if it is still listed; the count drops by exactly the slots that became NULL |
| `DeviceContexts.DeviceContext.TearDown` | driver/src/portpair.c:396-445 | queues, devices, symlinks, rings and locks go whatever the reference count |
| `DeviceContexts.DeviceContext.ReleasePair` | driver/src/portpair.c:666-678 | frees the struct exactly when its last reference goes |
| `DeviceContexts.DeviceContext.DestroyPortIoctl` | driver/src/control.c:182-229 | destroys exactly the active pairs with the companion index, not-found exactly when there is none |
| `DeviceContexts.DeviceContext.RemoveAndDestroy` | driver/src/control.c:210-224 | the matched slot is cleared and counted once, although destroy scans the table again |
| `DeviceContexts.DeviceContext.SelfManagedIoCleanup` | driver/src/driver.c:610-634 | every active pair is removed and destroyed once; the table ends empty with count 0 |
| `DeviceContexts.DeviceContext.ClearTable` | driver/src/driver.c:619-629 | collects exactly the active pairs, each once, and leaves no slot in use |
| `DeviceContexts.DeviceContext.DestroyListed` | driver/src/driver.c:631-634 | destroys each collected pair and leaves the cleared table and its count alone |
| `DeviceContexts.DeviceContext.FileCreate` | driver/src/comport.c:29-66 | an open is rejected when the pair is gone or its side is open; otherwise it sets the flag and takes a reference |
| `DeviceContexts.DeviceContext.FileClose` | driver/src/comport.c:69-98 | a close clears the flag as its side does and drops the reference |
| `DeviceContexts.Perform` | driver/src/control.c:102-102 | each method performs exactly its step of the table machine |
| `DeviceContexts.PerformAll` | driver/src/control.c:102-102 | the table in memory goes through exactly the states of the machine |
| `DeviceContexts.OnlyMatch` | driver/src/control.c:204-215 | the first active pair with the companion index is the only one |
| `PortLists.ListingIsSlotOrder` | driver/src/control.c:261-270 | every active pair is listed, field by field, at the place given by the number of active pairs in lower slots |
| `PortLists.EntryHasSlot` | driver/src/control.c:261-270 | each listed entry describes, field by field, the pair of an active slot |
| `PortLists.ReplyRoundTrip` | addon/src/control.rs:126-149 | decoding a buffer that starts with the encoding of a list gives the list back |
| `PortLists.ReplyLayout` | driver/src/ioctls.h:81-92 | the count and the four fields of each entry lie, word by word, where the structs put them |
| `PortLists.FittingIsMost` | driver/src/control.c:251-270 | what is written is the start of the list, cut short only where one more entry would not fit |
| `PortLists.FullListFillsBuffer` | addon/src/control.rs:107-111 | at most 64 entries fit the 1028-byte buffer, and exactly 64 fill it |
| `PortLists.StoreEntry` | driver/src/control.c:264-267 | stores one entry as four little-endian words and touches no other byte |
| `PortLists.ListPortsIoctl` | driver/src/control.c:235-283 | too small a buffer is refused untouched; otherwise as many entries as fit are encoded in slot order and the rest of the buffer is left |
| `PortLists.ReadReply` | addon/src/control.rs:126-149 | reads back what the buffer encodes |
| `PortLists.ListPorts` | addon/src/control.rs:102-150 | yields exactly the active pairs in slot order with their open flags; every read stays inside the buffer |
| `PortLists.RunKeepsFits` | driver/src/ioctls.h:82-87 | over every run of requests with ULONG numbers all stored numbers fit a ULONG |
| `Healing.FindStale` | src/port.ts:278-281 | finds an entry with the number and a closed companion exactly when there is one |
| `Healing.TryHealZombie` | src/port.ts:270-293 | lists, lets others act, destroys by companion index, and reports whether that succeeded |
| `Healing.HealAndRetry` | src/port.ts:312-320 | the create is repeated once, only after a successful heal and whatever others do before it |
| `Healing.CreatePort` | src/port.ts:295-322 | with others acting between any two of its requests: at most one retry, only after a collision on a requested number and a successful heal |
| `Healing.HealsExactlyTheZombie` | src/port.ts:261-269 | with nobody in between exactly the pair with that number and a closed companion is destroyed, if there is one |
| `Healing.HealsWhoAnswers` | src/port.ts:270-293 | whatever happens between listing and destroy, nothing is destroyed if no zombie with the number was listed, and otherwise exactly the pairs that answer to the number when the destroy runs |
| `Healing.BystandersStay` | src/port.ts:266-268 | whatever fails and whatever others do between the requests, the own requests of a call change no pair but the one that answers to the number when the destroy runs, and that only if a zombie was listed |
| `Healing.AloneBystandersStay` | src/port.ts:266-268 | with nobody in between no pair but a zombie with the number is changed, whatever fails |
| `Healing.OptOutDestroysNothing` | src/port.ts:310-316 | a caller that opted out, asked for no number or did not collide makes one request; its outcome is the outcome and nothing is destroyed |
| `Healing.RecoveryOutcome` | src/port.ts:312-320 | a recovery that healed nothing reports the collision; one that healed ends as its retry does, with the pair under the requested number or nothing new |
| `Healing.CreateSucceedsIff` | src/port.ts:295-322 | without failures, whatever others do between the requests, creation succeeds exactly when a slot and the number are free at once, or a slot but not the number is free, a zombie is listed, somebody answers to the number at the destroy, and slot and number are free at the retry |
| `Healing.AloneSucceedsIff` | src/port.ts:295-322 | with nobody in between that is exactly when a slot is free and the number is free or held by a zombie |
| `Healing.FullTableIsNotHealed` | driver/src/portpair.c:146-149 | sixty-four creates reach a table in which asking for the number of a zombie fails for lack of a slot |
| `Healing.LivePortsSurvive` | src/port.ts:266-268 | whatever others do before the destroy, no pair with an open companion is destroyed as long as nobody opens that companion |
| `Healing.OpenInBetweenIsDestroyed` | src/port.ts:266-268 | one step in between makes the recovery destroy a pair with an open companion exactly if it opens that companion |
| `Healing.OpenPortDestroyedIff` | src/port.ts:266-268 | whatever happens in between, the recovery destroys a pair with an open companion exactly if some process opens that companion in the window and neither closes it nor loses the port again |
| `Healing.LivePortIsDisturbed` | src/port.ts:266-268 | a run from the empty table in which this happens |

## Left out

- Device objects on a failed create: `GcomComPortCreate` and `GcomCompanionCreate` return without deleting a device they already made, so restoration is claimed for table, count, rings, locks, memory and symlinks only. Such a device was never finished, so no open reaches it.
- Failures inside device, lock and queue creation are one status, `DeviceFailed`; which step failed inside a device is not modelled.
- Interleaved creates and destroys: number uniqueness relies on the sequential control queue; cleanup at removal is one more serialised request.
- Runs after a file was left with a freed struct: what its close does to memory that is no longer a pair has no outcome in the model, so it is not a step.
- The requests of `Healing.dfy` and those of others between them are whole steps; what falls inside a create is `CreateWindow.dfy`.
- Destroy is one step. Reads, writes and waits test `Active` before they take `DataLock` or forward (`driver/src/comport.c:496-510`), while destroy clears the queue handles without `DataLock` (`driver/src/portpair.c:405-408`), so a handler between its test and its forward can find its queue handle NULL; opens and closes race with destroy in the same way.
- PnP, the child list, child PDOs, IRP preprocessing, registry diagnostics and the SERIALCOMM map: framework calls without checkable logic.
- WDF itself: queue order, purge, cancellation and deletion are taken as documented; a request refused by a purged queue before it is restarted is a forward that fails.
- Comm events that occur while no wait is pended are lost; there is no record of them to state anything about.
- WaitMasks.WaitMaskHub.CheckWaitMask: models the call when no other runs; concurrent calls are the machine of the same file.
- `PerfStats`: it does not count drained requests.
- GET requests, timeouts, property tables and version queries: single-field copies.
- The information count 0 that IMMEDIATE_CHAR reports; the model records the byte it entered.
- The modem-line fields the companion sets (`CompDtr`, `CompRts`): they are not part of the snapshot protocol.
- Threads, callbacks and back-pressure of the addon and of Node: foreign calls. In `do_write` an error of `GetOverlappedResult` is any unsuccessful completion or a given-up wait.
- `VirtualPort.isComOpen` and the defaults of `setSignals`: they mix COM-side and companion-side lines and have no clean specification.
- SignalHubs.SignalHub.Handle: models the handler when no other runs; concurrent handlers are the machine of `Signals.dfy`, not threads over the object.
- PathDevices.PathDevice.EvtRead: covers the COM and the companion handler with one method; they differ in the non-blocking branch, which the companion never takes.
- PathDevices.PathDevice.EvtWrite: covers the COM and the companion handler with one method; WaitCommEvent notification after it is left out.
