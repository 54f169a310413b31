# memrpc: a verified model of the shared-memory RPC core

memrpc carries calls between an engine process (server) and its users (clients) through a
shared-memory segment with three single-producer single-consumer rings, a few eventfd
counters, and payload files for what does not fit into a ring entry. The hard part is
concurrency: cursors that wrap at 2^32, a credit counter shared by two rings, a client whose
lifecycle lock, session lock, store lock and submit lock are all different, and a service that is closed
and reopened while calls arrive. This project models that core and proves what it promises,
for every interleaving.

## How the model is built

* **Runs.** Each protocol is a total function `Step(state, label)` to an optional next state.
  A run is a sequence of labels, `Runs.Exec`, and a theorem about every interleaving is a
  theorem about every label sequence. A step is what the source does between two points where
  another thread can get in: one atomic load or store, one copied word, or one section under a
  mutex. Fields called history (`pushed`, `popped`, `accepted`, `drained`, `content`,
  `executed`, ...) are never read by a step.
* **Objects.** Code that updates an object in place is a class: `SessionRings.Ring` over an
  array of slots, `ByteCodec.ByteWriter` and `ByteReader`, `FilePayload.PayloadDirectory`,
  `ClientState.RequestStore` and `RecoveryState`, `ResponseQueue.Completions`,
  `SessionService.EngineSessionService`. Their operations are proved against the specification
  functions or the machine steps that the theorems are about.
* **Integers.** Cursors are 32-bit words with explicit wrap-around (`Words`), layout offsets are
  computed modulo 2^64 (`Layout`).

| file | subject |
|---|---|
| `Words`, `RingProtocol`, `RingWrap`, `SessionRings` | the ring, word by word; what wrap-around does to it; the ring object and the sweep |
| `CreditProtocol`, `ResponseCredit` | sleeping on a full ring and being woken |
| `ClientTypes`, `ClientModel`, `ClientState` | the client as one transition system; its store and recovery state |
| `ClientLifecycle`, `ClientDraining`, `ClientCooldown`, `ClientFutures`, `ControlRace` | what holds over all its runs |
| `ClientOutcomes`, `ClientStatuses`, `ClientCalls` | what an event, a reply and a call come to |
| `CompletionQueue`, `ResponseQueue`, `Admission`, `AdmissionOrder` | the server's response writer and worker pools |
| `ByteCodec`, `Envelope`, `FilePayload` | payloads inline and in files |
| `EndToEnd`, `EndToEndDelivery`, `EndToEndFiles` | a call there and back, and the files it leaves |
| `Layout`, `Attachment`, `AttachmentOutcomes`, `SessionService` | the segment layout, the exclusive claim on it, close and reopen |

## What turned out to be conditional

Some properties hold only under a condition. Each has a witness run or input that breaks it
and a proof of when it holds.

* The ring is first in, first out for ever if and only if the capacity divides 2^32
  (`RingWrap.FifoExact`). Attach accepts every capacity from 1 to 2^20; for the others the
  order is proved for the first 2^32 pushes and a run that breaks it is constructed for each.
* Response credit can be lost, for every capacity (`ResponseCredit.CreditCanBeLost`), because
  the client samples fullness before it pops. A push that fills the ring between the two is
  the only cause (`ResponseCredit.OnlyCauseOfLoss`), and a pop leaves the writer stranded
  exactly when the sample was "not full" and no credit is left (`ResponseCredit.LossExact`).
  The request side samples after the pop and never loses a credit.
* A file payload that was prepared is resolved or removed exactly when the payload directory's
  own name has no ".." in it, because the root check looks for ".." in the whole path
  (`FilePayload.PrepareThenResolve`, `PrepareThenRemove`). With such a directory a failed
  prepare leaves its file behind if the envelope may not fit (`FailedPrepareAddsNothing`).
* A payload file is never left behind with nothing on its way referring to it if and only if
  the directory has no ".." and no request is turned away unread, has no handler or is
  dropped with its ring (`EndToEndFiles.LeaksExact`), as long as the directory can hold files
  at all.
* A header built by the host from a config it calls valid is accepted by attach exactly when
  all ring sizes lie between 1 and 2^20; the host does not check them (`Layout.HostHeaderAccepted`).
* An envelope decodes to the reference it was made from exactly when the path is not empty and
  its length fits 32 bits (`Envelope.DecodeEncode`).
* A `Shutdown` that returns leaves every accepted future resolved for sure if and only if the
  control word it last saw is `Closed`: the winner's always is, a loser's may still be
  `Closing` (`ControlRace.ShutdownReturnExact`).
* The claim on the segment can outlive its owner while the process it names is alive, and then
  refuses every attach until that process dies (`Attachment.StuckLocksOut`). This happens in
  some run if and only if a release may fail to lock or a pid may be reused
  (`Attachment.StuckExact`).
* `OpenSession` can hand out a session that no server answers: a thread that passed
  `EnsureInitialized` before a close can attach to a host whose `EnsureSession` failed. It
  happens in some run if and only if `EnsureSession` can both succeed and fail
  (`SessionService.OrphansExact`), and at exactly those attaches that find the service not
  initialised (`SessionService.AttachOrphansExact`).

## Model

| member | source | states |
|---|---|---|
| `Words.SlotMapExact` | memrpc/src/core/session.cpp:73-92 | for every capacity attach accepts, the slot map of wrapped cursors has no collision in any window of `capacity` consecutive tickets if and only if the capacity divides 2^32 |
| `Words.SlotDistinct` | memrpc/src/core/session.cpp:155-166 | two tickets less than `capacity` apart use different slots, for ever if the capacity divides 2^32, otherwise below ticket 2^32 |
| `Words.WordDistance` | memrpc/src/core/shm_layout.h:28-43 | the difference of two wrapped cursors is the true number of entries between them, also across the wrap |
| `RingProtocol.FifoOverRuns` | memrpc/src/core/session.cpp:148-189 | over every interleaving of loads, stores and single-word copies, what was popped is a prefix of what was pushed and at most `capacity` entries are in the ring |
| `RingProtocol.RefinesBoundedQueue` | memrpc/src/core/session.cpp:148-189 | in every run each step of the ring is a step of a bounded queue: only the two cursor stores change it, a pop returns the oldest entry whole, full and empty are reported exactly when they were true at the first load |
| `RingProtocol.NoOverwriteBeforeRead` | memrpc/src/core/session.cpp:155-166 | in every run each unread entry is whole in its slot, and the producer is never writing to that slot |
| `RingWrap.WrapBreaksOrder` | memrpc/src/core/session.cpp:73-92 | for every accepted capacity that does not divide 2^32 there is a run of the ring that breaks the order |
| `RingWrap.FifoExact` | memrpc/src/core/session.cpp:148-189 | all runs are first in, first out if and only if the capacity divides 2^32 |
| `SessionRings.Ring.constructor` | memrpc/src/bootstrap/shared_memory_session_host.cpp:110-142 | a new ring is empty |
| `SessionRings.Ring.Count` | memrpc/src/core/shm_layout.h:28-43 | the wrapped difference of the cursors is the number of entries held |
| `SessionRings.Ring.Push` | memrpc/src/core/session.cpp:148-168 | refused exactly when full, leaving the ring as it was; otherwise the entry goes behind all others and none of them is damaged |
| `SessionRings.Ring.Pop` | memrpc/src/core/session.cpp:170-189 | nothing exactly when empty; otherwise the oldest entry, and the rest stays in order |
| `SessionRings.Ring.RemovePendingFilePayloads` | memrpc/src/core/session.cpp:191-215 | the loop over wrapped cursors visits exactly the live entries, in order |
| `SessionRings.SweptExact` | memrpc/src/core/session.cpp:191-215 | a file survives a sweep, unchanged, if and only if no live entry refers to it |
| `SessionRings.RemoveAllPendingFilePayloads` | memrpc/src/core/session.cpp:524-532 | sweeping the three rings deletes exactly the files that live entries of any of them refer to |
| `SessionRings.SweepStaysInside` | memrpc/src/core/session.cpp:191-215 | no sweep touches a file outside the directory, whatever the entries say |
| `CreditProtocol.NoLostCreditOverRuns` | memrpc/src/server/rpc_server.cpp:647-680 | in every reachable state, if the submitter saw a ring full and its head has moved since, the credit counter is positive, or the dispatcher holds the flag, or it is about to test the count of that pop; any number of rings share the counter |
| `CreditProtocol.NeverStranded` | memrpc/src/client/rpc_client.cpp:947-981 | a submitter that sleeps with no credit and an idle dispatcher sleeps on a ring that is still full |
| `CreditProtocol.CreditHasACause` | memrpc/src/server/rpc_server.cpp:647-680 | from any state without a signal, there is credit or a woken submitter only after a pop made a full ring not full |
| `ResponseCredit.CreditCanBeLost` | memrpc/src/client/rpc_client.cpp:1280-1298 | for every capacity there is a run in which the response writer sleeps, with room in the ring, for credit that nobody will send, until its retry budget ends |
| `ResponseCredit.OnlyCauseOfLoss` | memrpc/src/server/rpc_server.cpp:219-278 | that takes a push that fills the ring between the client's sample and its pop; without one no run strands the writer |
| `ResponseCredit.LossExact` | memrpc/src/client/rpc_client.cpp:1280-1298 | in every run, a pop while the writer sleeps leaves it stranded if and only if the sample said not full and no credit is left |
| `ClientModel.Resolve` | memrpc/src/client/rpc_client.cpp:1642-1654 | resolving a future keeps every earlier resolution, also its own |
| `ClientState.RequestStore.Put` | memrpc/src/client/rpc_client.cpp:185-189 | the request is in the store, all others untouched: what the submit worker's `PutPending` step does to the calls |
| `ClientState.RequestStore.Take` | memrpc/src/client/rpc_client.cpp:191-201 | a request is handed out to one taker and is then gone: the steps `TakeReply` and `PushDone(false)` |
| `ClientState.RequestStore.TakeAll` | memrpc/src/client/rpc_client.cpp:203-213 | every request is handed out exactly once and the store is empty: the drains of the restart and death frames and `TakePending` |
| `ClientState.RequestStore.TakeExpired` | memrpc/src/client/rpc_client.cpp:215-230 | exactly the requests whose deadline has passed are handed out, once each, and those that stay have none or a later one: the watchdog's step |
| `ClientState.RecoveryState.BeginSessionOpen` | memrpc/src/client/rpc_client.cpp:557-563 | with the window over and no session, the step of `EnsureLiveSessionLocked` that goes on to the bootstrap |
| `ClientState.RecoveryState.Enter` | memrpc/src/client/rpc_client.cpp:618-637 | the last step of opening, idle close, ignored death and shutdown; each closes the window with the transition and wakes the waiters |
| `ClientState.RecoveryState.Start` | memrpc/src/client/rpc_client.cpp:606-616 | the step that starts a recovery: with delay a window that ends that much later, without at once recovering |
| `ClientState.RecoveryState.HandleSessionOpenFailure` | memrpc/src/client/rpc_client.cpp:576-588 | the step after a failed open, which gives a recovery up and leaves every other state alone |
| `ClientState.RecoveryState.CooldownActive` | memrpc/src/client/rpc_client.cpp:639-643 | while the window is open the section gives up before it asks for a session |
| `ClientLifecycle.LifecycleInvariant` | memrpc/src/client/rpc_client.cpp:1972-1992 | whenever the lifecycle lock is free before shutdown: a live session implies Active, an open window implies Cooldown and no session, Recovering never lasts beyond a section |
| `ClientLifecycle.RecoveryNeverNests` | memrpc/src/client/rpc_client.cpp:1866-1872 | the failure handling that a recovery runs for each drained request never starts a second recovery inside it |
| `ClientLifecycle.ReentrantFailureIgnored` | memrpc/src/client/rpc_client.cpp:1705-1723 | whatever policy decides there, it leaves session, lifecycle, window and store alone and the recovery goes on |
| `ClientLifecycle.StaleEventsIgnored` | memrpc/src/client/rpc_client.cpp:1705-1830 | once a session is over, whatever ended it, it stays over in every continuation and no failure, idle, external or death event observed for it or naming it changes anything |
| `ClientLifecycle.ControlForward` | memrpc/src/client/rpc_client.cpp:1400-1437 | over every run the control state only moves forward |
| `ClientLifecycle.ClosedIsAbsorbing` | memrpc/src/client/rpc_client.cpp:1938-1942 | once the lifecycle is closed no continuation changes it, opens a session or publishes a session id |
| `ClientDraining.DrainingIsComplete` | memrpc/src/client/rpc_client.cpp:1944-1955 | from the drain of a restart or death section on, over every continuation, no pending request belongs to the closed session and it is never live again |
| `ClientDraining.ClosedSessionIsDrained` | memrpc/src/client/rpc_client.cpp:1779-1816 | when a restart or death section that closed a session has ended, and whenever the lifecycle lock is free from then on, no pending request belongs to that session and it is not live |
| `ClientOutcomes.SectionOutcome` | memrpc/src/client/rpc_client.cpp:1684-1703 | however other threads interleave, when the section of a failure, idle, external, death, connect, transport or shutdown event lets go of the lifecycle lock, session, lifecycle, window and drained sessions are what the event and its decision call for, unless a shutdown has overtaken it; an event that is stale or comes to a client that is not open does nothing |
| `ClientOutcomes.EventDrains` | memrpc/src/client/rpc_client.cpp:1705-1830 | from a failure, idle or external event that restarts and from any engine death: whenever the lock is free and the client still open, no pending request belongs to the session the event was for, and it is not live |
| `ClientOutcomes.EventCooldownGate` | memrpc/src/client/rpc_client.cpp:606-616 | the delay that the event decided is the delay of the recovery: the window ends exactly that long after it starts, and the next request to the bootstrap keeps to it |
| `ClientOutcomes.ConnectOpens` | memrpc/src/client/rpc_client.cpp:1972-1992 | with the window over and no session a connect asks the bootstrap, and the session handed out becomes the live one |
| `ClientCooldown.CooldownGate` | memrpc/src/client/rpc_client.cpp:1972-1992 | after a restart with delay d at time t the first later request to the bootstrap is at or after t+d, unless another recovery replaced the window or an idle close or no-session transition cleared it |
| `ClientFutures.NoFutureIsLost` | memrpc/src/client/rpc_client.cpp:2318-2331 | in every reachable state each accepted call is resolved or held by the queue, a worker, the store, a section or the shutdown |
| `ClientFutures.ShutdownResolvesAll` | memrpc/src/client/rpc_client.cpp:2037-2050 | once the control word says closed every accepted future is resolved, whatever raced with the shutdown |
| `ClientFutures.FirstResolutionStands` | memrpc/src/client/rpc_client.cpp:1642-1654 | over every run a resolved future never changes |
| `ClientStatuses.EveryStatusHasACause` | memrpc/src/client/rpc_client.cpp:1642-1654 | in every run, the status of a resolved future was carried by a reply to its pending request or by the submit worker's failure, or it is a timeout whose deadline had passed, a crash that drained it, a disconnect by a restart that drained it, or the closing of the client |
| `ClientStatuses.ReplyDelivered` | memrpc/src/client/rpc_client.cpp:1214-1240 | a reply taken for a pending request is what the future gets, however long the response worker is held up, unless it was resolved before |
| `ClientStatuses.TimeoutExact` | memrpc/src/client/rpc_client.cpp:215-230 | a stored request expires exactly from its time of storing plus its timeout on, and never without one; it carries the session it was stored for |
| `ClientCalls.AccountedExactlyAccepted` | memrpc/src/client/rpc_client.cpp:2318-2331 | a call is resolved or in somebody's hands if and only if it was accepted |
| `ClientCalls.CallsInOrder` | memrpc/src/client/rpc_client.cpp:908-924 | calls are queued and submitted in the order of acceptance |
| `ClientCalls.CallCompletes` | memrpc/src/client/rpc_client.cpp:2125-2193 | on an open client with a live session a call can go through queue, store and ring, gets the status of its reply, and leaves the store as it was |
| `ClientCalls.OpenIsStarted` | memrpc/src/client/rpc_client.cpp:1400-1410 | an open client has left the first lifecycle state: in eager mode it does not open before its first session |
| `ClientFutures.ResolvedExactlyWhenClosed` | memrpc/src/client/rpc_client.cpp:2037-2050 | after a shutdown has begun, all reachable states with a given control word have every accepted future resolved if and only if the word is closed |
| `ControlRace.ExactlyOneShutdownWins` | memrpc/src/client/rpc_client.cpp:1412-1437 | of any number of calls of `Shutdown` on a running client at most one wins the compare-and-swap loop, and when all are decided exactly one has, whatever else the client does |
| `ControlRace.ShutdownReturnExact` | memrpc/src/client/rpc_client.cpp:2037-2050 | over all runs of the race, calls of `Shutdown` that return after last seeing a given control word leave every accepted future resolved if and only if the word is closed; a loser may return earlier |
| `CompletionQueue.CountIsExact` | memrpc/src/server/rpc_server.cpp:308-333 | the pending count is the queued items plus the one in the writer's hand and never exceeds the capacity |
| `CompletionQueue.CompletedOnceInOrder` | memrpc/src/server/rpc_server.cpp:381-406 | accepted items are completed once each in order, published at most once, and completed as Ok only if their entry entered the ring |
| `CompletionQueue.StopCompletesAll` | memrpc/src/server/rpc_server.cpp:369-379 | when the stop returns all accepted items are completed and nothing is accepted afterwards |
| `CompletionQueue.CompletedAsPushed` | memrpc/src/server/rpc_server.cpp:381-406 | an item is completed with the status of its own push and no other; a plain publication completes as Ok |
| `CompletionQueue.WriterDrainsAll` | memrpc/src/server/rpc_server.cpp:335-379 | the writer leaves only after pushing every accepted item, so the stop finds nothing to fail |
| `ResponseQueue.Completions.constructor` | memrpc/src/server/rpc_server.cpp:308-333 | the object starts in the machine's initial state |
| `ResponseQueue.Completions.Enqueue` | memrpc/src/server/rpc_server.cpp:316-333 | accepted exactly when running and below capacity, at the end of the queue; a run of the machine |
| `ResponseQueue.Completions.Pop` | memrpc/src/server/rpc_server.cpp:335-352 | the oldest item, or nothing exactly when stopped and empty; a step of the machine |
| `ResponseQueue.Completions.Finish` | memrpc/src/server/rpc_server.cpp:308-314 | one item less is pending; a step of the machine |
| `ResponseQueue.Completions.FailPending` | memrpc/src/server/rpc_server.cpp:354-367 | everything left is completed once, in order, as disconnected; a run of the machine |
| `Admission.AdmissionNeverDrops` | memrpc/src/server/rpc_server.cpp:647-680 | capacity seen before a pop still holds at the submit, so no popped request is dropped; tokens count exactly the tasks still owed |
| `Admission.ResetAfterAllTasks` | memrpc/src/server/rpc_server.cpp:862-894 | when the session is reset the dispatcher and all workers have left, no token is out and every popped request was executed |
| `AdmissionOrder.TasksStartInOrder` | memrpc/src/server/rpc_server.cpp:105-136 | each pool keeps its waiting tasks in the order they were popped, behind all that are running |
| `AdmissionOrder.CapacityExact` | memrpc/src/server/rpc_server.cpp:41-75 | a pool can have so many tasks waiting and so many running if and only if neither exceeds its threads, of which it has at least one |
| `AdmissionOrder.ServesAndStops` | memrpc/src/server/rpc_server.cpp:862-894 | a server that has served a request can stop and reset its session |
| `ByteCodec.ValueOfBytes` | memrpc/src/core/byte_writer.cpp:9-12 | reading back the four bytes of a 32-bit value gives the value |
| `ByteCodec.BytesOfValue` | memrpc/src/core/byte_reader.cpp:21-24 | and any four bytes are the encoding of the value they are read as |
| `ByteCodec.ByteWriter.WriteUint32` | memrpc/src/core/byte_writer.cpp:9-12 | appends the encoding of the value |
| `ByteCodec.ByteWriter.WriteString` | memrpc/src/core/byte_writer.cpp:33-37 | appends length and characters, the length taken modulo 2^32 |
| `ByteCodec.ByteReader.ReadBytes` | memrpc/src/core/byte_reader.cpp:31-51 | succeeds exactly when enough is left, reads that stretch and moves past it; a failure moves nothing |
| `ByteCodec.ByteReader.ReadUint32` | memrpc/src/core/byte_reader.cpp:21-24 | the value whose encoding stands at the cursor |
| `ByteCodec.ByteReader.ReadString` | memrpc/src/core/byte_reader.cpp:75-100 | the string whose encoding stands at the cursor, and what a failure leaves of the cursor |
| `Envelope.DecodeEncode` | memrpc/src/core/file_payload.cpp:237-267 | a reference survives encoding, with any trailing bytes, if and only if its path is not empty and its length fits 32 bits |
| `Envelope.EncodeDecode` | memrpc/src/core/file_payload.cpp:247-267 | what decodes is the encoding of what it decodes to, followed by ignored bytes |
| `Envelope.EncodeFilePayloadEnvelope` | memrpc/src/core/file_payload.cpp:237-245 | the writer calls produce the encoding |
| `Envelope.DecodeFilePayloadEnvelope` | memrpc/src/core/file_payload.cpp:247-267 | the cursor reads accept and yield exactly what the decoding says, for all bytes |
| `FilePayload.GeneratedPathInside` | memrpc/src/core/file_payload.cpp:117-121 | a generated path passes the root check if and only if the directory has no ".." |
| `FilePayload.Write` | memrpc/src/core/file_payload.cpp:179-208 | success adds one new file with the payload; failure leaves the directory as it was |
| `FilePayload.Prepare` | memrpc/src/core/file_payload.cpp:269-301 | the transport bytes fit the limit; inline exactly carries the payload and touches no file |
| `FilePayload.PrepareExact` | memrpc/src/core/file_payload.cpp:269-301 | a prepare succeeds exactly when the payload fits, or a file can be made for it under a new name and the envelope fits |
| `FilePayload.ResolveConsumes` | memrpc/src/core/file_payload.cpp:210-235 | a prepared file is consumed by its resolve in every case, and its content returned exactly if it can be read and has the length that was sent |
| `FilePayload.OutsideUntouched` | memrpc/src/core/file_payload.cpp:117-137 | whatever bytes a peer sends, no file outside the directory is removed, changed or returned |
| `FilePayload.PrepareThenResolve` | memrpc/src/core/file_payload.cpp:319-345 | prepare then resolve gives back the payload and the file set, exactly when inline or the directory has no ".." |
| `FilePayload.PrepareThenRemove` | memrpc/src/core/file_payload.cpp:303-317 | prepare then remove restores the file set, under the same exact condition |
| `FilePayload.FailedPrepareAddsNothing` | memrpc/src/core/file_payload.cpp:269-301 | for all directory contents, names and failing system calls, a failed prepare adds no file, if and only if the directory has no ".." or the payload, the limit and the longest name rule out an envelope that does not fit |
| `FilePayload.PayloadDirectory.WriteFilePayload` | memrpc/src/core/file_payload.cpp:179-208 | the statements do what `Write` says |
| `FilePayload.PayloadDirectory.RemoveFilePayload` | memrpc/src/core/file_payload.cpp:123-137 | an acceptable reference is gone afterwards, any other changes nothing |
| `FilePayload.PayloadDirectory.ReadAndRemoveFilePayload` | memrpc/src/core/file_payload.cpp:210-235 | the file is consumed whether or not its content is returned |
| `FilePayload.PayloadDirectory.PrepareForTransport` | memrpc/src/core/file_payload.cpp:269-301 | the statements do what `Prepare` says |
| `FilePayload.PayloadDirectory.RemoveFromTransport` | memrpc/src/core/file_payload.cpp:303-317 | the referenced file is gone after success |
| `FilePayload.PayloadDirectory.ResolveFromTransport` | memrpc/src/core/file_payload.cpp:319-345 | payload and directory are those of the specification, for all kinds and bytes |
| `EndToEnd.Transparency` | memrpc/src/server/rpc_server.cpp:408-457 | over every run and any number of sessions, a reply taken from a response ring is the output of a handler run on that call's own opcode and payload, inline or by file each way, or an error of the framework with no payload |
| `EndToEndDelivery.EveryReplyHasACause` | memrpc/src/server/rpc_server.cpp:408-457 | whatever a caller got was said by a handler run on its own opcode and payload, or is the error of a step that rejected the request, found no handler, or could not read or prepare a payload |
| `EndToEndDelivery.TakeDelivers` | memrpc/src/client/rpc_client.cpp:1123-1146 | taking the response to a pending call gives the caller the status and payload that were written, unless their file cannot be read |
| `EndToEndDelivery.CallRoundTrip` | memrpc/src/server/rpc_server.cpp:532-555 | a call with which nothing goes wrong comes back with its handler's status and output, inline or by file each way, and leaves the files as they were |
| `EndToEndDelivery.FirstReplyStands` | memrpc/src/client/rpc_client.cpp:1214-1240 | the first reply stands however often a call was pushed and answered |
| `EndToEndFiles.RefusedPushLeaks` | memrpc/src/client/rpc_client.cpp:2134-2172 | a run in which a refused push leaves its file behind because of a ".." in the directory |
| `EndToEndFiles.LossLeaks` | memrpc/src/server/rpc_server.cpp:433-440 | for each way in which an entry goes unresolved, a run that leaves its file behind |
| `EndToEndFiles.LeaksExact` | memrpc/src/client/rpc_client.cpp:2134-2172 | over all runs no file is left that nothing on its way refers to if and only if the directory has no ".." and no entry goes unresolved, or no file fits |
| `Layout.AlignRoundsUp` | memrpc/src/core/shm_layout.h:45-60 | aligning in 64-bit arithmetic gives the next multiple |
| `Layout.RegionsInOrder` | memrpc/src/core/shm_layout.h:80-91 | header and rings follow each other, each at the first aligned offset after the one before, with no 64-bit overflow |
| `Layout.SlotInBounds` | memrpc/src/core/shm_layout.h:80-91 | every slot is aligned, behind the header and inside the total |
| `Layout.SlotsDisjoint` | memrpc/src/core/shm_layout.h:80-91 | two slots of the same or of different rings share no byte |
| `Layout.HostHeaderAccepted` | memrpc/src/bootstrap/shared_memory_session_host.cpp:110-142 | attach accepts the host's header if and only if all ring sizes lie between 1 and 2^20 |
| `Layout.AttachExact` | memrpc/src/core/session.cpp:228-312 | attach accepts exactly the headers a host writes for a valid config with ring sizes from 1 to 2^20, at any later point of their use, in a file large enough; a wrong value in any field is refused |
| `Layout.AcceptedHeaderIsSafe` | memrpc/src/core/session.cpp:73-124 | whoever wrote the header, if it keeps its sizes after attach then every slot that a cursor can select lies in the file |
| `Attachment.ExclusiveAttachment` | memrpc/src/core/session.cpp:314-341 | over all runs with process deaths, pid reuse and lock timeouts at most one live session owns the attachment and the header names its process; a second ownership flag can be set only in a session still resetting after its release |
| `Attachment.ReleaseClearsOwnClaim` | memrpc/src/core/session.cpp:381-393 | the claim leaves the header only when its one owner withdraws it, or when a reclaim finds no live owner |
| `Attachment.AcquireFindsNoOwner` | memrpc/src/core/session.cpp:314-341 | a session becomes owner only when no live session is; `AttachmentOutcomes.AttachExact` says when it does |
| `AttachmentOutcomes.AttachExact` | memrpc/src/core/session.cpp:314-341 | however others interleave, an attach has the attachment when it leaves the mutex if and only if the header had no claim or named no living process at its test; otherwise it changed nothing |
| `AttachmentOutcomes.AttachRuns` | memrpc/src/core/session.cpp:314-341 | with the mutex free an attach can run to that end, also over the claim of a dead process |
| `AttachmentOutcomes.ReleaseFrees` | memrpc/src/core/session.cpp:381-393 | a release that gets the mutex leaves a header without claim or pid, and no owner |
| `AttachmentOutcomes.ReleaseRuns` | memrpc/src/core/session.cpp:408-429 | with the mutex free the owner's release can run to its end and clears its flag |
| `AttachmentOutcomes.AbandonedRefusesOnce` | memrpc/src/core/session.cpp:50-63 | a mutex whose holder died refuses one attach, leaves the header alone, and lets the next one run |
| `Attachment.FailedReleaseSticks` | memrpc/src/core/session.cpp:381-393 | a run in which a release that does not get the mutex leaves a claim that names a living process and has no owner |
| `Attachment.ReusedPidSticks` | memrpc/src/core/session.cpp:126-136 | a run in which the claim of a dead process is taken for that of a new process with its pid |
| `Attachment.StuckExact` | memrpc/src/core/session.cpp:314-341 | no run leaves such a claim if and only if no release fails to lock and no pid is reused |
| `Attachment.StuckLocksOut` | memrpc/src/core/session.cpp:314-341 | such a claim refuses every attach in every continuation until the process it names dies |
| `SessionService.EnsureInitialized` | virus_executor_service/src/service/ves_session_service.cpp:116-159 | Ok exactly when a server is in place and no close is under way; a server is started only if there was none |
| `SessionService.AttachSession` | virus_executor_service/src/service/ves_session_service.cpp:176-188 | only success changes the fields, and only the session id |
| `SessionService.NothingOpensWhileClosing` | virus_executor_service/src/service/ves_session_service.cpp:213-245 | while a close is under way there is no host, no server and no session id, and neither part of an open succeeds |
| `SessionService.StartsAfterStop` | virus_executor_service/src/service/ves_session_service.cpp:213-245 | a server starts only after all earlier ones were stopped and their hosts closed, on a host of its own |
| `SessionService.StoppedAtMostOnce` | virus_executor_service/src/service/ves_session_service.cpp:213-245 | servers are stopped and hosts closed once each, in order, under any concurrent opens and closes |
| `SessionService.OpenCanBeOrphaned` | virus_executor_service/src/service/ves_session_service.cpp:131-135 | for every status with which `EnsureSession` can fail, a run that leaves a session open with no server |
| `SessionService.OrphansExact` | virus_executor_service/src/service/ves_session_service.cpp:116-189 | no run leaves a session open without a server if and only if `EnsureSession` never succeeds or never fails |
| `SessionService.AttachOrphansExact` | virus_executor_service/src/service/ves_session_service.cpp:176-188 | in every run, handing out a session leaves it without a server exactly when the service is not initialised at that moment |
| `SessionService.EngineSessionService.constructor` | virus_executor_service/src/service/ves_session_service.cpp:104-109 | the fields of a new service |
| `SessionService.EngineSessionService.EnsureInitializedLocked` | virus_executor_service/src/service/ves_session_service.cpp:116-159 | the statements do what the machine's step does, in all five outcomes |
| `SessionService.EngineSessionService.AttachLocked` | virus_executor_service/src/service/ves_session_service.cpp:176-188 | likewise for the second part of an open |
| `SessionService.EngineSessionService.MarkClosingLocked` | virus_executor_service/src/service/ves_session_service.cpp:213-229 | server and host are handed to one closer, who finds them as they were |

## Left out

- Layout.AcceptedHeaderIsSafe: assumes that no one rewrites sizes or capacities after attach; the source reads the capacity from the shared header at every push and pop.
- The sweep of a broken session while the other process still pushes or pops: `SessionRings` runs it as a whole, and `RingProtocol` has no sweep step.
- Weak memory: atomics are sequentially consistent; that acquire and release orders suffice is not shown.
- `mmap`, `shm_open`, eventfd and poll errors, sockets and descriptor passing: not modelled; an eventfd is a counter and the payload directory a map.
- File system details: creating the directory, partial reads and writes and failing system calls are outcomes given as parameters; unlinking a file of the directory succeeds.
- Progress: condition variables, fairness and the termination of joins are not covered, only safety; in particular it is not claimed that `StopResponseWriter` always returns.
- Policy and event callbacks: pure decisions carried by the labels; callbacks that call back into the client are not covered.
- `Init` that overlaps `Shutdown`, and a second `Init`: the client starts after `Init` has started its threads.
- Entry of the failure, idle, external and death sections: they may start at any time with any observed session, which includes every call the source makes but is not limited to them.
- Timers, heartbeats, retry budgets and their exact values: a wait may end at any time.
- Reports and snapshots of the recovery state, and waiting for it to settle: they read what the model keeps and decide nothing in it.
- Event publishing, `ClearFilePayloads`, the reader's view variants: easy members.
- "Active implies a live session" and at-most-once execution: not promised by the code, not claimed here.
- Control proxy, registry, supervisor, test kit, sample engines, and scripts: not part of this model.
- EndToEnd.Transparency: ring order is over-approximated by taking entries in any order, and the result does not say that a reply arrives.
