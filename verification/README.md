# Verification model of ptyx

`ptyx` connects a child process on a pseudo terminal to a Dart isolate. Bytes travel through several
threads, two native ports, a credit counter and a write queue. This project models those parts in
Dafny 4.11 and proves what they promise over every run. `dafny verify dfyconfig.toml` checks all of it.

## How the model is built

Concurrent parts are transition systems. One action is one critical section, system call, post,
delivery, listener change, acknowledgement, finalizer or thread hand-over; a run is any list of
actions, and an action that is not enabled changes nothing. The theorems therefore quantify over every
interleaving. What a real object does on its own is a class whose methods are proved against the same
step functions the transition systems are made of.

| file | part of the program |
|---|---|
| `Base.dfy` | bytes, saturating arithmetic, folds over chunks |
| `Config.dfy` | option clamps of the C ABI, owned write buffers |
| `Isolate.dfy` | the receiving session object in Dart, as functions and as a class |
| `OutputFlow.dfy` | reader, port, isolate, acknowledgements, external buffers and stop, interleaved |
| `OutputInvariant.dfy` | the invariant of that system, kept by every step |
| `OutputTheorems.dfy` | credit, stream, budget, delay and shutdown theorems |
| `OutputLimits.dfy` | runs that attain the bounds; exactly when the credit counter saturates and the batch outgrows its limit |
| `OutputEvents.dfy` | its error event, its batch clock, its hand-overs, and the isolate of the system as the session object |
| `OutputBuffer.dfy`, `Reader.dfy` | the output buffer and the two read loops as imperative code |
| `WriteQueue.dfy` | the queue under its lock, and the loop that writes one chunk |
| `Writer.dfy` | callers under the runtime lock, queue, condition variable, writer thread and close, interleaved |
| `MonitorWire.dfy`, `Monitor.dfy` | the Linux monitor: pipes, messages, spawn and wait |
| `Environment.dfy` | the environment builder |
| `Exit.dfy` | the exit cell, its threads and signalling, interleaved |
| `ModeWatcher.dfy` | the terminal mode watcher, as a loop and interleaved with the clock and stop |
| `Shutdown.dfy` | closing a session: all the threads above, the runtime lock, callers and the closer, interleaved |

That the reader, the waiter, the watcher and the writer thread never touch the lock of the runtime slot
is read off the source: they are handed the shared inner session and not the slot, and their steps are
modelled so. `ThreadsIgnoreTheLock` only records it; what follows from it, that a close which holds this
lock through all its joins ends, is in `CloseIsBounded` and `CloseCanComplete`.

Atomics are sequentially consistent. Clocks, system calls and whether a port takes a message are inputs.

Points where the obvious statement is not what the code does, and the true one is proved instead:

- In-flight output may pass `max_inflight` by one batch less one byte, and some run does
  (`InflightIsBounded`, `InflightBoundIsAttained`). It keeps to `max_inflight` over all runs exactly when
  acks are not required or the limit is `u64::MAX` (`InflightKeepsLimitIff`).
- `max_inflight` is not clamped, so the counter's addition can saturate and lose credit: exactly when
  `max_inflight - 1 + output_batch_max_bytes` exceeds `u64::MAX` (`CounterIsExactIff`). Releases are
  exact as long as only the isolate acknowledges; saturation is there for acks of bytes never received.
- After stop a flush succeeds without emptying the batch, which then outgrows its limit by up to one
  read less a byte. Some run attains this (`BatchBoundIsAttained`), and the batch keeps to its limit over
  all runs exactly when acks are not required (`BatchKeepsLimitIff`).
- Stop does not silence the exit event at once: after stop one still comes exactly if the reporting
  thread had looked at the flag before it was raised (`EventAfterStopIff`, `EventCanFollowStop`). The same
  holds of an OUTPUT, when acks are required, for a reader past its capacity test (`OutputAfterStopIff`),
  and of a mode event for a watcher past its look.
- At most one writer thread is the work of the runtime lock: `join` empties the handle's slot before it
  waits, and in that window starting a writer is only prevented by the lock (`WindowNeedsTheLock`).
- The monitor ignores whether its writes succeed. The spawn message called invalid is reachable exactly
  when the pid message fails before its first byte and the exit message still goes out
  (`InvalidMessageIff`). A pid message cut later runs together with the exit message, and `spawn` then
  returns a child whose pid is right only by chance (`ChildIsRightIff`). A child that cannot report its
  failed exec at all is taken for a started one (`FailedExecIsReported`).
- Reading the produced environment back recovers it exactly when no inherited key in use is empty or
  holds a `=` (`EnvironmentRecoversIff`).
- A kill looks only at the cached exit; once the result is stored a signal can still be sent exactly
  while a kill has looked and not yet signalled (`LateSignalIff`), and that happens (`SignalCanBeLate`).

## Model

| member | source | states |
|---|---|---|
| OutputTheorems.CreditIsConserved | packages/ptyx/native/src/output.rs:91-124 | in every reachable state of an open session the in-flight counter equals credit reserved by the reader, plus bytes queued in the port, plus parked acks, plus acks being sent; reserving before posting and rolling back a refused post lose nothing |
| OutputTheorems.InflightIsBounded | packages/ptyx/native/src/output.rs:162-195 | for acks of any size from anyone and any limit, the counter stays below the limit plus one batch, and within u64, although the lock is dropped between test and reservation |
| OutputTheorems.BlockedReaderHasCreditor | packages/ptyx/lib/src/impl/session.dart:149-160 | an isolate that may ack parks nothing; whenever the reader of an open session waits for credit, whoever acknowledged what and whatever the limit, an OUTPUT message is queued, acks are being sent, or an unlistened or paused isolate holds parked acks |
| OutputTheorems.WillingWorks | packages/ptyx/lib/src/impl/session.dart:213-231 | each step the isolate takes towards its output lowers a measure and leaves the reader and the stop flag alone |
| OutputTheorems.Drains | packages/ptyx/lib/src/impl/session.dart:56-68 | from every reachable open state the isolate alone can return all posted credit, by deliveries, acks and one listener change, until the counter holds no more than the reader has reserved |
| OutputTheorems.BlockedReaderCanProceed | packages/ptyx/native/src/output.rs:162-182 | a reader blocked on credit in an open session always has a continuation by the isolate alone after which it passes the capacity test |
| OutputTheorems.OutputIsFaithful | packages/ptyx/native/src/reader.rs:54-160 | posted payloads are always a prefix of the bytes read, equal to them at the end of a run unless stop or a refused post cut it short, and each is between one byte and the batch limit |
| OutputTheorems.DeliveryIsFaithful | packages/ptyx/lib/src/impl/session.dart:213-231 | the application sees a prefix of the terminal's bytes, and all of them once the stream closed in an open session that never cancelled; no OUTPUT ever arrives after the stream is done |
| OutputTheorems.ClosedIsPostedOnce | packages/ptyx/native/src/reader.rs:17-51 | CLOSED is attempted exactly once on every exit path, nothing is posted after it, and at most one output error is reported |
| OutputTheorems.BatchIsBounded | packages/ptyx/native/src/output.rs:61-89 | the batch never exceeds limit - 1 + read size, passes the limit only with acks required after stop, and `append` leaves it below the limit unless stop suppressed a flush |
| OutputTheorems.ExternalBudgetIsConserved | packages/ptyx/native/src/message.rs:42-87 | outstanding external bytes equal the lengths of live external buffers plus the one being posted, stay within the budget, and no release ever wraps |
| OutputTheorems.PollMeetsDeadline | packages/ptyx/native/src/output.rs:130-142 | the timeout passed to poll with buffered bytes ends by their deadline, or after a millisecond if less is left, and is zero exactly when the deadline has come; a timeout leads to a flush; the idle interval is used for an empty batch only |
| OutputTheorems.OneOutputAfterStop | packages/ptyx/native/src/output.rs:171-181 | with acks required at most one OUTPUT is posted after stop is raised |
| OutputTheorems.OutputAfterStopIff | packages/ptyx/native/src/output.rs:82-113 | with acks required an OUTPUT can still come after stop if and only if the reader had passed the capacity test and not yet posted |
| OutputTheorems.FewBytesAfterStop | packages/ptyx/native/src/reader.rs:65-108 | with or without acks the payloads posted after stop hold at most a batch less one byte and one read |
| OutputEvents.OneMessageAfterStop | packages/ptyx/native/src/output.rs:82-113 | counting messages in the port: with acks required at most one OUTPUT follows stop, and only from a reader past its capacity test |
| OutputEvents.PlainEndReportsNothing | packages/ptyx/native/src/reader.rs:65-69 | a run that ends by stop or end of stream posts no error event, even if its last flush fails |
| OutputEvents.BrokenEndReportsOnce | packages/ptyx/native/src/reader.rs:85-88 | a run that ends by a failing read or poll posts exactly one error event |
| OutputEvents.RefusedPostIsReported | packages/ptyx/native/src/output.rs:115-124 | a refused post ends the run with exactly one error event, or none if it was the last flush on a plain way out |
| OutputEvents.FailedStartIsReported | packages/ptyx/native/src/reader.rs:25-48 | a reader that cannot begin posts one error event and no output |
| OutputEvents.ClockStands | packages/ptyx/native/src/output.rs:63-65 | the clock of a batch starts with its first byte and is not renewed by later bytes as long as nothing is posted |
| OutputEvents.DelayCallsForFlush | packages/ptyx/native/src/reader.rs:137-146 | a blocking reader flushes after a read if and only if the first byte of its batch has waited the delay |
| OutputEvents.DirectReaderBatches | packages/ptyx/native/src/reader.rs:71-101 | a direct reader reads on until it must poll, flushes on a poll timeout, and not for data that does not fill the batch |
| OutputEvents.GoesExternalIff | packages/ptyx/native/src/output.rs:95-106 | a message goes as an external buffer exactly if enabled and its bytes fit what is left of the budget |
| OutputEvents.FinalizerGivesBack | packages/ptyx/native/src/message.rs:42-61 | a finalizer returns exactly its buffer's bytes to the budget, once |
| OutputEvents.AckLowersTheCounter | packages/ptyx/native/src/runtime.rs:65-74 | an ack lowers the counter by its amount, to zero at the least, if acks count at all |
| OutputEvents.IsolateIsTheObject | packages/ptyx/lib/src/impl/session.dart:56-68 | in every run of the system the isolate is the session object driven by the run's callbacks, so what is proved of the object holds there |
| OutputTheorems.ReaderWindsDown | packages/ptyx/native/src/reader.rs:65-108 | every step of a stopped reader lowers a bound that does not depend on anyone else |
| OutputTheorems.StoppedReaderFinishes | packages/ptyx/native/src/runtime.rs:300-334 | after stop the reader takes boundedly many steps under every interleaving and always has one to take until it is done, so joining it cannot hang on credit or the isolate |
| OutputInvariant.PostedKeeps | packages/ptyx/native/src/output.rs:91-113 | a successful post moves the batch and its credit to the port and keeps stream, sizes, budget and credit in balance |
| OutputInvariant.RollBackKeeps | packages/ptyx/native/src/output.rs:115-124 | rolling back a refused post restores the credit balance exactly |
| OutputInvariant.SendAckKeeps | packages/ptyx/native/src/runtime.rs:65-74 | an ack of the isolate lowers the counter by exactly the credit it gives up, keeping the balance |
| OutputInvariant.DropPeerKeeps | packages/ptyx/native/src/message.rs:80-85 | a refused external buffer is dropped once and its budget returned |
| OutputInvariant.AppendTurnBuffers | packages/ptyx/native/src/output.rs:67-77 | one turn of `append` moves at least one byte, in order, and goes on only with room in the batch |
| OutputInvariant.HandledKeeps | packages/ptyx/lib/src/impl/session.dart:213-231 | handling a message turns exactly its bytes into acks sent or parked, and shows them in order |
| OutputInvariant.NextKeeps | packages/ptyx/native/src/output.rs:82-128 | every atomic step of every thread keeps the whole invariant of output flow control |
| OutputInvariant.Reachable | packages/ptyx/native/src/runtime.rs:138-170 | the invariant holds in every state reachable from a freshly started runtime |
| OutputLimits.CounterIsExactIff | packages/ptyx/native/src/output.rs:184-209 | no reservation ever saturates, and no release either in an open or closed session that only the isolate acknowledges, in any run, if and only if the limit leaves one batch of room below u64::MAX |
| OutputLimits.InflightBoundIsAttained | packages/ptyx/native/src/output.rs:171-193 | for every limit some run reaches limit - 1 + batch, or u64::MAX if that is less, so the bound is the best possible |
| OutputLimits.InflightKeepsLimitIff | packages/ptyx/native/src/output.rs:171-193 | in-flight output keeps to the limit over every run if and only if acks are not required or the limit is u64::MAX |
| OutputLimits.LargestReservation | packages/ptyx/native/src/output.rs:61-95 | every valid configuration has a run that stands before a full-batch reservation one byte under the limit, on both read paths |
| OutputLimits.BatchBoundIsAttained | packages/ptyx/native/src/output.rs:67-89 | with acks required some run leaves limit - 1 + read size in the batch |
| OutputLimits.BatchKeepsLimitIff | packages/ptyx/native/src/output.rs:67-89 | the batch keeps to its limit over every run if and only if acks are not required |
| OutputBuffer.OutputBuffer.WaitForCapacity | packages/ptyx/native/src/output.rs:162-182 | the loop ends as the specified wait does, and acks that are not required or a stop flag that is up end it before the first look |
| OutputBuffer.WaitGoesOn | packages/ptyx/native/src/output.rs:162-182 | the wait goes on exactly while every look finds neither stop nor room, and meanwhile the counter moves by the acks alone |
| OutputBuffer.DecidingLook | packages/ptyx/native/src/output.rs:171-181 | the first look that finds stop or room decides how the wait ends and the counter then |
| OutputBuffer.OutputBuffer.ReserveExternal | packages/ptyx/native/src/output.rs:212-225 | the budget is taken exactly when the length is positive and fits, and otherwise untouched |
| OutputBuffer.OutputBuffer.Flush | packages/ptyx/native/src/output.rs:82-128 | the steps of `flush`, each through the object's own methods, make the specified change and give the specified outcome |
| OutputBuffer.FlushOutcome | packages/ptyx/native/src/output.rs:82-124 | each outcome has its exact condition: blocked while no look finds room or stop, suppressed by stop first, and otherwise sent or refused as the port decides |
| OutputBuffer.FlushTells | packages/ptyx/native/src/output.rs:82-128 | a flush sends the whole batch or none of it, accounts for acks arriving at every point where the lock is free, takes external budget for exactly the buffer it hands over, and gives back all it reserved when refused, losing the batch only if it went as an external buffer |
| OutputBuffer.FlushIsBounded | packages/ptyx/native/src/output.rs:82-128 | a flush keeps the counter within one batch of the limit whatever the acks do in between |
| OutputBuffer.OutputBuffer.Take | packages/ptyx/native/src/output.rs:62-73 | a turn of the loop is the turn of the transition system and moves at least one byte in order |
| OutputBuffer.OutputBuffer.Append | packages/ptyx/native/src/output.rs:61-80 | the loop over the shrinking slice makes the specified change, with the specified outcome and number of flushes, and ends on every input |
| OutputBuffer.AppendKeepsBytes | packages/ptyx/native/src/output.rs:61-80 | appending loses and reorders nothing, and leaves the batch below its limit unless stop suppressed a flush |
| OutputBuffer.AppendOutcome | packages/ptyx/native/src/output.rs:67-77 | it flushes at most once a byte and fails only in a flush that the port refused or that found no room at any look; data that does not fill the batch is only kept |
| OutputBuffer.EarlierFlushesWereSent | packages/ptyx/native/src/output.rs:67-77 | unless stop is seen every flush of a call but the last was taken by the port |
| Reader.ReadUnixFd | packages/ptyx/native/src/reader.rs:54-111 | for every sequence of answers the loop reads, posts and ends as the specified rounds do, and what it posted is a prefix of what it read, all of it on a stop, end or error exit unless stop suppressed a flush |
| Reader.ReadBlocking | packages/ptyx/native/src/reader.rs:113-160 | the same for the blocking reader with its delay check |
| Reader.RoundsTell | packages/ptyx/native/src/reader.rs:65-160 | what a run reads is exactly what the terminal gave in the events it used, but for one at whose head stop was seen; it uses every event unless one ends it, and each ending has its cause in that event: stop, end of stream, error, a refused post, or no credit at any look |
| Reader.RoundsDeliver | packages/ptyx/native/src/reader.rs:65-160 | every byte read is posted in order as far as the run got, and the rest is in the batch while it goes on |
| Reader.WaitingBatchGoesOut | packages/ptyx/native/src/reader.rs:95-101 | after a poll timeout of the direct reader, and after data of the blocking reader whose batch has waited the delay, every byte read is posted, unless stop suppressed the flush or the run ended refused or starved |
| Reader.NothingGoesOutEarly | packages/ptyx/native/src/reader.rs:71-101 | after a ready poll or an interrupted read nothing is posted, and data that does not fill the batch is kept with its clock unchanged |
| Isolate.NativeSession.FlushAcks | packages/ptyx/lib/src/impl/session.dart:149-155 | all parked acks are sent in order and cleared when acking is possible, and none otherwise |
| Isolate.NativeSession.HandleOutput | packages/ptyx/lib/src/impl/session.dart:213-231 | the message handler acts as the isolate step of the transition system, field by field and ack by ack |
| Isolate.NativeSession.ChangeListener | packages/ptyx/lib/src/impl/session.dart:58-63 | listening, resuming and cancelling release the parked acks, pausing does not |
| Isolate.AcksAnswerChunks | packages/ptyx/lib/src/impl/session.dart:149-230 | over every history of messages and listener changes of an open session the acks sent, followed by those parked, are exactly the lengths of the chunks that came before CLOSED, in order |
| Isolate.ListenerIsHeeded | packages/ptyx/lib/src/impl/session.dart:56-68 | over every history of callbacks the listener is the one the last possible change names |
| Isolate.CancelIsHeeded | packages/ptyx/lib/src/impl/session.dart:56-68 | the output counts as cancelled exactly if a possible cancel came |
| Isolate.ShownIsOpenPayloads | packages/ptyx/lib/src/impl/session.dart:213-231 | the stream is given exactly the payloads that came before CLOSED, a cancel or the end of the session, in order |
| Isolate.ParkedIsSincePause | packages/ptyx/lib/src/impl/session.dart:149-160 | the parked acks are exactly the chunks that came since the listener paused, or before it listened |
| Isolate.ClosedSessionIsSilent | packages/ptyx/lib/src/impl/session.dart:97-138 | once closed, whatever messages and listener changes follow, the session acknowledges nothing and shows nothing |
| Writer.InputIsFaithful | packages/ptyx/native/src/writer.rs:139-366 | the terminal receives the accepted chunks in acceptance order without loss or interleaving; close or failure only cuts this short, with at most one successful write after close |
| Writer.WriteIsQueuedIff | packages/ptyx/native/src/writer.rs:139-165 | a caller's chunk is queued and a notification made due if and only if the queue is open, unfailed and has the room; otherwise nothing changes |
| Writer.CallerReachesQueue | packages/ptyx/native/src/writer.rs:39-49 | a caller gets to the queue exactly if the writer runs or can be started, and starts it only if it does not run |
| Writer.AcceptedCanBeWritten | packages/ptyx/native/src/writer.rs:254-366 | from every reachable state of an open session without failure the writer alone can bring everything accepted to the terminal |
| Writer.OneWriteAfterClose | packages/ptyx/native/src/writer.rs:345-366 | once the queue is closed at most one more write succeeds, that of a writer past its look at the flag |
| Writer.WriterTriesAgain | packages/ptyx/native/src/writer.rs:306-366 | a write puts out exactly what the system took; interruptions, a full descriptor and the end of a wait only bring the writer back to its look at the flag |
| Writer.FailureIsTold | packages/ptyx/native/src/writer.rs:284-304 | the stored and posted error has the message of the system's error and its kind, but for a broken pipe while writing, which counts as closed |
| Writer.QueueIsAccounted | packages/ptyx/native/src/writer.rs:160-243 | the byte counter is the sum of the queued chunks and within the limit, at most twice the limit counting the chunk in hand, and empty once closed or failed; no subtraction saturates |
| Writer.NoWakeupIsLost | packages/ptyx/native/src/writer.rs:196-230 | a writer asleep with no notification pending has written everything accepted and the queue is empty, open and sound |
| Writer.FailureIsSticky | packages/ptyx/native/src/writer.rs:175-243 | at most one writer and one write error; after a failure every later call gets the very error that is posted, whatever else happens |
| Writer.LockKeepsCallersOut | packages/ptyx/native/src/runtime.rs:300-334 | while close owns the runtime lock, and after it emptied the slot, no caller gets in: nothing is queued and no writer started; the queue is closed only then |
| Writer.WindowNeedsTheLock | packages/ptyx/native/src/writer.rs:55-67 | between taking the writer's handle and waiting on it, the body of `ensure_started` would start a second writer; only the lock excludes it |
| Writer.ThreadIgnoresTheLock | packages/ptyx/native/src/writer.rs:254-304 | the steps of the writer thread neither depend on the runtime lock and what it protects nor change them |
| Writer.RunKeeps | packages/ptyx/native/src/writer.rs:254-304 | order, wake-up, single-writer, failure and close invariants hold together along every run |
| Writer.LockKeeps | packages/ptyx/native/src/writer.rs:201-216 | one turn of `dequeue` keeps them: the oldest chunk goes whole into the writer's hand |
| Writer.ClosedWriterFinishes | packages/ptyx/native/src/runtime.rs:309-331 | after close the writer makes at most twelve more moves under every interleaving |
| Writer.ClosedWriterIsNeverStuck | packages/ptyx/native/src/runtime.rs:309-331 | a closing writer always has a move, or can be joined |
| Shutdown.ThreadsIgnoreTheLock | packages/ptyx/native/src/runtime.rs:300-334 | as modelled from their loops, no step of a joined thread depends on the runtime lock or touches it |
| Shutdown.CallersAreShutOut | packages/ptyx/native/src/runtime.rs:51-124 | from the moment close owns the lock nothing is queued, no second writer is started and no ack finds the runtime, for ever |
| Shutdown.CloseIsBounded | packages/ptyx/native/src/runtime.rs:300-334 | once everyone is told to stop, the closer and all joined threads together make boundedly many moves under every interleaving, and until close is done one of them has a move that lowers the bound |
| Shutdown.CloseCanComplete | packages/ptyx/native/src/session.rs:71-76 | from every reachable state a close that no system call holds up reaches its end, in no more steps than the bound once everyone is told |
| Shutdown.CloseKillsTheChild | packages/ptyx/native/src/session.rs:71-73 | every close kills the child once: past its kill it has sent exactly one signal or been refused exactly once on a stored result, and it signals if and only if no result was stored when it looked |
| Shutdown.WriterIsWoken | packages/ptyx/native/src/writer.rs:219-230 | once close has notified the writer it is not asleep and never sleeps again |
| Shutdown.AckGetsThrough | packages/ptyx/native/src/runtime.rs:51-76 | an ack that finds the lock free and the runtime in its slot gets through, any other has no effect |
| Shutdown.LittleIsPostedAfterStop | packages/ptyx/native/src/runtime.rs:308-331 | after stop at most one batch less a byte and one read of OUTPUT bytes, in one message if acks are required, one output error, one mode event or error, one exit event, one write error and one successful write after close |
| Shutdown.ClosedIsQuiet | packages/ptyx/native/src/runtime.rs:316-333 | when the runtime is closed all threads have ended and CLOSED was attempted once; from then on nothing is posted, written or accepted, whatever anyone does |
| Shutdown.NextKeeps | packages/ptyx/native/src/runtime.rs:300-334 | every step keeps the order of closing: flags, lock and slot say how far close has got, and whoever was joined has ended |
| WriteQueue.EnqueueAppends | packages/ptyx/native/src/writer.rs:139-194 | an accepted chunk is appended whole; a refused one changes nothing and is handed back; refusal happens exactly on failure, close or lack of room |
| WriteQueue.DequeueTakesOldest | packages/ptyx/native/src/writer.rs:196-217 | dequeueing yields the oldest chunk and waits exactly on an empty, open, sound queue |
| WriteQueue.WriteQueueShared.EnqueueOwned | packages/ptyx/native/src/writer.rs:139-165 | the critical section makes the specified change and keeps the accounting |
| WriteQueue.WriteQueueShared.EnqueueBytes | packages/ptyx/native/src/writer.rs:120-137 | the call that tests, drops the lock to copy and tests again acts as one critical section at one of the two tests, whatever others do in the gap, or fails without effect when the copy cannot be allocated |
| WriteQueue.RefusalLasts | packages/ptyx/native/src/writer.rs:167-194 | an early refusal for failure or close would have been one at the later test too; only a lack of room can have passed, and only because the queue shrank |
| WriteQueue.WriteQueueShared.TryDequeue | packages/ptyx/native/src/writer.rs:201-216 | the critical section makes the specified change and keeps the accounting |
| WriteQueue.WriteQueueShared.Close | packages/ptyx/native/src/writer.rs:219-230 | close drops everything queued and keeps an earlier failure |
| WriteQueue.WriteQueueShared.Fail | packages/ptyx/native/src/writer.rs:232-243 | a failure is stored and drops everything queued |
| WriteQueue.WriteChunk | packages/ptyx/native/src/writer.rs:306-366 | under any partial writes, interruptions and waits exactly the bytes the system took go out, in order; a raised closed flag or an error ends the loop at once, anything else goes on, and nothing is tried once the chunk is out |
| WriteQueue.WrittenIsTheSum | packages/ptyx/native/src/writer.rs:306-366 | what is out is the sum of what the writes took, up to the whole chunk; waits, interruptions and a raised flag add nothing |
| WriteQueue.LoopEndsOn | packages/ptyx/native/src/writer.rs:313-340 | only the closed flag, a failing write and a failing wait end the loop over a chunk |
| MonitorWire.I32RoundTrip | packages/ptyx/native/src/process_linux.rs:488-500 | the four-byte two's complement encoding and its decoding are inverse both ways |
| MonitorWire.FrameRoundTrip | packages/ptyx/native/src/process_linux.rs:304-311 | decoding a message frame gives the message |
| MonitorWire.WriteAll | packages/ptyx/native/src/process_linux.rs:504-517 | under any partial writes and interruptions a prefix is written, the whole exactly on success |
| MonitorWire.SentIsTheSum | packages/ptyx/native/src/process_linux.rs:504-517 | what is sent is the sum of what the writes took, up to the whole; interruptions neither add nor end anything, a failing write ends it |
| MonitorWire.ReadIsExact | packages/ptyx/native/src/process_linux.rs:313-336 | under any splitting the end of stream is reported only at a stream too short, errors only on a failing call, and the loop waits no longer than its bytes and interruptions |
| MonitorWire.TakenIsTheSum | packages/ptyx/native/src/process_linux.rs:313-336 | what is taken is the sum of what the reads gave, up to the length or the end of the stream; interruptions end nothing, a failing call does |
| MonitorWire.ReceiveTakesWhatItRead | packages/ptyx/native/src/process_linux.rs:304-311 | however reading a message ends, exactly the bytes it took are gone from the pipe, and its outcomes are told apart |
| MonitorWire.ReadExact | packages/ptyx/native/src/process_linux.rs:313-336 | the buffer holds exactly the bytes taken from the stream, the rest of it unchanged |
| MonitorWire.DecodesExactly | packages/ptyx/native/src/process_linux.rs:304-336 | for every message sequence and every splitting of every read the decoded messages are a prefix of those encoded, all of them at the end of the stream, which is reached whenever the reads deliver |
| MonitorWire.ReadI32OrEof | packages/ptyx/native/src/process_linux.rs:465-490 | the exec pipe loop computes the report of its stream |
| MonitorWire.ExecPipeDistinguishes | packages/ptyx/native/src/process_linux.rs:465-490 | clean end, whole error number and truncated error number are told apart under every splitting |
| MonitorWire.FailedExecReadIsGarbled | packages/ptyx/native/src/process_linux.rs:465-486 | a failing read of the exec pipe is never a clean end |
| Monitor.WaitForPid | packages/ptyx/native/src/process_linux.rs:445-463 | the wait loop retries interruptions and reports the first final answer |
| Monitor.CodeIsDecoded | packages/ptyx/native/src/process_linux.rs:445-463 | after any interruptions an exit status gives its exit code, a signal gives 128 plus its number with or without core dump, a failed wait gives 1 |
| Monitor.CodeInRange | packages/ptyx/native/src/process_linux.rs:445-463 | every reported code is between 0 and 255 |
| Monitor.RunMonitor | packages/ptyx/native/src/process_linux.rs:338-380 | a completed run leaves exactly one launch error or the pid and then the exit code, each cut where its write broke off |
| Monitor.EventsTellTheWorld | packages/ptyx/native/src/process_linux.rs:338-380 | a run reports the first of its own errors, or what the exec pipe said, and pid and exit code only after a clean end of that pipe |
| Monitor.SpawnTellsLaunch | packages/ptyx/native/src/process_linux.rs:52-78 | with whole messages `spawn` succeeds exactly when the exec pipe ended cleanly, with the right pid, and otherwise reports the launch error |
| Monitor.SpawnOutcome | packages/ptyx/native/src/process_linux.rs:52-78 | how `spawn` ends follows from how the read of the first message ended and from its tag |
| Monitor.FailedExecIsReported | packages/ptyx/native/src/process_linux.rs:360-376 | a failed exec is reported with its error number exactly when that number arrived whole, and taken for a start exactly when none of it did |
| Monitor.InvalidMessageIff | packages/ptyx/native/src/process_linux.rs:71-77 | for every run and every cut of its messages: the invalid-message branch is taken if and only if a launched run's pid message failed before its first byte and the exit message went out whole; exactly when a child, a launch error or no message results |
| Monitor.ChildIsRightIff | packages/ptyx/native/src/process_linux.rs:52-78 | a returned child has the program's pid if and only if the pid message was whole or its lost bytes happen to equal those that took their place; `wait` on it can give a status only if both messages were whole |
| Monitor.WaitTellsExit | packages/ptyx/native/src/process_linux.rs:226-260 | after a successful spawn `wait` returns the program's decoded status, within 0 to 255, under every splitting |
| Monitor.WaitSkipsOthers | packages/ptyx/native/src/process_linux.rs:249-260 | messages of any other kind are skipped up to the exit message, and what follows it stays in the pipe |
| Monitor.WaitFailsWithItsRead | packages/ptyx/native/src/process_linux.rs:249-260 | a failing read or the end of the pipe makes `wait` fail, without forgetting what was taken |
| Monitor.SupervisedChild.ReadExitStatus | packages/ptyx/native/src/process_linux.rs:249-260 | messages are skipped up to the exit message, whose value is cached |
| Monitor.SupervisedChild.Wait | packages/ptyx/native/src/process_linux.rs:226-231 | a cached status is returned unchanged without reading; otherwise the first status read is cached |
| Monitor.SupervisedChild.TryWait | packages/ptyx/native/src/process_linux.rs:206-224 | the same without blocking: nothing is read unless the pipe is readable |
| Environment.LessIsTotal | packages/ptyx/native/src/process_linux.rs:135 | the key order is a strict total order |
| Environment.LessIsLexicographic | packages/ptyx/native/src/process_linux.rs:135 | the order compares the first bytes that differ and puts a proper prefix first |
| Environment.InsertBinds | packages/ptyx/native/src/process_linux.rs:160-163 | inserting rebinds that key and no other |
| Environment.InsertKeepsOrder | packages/ptyx/native/src/process_linux.rs:160-163 | keys stay strictly ordered and unique |
| Environment.BuildEnvironment | packages/ptyx/native/src/process_linux.rs:134-180 | the builder's loops compute the specified environment or the first error |
| Environment.EnvironmentDenotes | packages/ptyx/native/src/process_linux.rs:134-180 | a successful result lists in strict key order the map where a later item beats an earlier one and any inherited variable; Inherit and Clear ignore the items |
| Environment.ClearIsEmpty | packages/ptyx/native/src/process_linux.rs:134-145 | Clear gives the empty environment |
| Environment.InheritTakesNoItems | packages/ptyx/native/src/process_linux.rs:134-145 | Inherit binds each key to the last inherited value, whatever the items are |
| Environment.ReplaceTakesItemsAlone | packages/ptyx/native/src/process_linux.rs:134-165 | Replace binds each key to its last item and does not depend on the inherited variables |
| Environment.OverlayPrefersItems | packages/ptyx/native/src/process_linux.rs:134-165 | Overlay lets the last item for a key win over the last inherited value |
| Environment.ItemIsCutAtSeparator | packages/ptyx/native/src/process_linux.rs:146-159 | an item is cut at its first `=`; without one it has no separator, with one at its head no key |
| Environment.EnvironmentFailsIff | packages/ptyx/native/src/process_linux.rs:146-178 | failure happens exactly on a used item without separator or key, with the first such error, or else when some key has an expected value and it or the value holds a NUL |
| Environment.EnvironmentRecoversIff | packages/ptyx/native/src/process_linux.rs:167-179 | splitting the entries at their first `=` recovers the environment if and only if every inherited key in use is non-empty and free of `=` |
| Environment.EntryRecoversIff | packages/ptyx/native/src/process_linux.rs:146-163 | one printed entry parses back to its binding exactly when its key is non-empty and free of `=` |
| Exit.ExitIsWriteOnce | packages/ptyx/native/src/process.rs:35-66 | the result is stored once, every answer and event is that result, at most one event is posted, and the only signals still to come are those of kills that had already looked |
| Exit.WaitState.Wait | packages/ptyx/native/src/process.rs:43-66 | through any sleeps, needless wake-ups and completions, whoever waits gets the first outcome ever stored, and the cell keeps it |
| Exit.ResultIsTheChilds | packages/ptyx/native/src/process.rs:295-302 | what is stored, answered and reported is the outcome the child ended with first |
| Exit.LateKillsAreRefused | packages/ptyx/native/src/process.rs:211-216 | a kill begun on a stored result returns false and never signals |
| Exit.EarlyKillSignals | packages/ptyx/native/src/process.rs:211-221 | a kill that finds no result signals exactly once, when it comes to it |
| Exit.ReporterFinishes | packages/ptyx/native/src/runtime.rs:250-263 | the reporting thread never sleeps through the result; three steps finish it, with an event exactly when its look finds stop down or it had already looked |
| Exit.EventAfterStopIff | packages/ptyx/native/src/runtime.rs:250-263 | after stop an exit event can still come if and only if the reporter looked at the flag before and stands before its post; it is then one event, of the stored result |
| Exit.EventCanFollowStop | packages/ptyx/native/src/runtime.rs:252-255 | some run posts the exit event after stop was raised |
| Exit.LateSignalIff | packages/ptyx/native/src/process.rs:211-216 | once the result is stored a signal can still be sent if and only if some kill has looked and not yet signalled |
| Exit.SignalCanBeLate | packages/ptyx/native/src/process.rs:211-221 | some run signals after the result was stored |
| ModeWatcher.ModeLoop | packages/ptyx/native/src/runtime.rs:266-286 | the watcher posts exactly the changes among the modes it saw, up to a refused post, and looks at nothing after stop |
| ModeWatcher.ChangesDiffer | packages/ptyx/native/src/runtime.rs:273-278 | posted modes differ from their neighbours and end with the last mode seen |
| ModeWatcher.ModesAreFaithful | packages/ptyx/native/src/runtime.rs:266-298 | interleaved with stop and the clock the watcher posts the changes of what it saw, at most one more event after stop, and no nap outlasts ten milliseconds |
| ModeWatcher.PauseLastsTheInterval | packages/ptyx/native/src/runtime.rs:284-298 | between two looks at the terminal at least the interval passes unless stop is raised, and no pause reaches further than the interval |
| ModeWatcher.PauseEnds | packages/ptyx/native/src/runtime.rs:288-298 | a pause ends when its time has come, in naps of ten milliseconds at most |
| ModeWatcher.OneEventAfterStop | packages/ptyx/native/src/runtime.rs:269-283 | counting events: at most one follows stop, and only from a watcher past its look at the flag |
| ModeWatcher.EventAfterStopIff | packages/ptyx/native/src/runtime.rs:269-283 | after stop a mode or an error can still come if and only if the watcher had passed its look at the flag and not yet posted |
| ModeWatcher.WindsDown | packages/ptyx/native/src/runtime.rs:284-298 | every step of a stopped watcher, naps included, lowers a measure that is six at most |
| Config.OptionsAreMadeSound | packages/ptyx/native/src/abi.rs:534-594 | every option block yields limits under which the other theorems apply, and only an explicit `max_inflight` within one batch of u64::MAX can make the counter saturate |
| Config.OptionsAreHeeded | packages/ptyx/native/src/abi.rs:534-594 | a value within its limits is taken as it is, one beyond them is brought to the nearest, and zero stands for the default |
| Config.OwnedBuffer.WriteOwned | packages/ptyx/native/src/lib.rs:114-132 | the bytes of an owned buffer move to the end of the write queue or stay with the caller, never both or neither: accepted exactly if the length fits the buffer, the session runs and the queue is open, sound and has room |

## Left out

- System calls, clocks, threads and the Dart VM: their answers are inputs; memory ordering is sequential consistency.
- Lock poisoning, thread panics and the error paths of `start_runtime`.
- Overlapping calls of Dart `close()`: one close is modelled.
- Shutdown.CloseIsBounded: system calls and sleeps return and the killed child ends; a reporter that wakes without a result and sleeps again is not counted as a move.
- The stream controller's internals: a listener is unlistened, listening, paused or cancelled, and each change runs the registered callback.
- OutputTheorems.Drains: states that the isolate can return all credit, not that every schedule does; an application that never listens keeps the reader blocked by design.
- Reader.ReadUnixFd: runs one thread with the others' effects as arguments; the free interleaving is the transition system.
- OutputBuffer.OutputBuffer.Append: the clock does not advance within one call.
- Config.OwnedBuffer.WriteOwned: null pointers are not modelled; whether the session is closed and the writer can be started are inputs.
- In `Writer` and `Shutdown`, the session-closed test of `runtime::write` in front of the runtime lock: a caller may have passed it before close began, so every caller may enter.
- Native byte order: little-endian is fixed, as both ends of a pipe are on one machine.
- Signalling between reaping and caching the exit, and pid reuse: the code does not make that window atomic.
- Spawning on macOS and Windows, terminal sizes and names, option parsing, status strings, last-error storage, build hooks and generated bindings.
