# A verified model of a fiber-based server runtime

The repository is a C++ server runtime: a fiber scheduler with an epoll-driven I/O manager and timers,
semaphores and worker groups on top, a chunked `ByteArray` with its codecs and message formats, a
per-second `Tracker`, and a few text codecs. This project models the parts with the most state and
proves what they promise over every input, every run and every reachable state.

How it is laid out:

- `FlatBuffer`, `Codec`, `Records` are a flat byte sequence with a position and the record format on it.
  `ByteArrays` is the linked list of chunks with its cursor node, proved to behave like the flat
  sequence; `BufferCodec`, `Messages` and `GrpcFraming` write and read through it.
- `Timers` gives every timer operation as a function on the ordered set; `TimerManagers` is the object
  updated in place; `TimerRuns` and `TimerWake` are whole runs, the second with the idle worker, the
  tickle pipe and any number of inserting threads.
- `Events` has the operations on event contexts, which have an identity of their own; `EventRuns` runs any
  number of threads over them, one step per locked region; `EventManager` is the object updated in place.
  `IoWait` is the wait inside `do_io`, `IoTimeouts` what its timeouts may do over whole runs, and
  `IoRefinement` matches each of its pieces with an operation of `Events` or `Timers`, and `IoRuns` whole
  runs. `CleanExit` puts timers, events and the run queue together and asks what is left when a worker
  leaves.
- `Scheduler`, `FiberStates` and `RunQueues` are the run queue, the worker loop and the fiber states.
- `Semaphores`, `FiberSemaphores`, `WorkerGroups`, `BlockingQueues` are the synchronisation layer.
- `TrackerWindows` and `Trackers` are the ring of buckets against the log of increments.
- `Base64`, `UrlCodec`, `QueryParams` are the text codecs, over the character sets of `Characters`.
  `Options` is shared by all.

Concurrency is modelled as steps. A step is one locked region of the source; the hand-off of a fiber
(state write, context swap, the worker's bookkeeping) is one step; in `IoWait` a step is a task slice
between two yields. Clocks, epoll results, system-call results and addresses are parameters, so lemmas
hold for all of them unless they say otherwise. 32- and 64-bit wrap-around is written out where the
source can reach it.

## What the code does that its callers may not expect

- An empty string whose body is read exactly at capacity follows a null cursor
  (`Records.RecordRoundTrip` says exactly when).
- `contextResize` may shrink the context table when another thread resized between the size test and
  the resize. A context that falls out of the table this way is an orphan: it stays counted and epoll
  still reaches it, but no descriptor leads to it (`EventRuns.RaceOrphans`,
  `EventRuns.OrphanFires`). The count agrees with the table exactly when no orphan is armed
  (`Events.TableExactIff`).
- `idle` decrements the pending count for every event it acts on, also for one that `triggerEvent`
  refuses (`Events.ReportMissesIff`; `EventRuns.ReportMisses` is a run where the count wraps below 0).
  After such a miss one more registration brings the count to 0 while its event is armed, and a worker
  that stops passes its pending test over that event (`CleanExit.PendingTestHides`;
  `CleanExit.MissHidesEvent` is such a run).
- `refresh` re-inserts its timer without a tickle. When its deadline sum wraps, or the clock went back,
  the timer can come before the deadline that the idle worker waits for and nobody tells the worker
  (`TimerWake.NoLostWakeupIff`; `TimerWake.WrappingRefreshLoses` is such a run). No other operation
  loses a wake-up.
- The `(int)` cast of the timer timeout makes `epoll_wait` wait without bound for some far deadlines
  (`TimerWake.EpollTimeoutIff`).
- `detectClockRollover` subtracts an hour and wraps during the clock's first hour
  (`Timers.RolloverIsAnHourBack`); deadline sums wrap too (`TimerRuns.DeadlineAheadIff`).
- A timeout callback can take another waiter's registration on the same descriptor and direction when
  its own call is alive but no longer registered, being queued already or deleted
  (`IoTimeouts.TimeoutTakesIff`; `IoTimeouts.TimeoutTakesForeign` is such a run).
- `IOManager::stopping` looks at the timers and the pending count before the stop flag. A timer or an
  event registered by another thread between these tests is left behind, even though nothing is
  registered after `stop` (`CleanExit.ExitLeaves`; `CleanExit.TimerSlips` and `CleanExit.EventSlips`
  are such runs).
- A fiber that is scheduled twice is run by two workers at once (`FiberStates.ScheduledTwiceRunsTwice`);
  `Scheduler.Polite` lists what programs have to keep to, and nothing less will do
  (`FiberStates.PoliteRunIff`).
- Permits that `waitAll` took are never returned, so a later `schedule` on the group parks forever
  (`WorkerGroups.NothingAfterBarrier`); a second `waitAll` returns at once.
- `recvMessageData` needs the whole five-byte header in the first data frame and the message end on a
  data-frame boundary (`GrpcFraming.ReassemblyIff`).
- `Tracker::inc` multiplies two 32-bit values, so a key far outside the dimensions can land in another
  dimension's bucket (`TrackerWindows.StrayKeyIff`) and stays in its totals
  (`TrackerWindows.WindowAgreesIff`).
- A query key may contain `&`; only `=` is cut (`QueryParams.PairsIff`). Keys are compared up to the first
  NUL.

## Model

| member | source | states |
|---|---|---|
| `FlatBuffer.GrownIsLeast` | chat/bytearray.cc:528-557 | the capacity after growing is the least number of whole chunks, no fewer than before, that holds the bytes to be written |
| `FlatBuffer.WriteTwice` | chat/bytearray.cc:372-405 | two writes in a row are one write of the concatenation, growth included |
| `FlatBuffer.SeekReads` | chat/bytearray.cc:407-482 | after seeking forward and back, exactly the bytes up to the furthest of the two ends can be read, from the position sought, unless it is at capacity |
| `ByteArrays.ByteArray.CursorIsQuotient` | chat/bytearray.cc:372-434 | in a valid buffer the cursor is null exactly at capacity and otherwise is node position / base size |
| `ByteArrays.ByteArray.constructor` | chat/bytearray.cc:36-45 | a new buffer is one chunk, empty, at position 0 |
| `ByteArrays.ByteArray.Over` | chat/bytearray.cc:47-58 | a buffer over caller storage shows exactly that storage as its data |
| `ByteArrays.ByteArray.AddCapacity` | chat/bytearray.cc:528-557 | whole chunks are appended, all bytes, position and size stay, and the cursor is not null afterwards |
| `ByteArrays.ByteArray.Write` | chat/bytearray.cc:372-405 | on the flat view a write replaces exactly the slice at the cursor, grows as needed and moves position and size |
| `ByteArrays.ByteArray.Read` | chat/bytearray.cc:407-434 | a read returns the flat slice and advances, or throws with nothing changed; at the exact end it follows a null cursor |
| `ByteArrays.ByteArray.SetPosition` | chat/bytearray.cc:466-482 | seeks on the flat view, extending the size, or refuses past capacity; the cursor is found again |
| `ByteArrays.ByteArray.Clear` | chat/bytearray.cc:356-370 | back to one chunk, position and size 0, the first chunk's storage kept |
| `ByteArrays.ByteArray.ToString` | chat/bytearray.cc:559-567 | returns exactly the unread flat bytes and changes nothing |
| `ByteArrays.ByteArray.GetReadBuffers` | chat/bytearray.cc:584-613 | the pieces cover exactly the requested flat range from the cursor, clamped to what is readable |
| `ByteArrays.ByteArray.GetWriteBuffers` | chat/bytearray.cc:651-679 | the pieces cover exactly the flat range to be written, after growing |
| `ByteArrays.ByteArray.GatherIsFlat` | chat/bytearray.cc:584-613 | the concatenation of such pieces is the flat slice |
| `Codec.FixedIsPortable` | chat/bytearray.cc:84-132 | the bytes of a fixed-width integer depend on the wanted order only, never on the machine |
| `Codec.FixedRoundTrip` | chat/bytearray.cc:228-270 | reading a fixed-width integer back in the same order gives it back |
| `Codec.FixedLayout` | chat/bytearray.cc:84-132 | a fixed-width integer is its base-256 digits, least significant first in little-endian order and last in big-endian order |
| `Codec.VarintLayout` | chat/bytearray.cc:166-190 | a varint is the base-128 digits, least significant first and none too many, each but the last with its top bit set |
| `Codec.VarintLength` | chat/bytearray.cc:166-190 | a value below 2^(7k) takes at most k bytes |
| `Codec.Zigzag32RoundTrip` | chat/bytearray.cc:135-159 | decoding undoes 32-bit zigzag encoding, for every bit pattern |
| `Codec.Zigzag64RoundTrip` | chat/bytearray.cc:135-159 | decoding undoes 64-bit zigzag encoding, for every bit pattern |
| `Codec.Zigzag32Onto` | chat/bytearray.cc:152-154 | encoding undoes 32-bit decoding, so the code is a bijection |
| `Codec.Zigzag64Onto` | chat/bytearray.cc:156-158 | encoding undoes 64-bit decoding |
| `Codec.Zigzag32Doubles` | chat/bytearray.cc:135-141 | signed n goes to 2n, or to -2n - 1 when negative |
| `Codec.Zigzag64Doubles` | chat/bytearray.cc:143-149 | the same for 64 bits |
| `Records.ValueBack` | chat/bytearray.cc:228-354 | one value read back is the value written, the cursor right behind it, except an empty string at capacity |
| `Records.NumberLayout` | chat/bytearray.cc:84-190 | an integer takes 1, 2, 4 or 8 bytes of its digits in the wanted order, or its base-128 groups, of the zigzag number if signed |
| `Records.StringLayout` | chat/bytearray.cc:204-222 | a string is its length in 2, 4 or 8 bytes of the wanted order, or in base-128 groups, and then its bytes |
| `Records.RunIsOneWrite` | chat/bytearray.cc:84-222 | any run of value writes is one write of their encodings |
| `Records.RecordRoundTrip` | chat/bytearray.cc:92-354 | a list of mixed values, for every chunk size and starting offset, comes back with the cursor at the end if and only if it does not end in an empty string on a chunk boundary at or past the old capacity |
| `Records.EmptyStringAtCapacityFails` | chat/bytearray.cc:407-413 | the excluded case happens: a concrete buffer where reading follows the null cursor |
| `BufferCodec.WriteFixed` | chat/bytearray.cc:84-132 | writes the bytes of the integer in the wanted order at the cursor |
| `BufferCodec.ReadFixed` | chat/bytearray.cc:228-270 | agrees with the flat reader in value, failure and position |
| `BufferCodec.WriteVarint` | chat/bytearray.cc:166-190 | writes the LEB128 digits, which fit the 5- or 10-byte scratch buffer |
| `BufferCodec.ReadVarint` | chat/bytearray.cc:278-308 | the shift-and-or loop agrees with the flat reader, also on overlong and truncated input |
| `BufferCodec.WriteString` | chat/bytearray.cc:204-222 | writes the narrowed length prefix and the bytes |
| `BufferCodec.WriteValue` | chat/bytearray.cc:84-222 | each kind of value is written as its encoding |
| `BufferCodec.ReadValue` | chat/bytearray.cc:228-354 | each kind of value is read as on the flat buffer, failures included |
| `Messages.SerializeRequest` | chat/protocol.cc:20-25 | writes type 1 and the two fields in order |
| `Messages.SerializeResponse` | chat/protocol.cc:40-47 | writes type 2, three fields and the prefixed text in order |
| `Messages.SerializeNotify` | chat/protocol.cc:61-65 | writes type 3 and the field |
| `Messages.MessageLayout` | chat/protocol.cc:20-65 | a request, response or notify takes 9, 17 + text length or 5 bytes: type byte 1, 2 or 3, each 32-bit field at its offset, the text behind its 4-byte length |
| `Messages.ParseRequest` | chat/protocol.cc:27-31 | reads the fields in order, or fails where the buffer fails |
| `Messages.ParseResponse` | chat/protocol.cc:49-55 | reads the fields in order, or fails where the buffer fails |
| `Messages.ParseNotify` | chat/protocol.cc:67-70 | reads the field, or fails where the buffer fails |
| `Messages.MessageRoundTrip` | chat/protocol.cc:20-70 | type byte and parsing give any serialized message back, if and only if it is not a response with empty text ending on a chunk boundary at or past the old capacity |
| `GrpcFraming.PackData` | chat/grpc/grpc_protocol.cc:10-26 | the 4096-byte-chunk buffer holds exactly the frame |
| `GrpcFraming.EncodeGrpcBody` | chat/grpc/grpc_util.cc:36-56 | the body array, written in place, is exactly the same frame |
| `GrpcFraming.DecodeGrpcBody` | chat/grpc/grpc_util.cc:17-34 | agrees with parsing flag, big-endian length and rest, on every body |
| `GrpcFraming.FrameDecodes` | chat/grpc/grpc_util.cc:17-56 | decoding a frame of fewer than 2^32 bytes gives its length and data |
| `GrpcFraming.FrameIsPortable` | chat/grpc/grpc_protocol.cc:10-26 | on any machine a frame is a zero byte, the length in 4 bytes, most significant first, and the data |
| `GrpcFraming.RecvMessageData` | chat/grpc/grpc_stream.cc:31-65 | the receive loop computes the reassembly of the delivered frames |
| `GrpcFraming.FlagDecides` | chat/grpc/grpc_stream.cc:31-65 | what is received counts as compressed exactly when the first byte of the stream's first frame is not 0 |
| `GrpcFraming.ReassemblyIff` | chat/grpc/grpc_stream.cc:31-53 | however the stream is cut, the message received is the data sent if and only if the first data frame holds the header and a data frame ends where the message ends |
| `Timers.AddKeeps` | chat/timer.cc:71-76 | adding keeps order and membership laws, and the timer is in the set |
| `Timers.CancelKeeps` | chat/timer.cc:22-31 | a successful cancel found its entry, removed it and left every other timer alone |
| `Timers.RefreshKeeps` | chat/timer.cc:33-42 | refreshing moves the deadline of an armed timer only, and keeps everyone's membership |
| `Timers.ResetKeeps` | chat/timer.cc:45-62 | resetting changes interval and deadline of an armed timer only, and keeps everyone's membership |
| `Timers.NextTimerIs` | chat/timer.cc:89-98 | the answer is 0 exactly when a timer of the set is due, else the time to the least deadline of the set, and the maximum for an empty set |
| `Timers.AddDeadline` | chat/timer.cc:15-18 | a new timer is due one interval after the clock reading, as a 64-bit sum |
| `Timers.RefreshDeadline` | chat/timer.cc:33-42 | so is a refreshed one, and nothing else of it changes |
| `Timers.ResetDeadline` | chat/timer.cc:45-62 | a reset one takes its new interval from the clock reading or, if asked to keep it, from the start of its present period |
| `Timers.ExpireDeadline` | chat/timer.cc:120-131 | a recurring timer handed out is due again one interval after the clock reading, a one-shot one is disarmed |
| `Timers.RolloverIsAnHourBack` | chat/timer.cc:154-161 | a rollback is reported exactly when the clock went back more than 3600000 ms, or at all during the first hour |
| `Timers.ExpiryIsExact` | chat/timer.cc:100-133 | exactly the timers due (all on rollback) are handed out, earliest first; recurring ones are re-armed, one-shots disarmed, others untouched |
| `TimerManagers.TimerManager.CancelTimer` | chat/timer.cc:22-31 | the object's state and result are those of the specified cancel, and the erased entry was there |
| `TimerManagers.TimerManager.RefreshTimer` | chat/timer.cc:33-42 | as the specified refresh |
| `TimerManagers.TimerManager.ResetTimer` | chat/timer.cc:45-62 | as the specified reset, with whether a tickle is due |
| `TimerManagers.TimerManager.AddTimer` | chat/timer.cc:71-76 | as the specified add, with whether a tickle is due |
| `TimerManagers.TimerManager.AddLocked` | chat/timer.cc:140-151 | inserts in order, and asks for a tickle exactly when the timer became first and none was asked for since the last look |
| `TimerManagers.TimerManager.GetNextTimer` | chat/timer.cc:89-98 | state and answer are those that `Timers.NextTimerIs` pins down: 0 if due, the distance otherwise, the maximum if none |
| `TimerManagers.TimerManager.ListExpiredCb` | chat/timer.cc:100-133 | the probe search and the re-arming loop give the specified state and callbacks |
| `TimerRuns.TimersAreExact` | chat/timer.cc:6-62 | in every reachable state a timer with a callback is in the set iff the callback is set, a one-shot fired at most once, nothing fires after a successful cancel |
| `TimerRuns.FiringsAreSpaced` | chat/timer.cc:100-133 | under a monotone clock two firings of a timer are at least its interval apart, through refreshes and resets |
| `TimerRuns.DeadlineAheadIff` | chat/timer.cc:33-42 | a deadline is one interval ahead exactly when the sum does not wrap |
| `TimerWake.StepCoversIff` | chat/iomanager.cc:250-308 | the worker waits until its clock reading plus the answer of getNextTimer; a step of worker, inserters, pipe or clock keeps "an armed timer earlier than that implies a signal" if and only if it is not a refresh that puts a timer before it with no signal on its way; wrapping sums and clock jumps included |
| `TimerWake.NoLostWakeupIff` | chat/timer.cc:33-42 | over any run that holds in every state if and only if no refresh of the run loses a wake-up |
| `TimerWake.NoLostWakeup` | chat/timer.cc:140-151 | with a clock that does not go back and deadline sums that do not wrap, in every reachable state, if the worker waits past the deadline of an armed timer, a byte is in the pipe or an inserter is about to write one |
| `TimerWake.WrappingRefreshLoses` | chat/timer.cc:33-42 | a six-step run where a refresh whose sum wraps puts its timer before the held deadline with no signal |
| `TimerWake.SignalArrives` | chat/iomanager.cc:250-256 | such a signal becomes a byte by the inserters' own next steps |
| `TimerWake.EpollTimeoutIff` | chat/iomanager.cc:281-295 | the timeout handed to epoll is the distance, at most 5000, and 5000 without a timer, for distances below 2^31; it is bounded by 5000 and by the distance exactly when there is no timer or the low 32 bits of the distance are below 2^31; otherwise it is unbounded |
| `Events.ResizeIs` | chat/iomanager.cc:89-98 | the table gets the given size, its entries that stay lead where they led, each new slot leads to a new and empty context of its own |
| `Events.ResizeKeeps` | chat/iomanager.cc:89-98 | a resize, either way, keeps the accounting over all contexts ever created |
| `Events.ArmFills` | chat/iomanager.cc:114-144 | arming succeeds exactly when the bit is clear and epoll_ctl succeeds, and then sets that bit, for the waiter given, and nothing else |
| `Events.DeleteDrops` | chat/iomanager.cc:155-176 | deleting succeeds exactly when the bit is set and epoll_ctl succeeds, and then clears that bit and wakes nobody |
| `Events.CancelFires` | chat/iomanager.cc:186-204 | cancelling an event clears its bit and queues its waiter, exactly when it was registered and epoll_ctl succeeds |
| `Events.CancelBothFires` | chat/iomanager.cc:215-243 | cancelling all queues the waiters of the registered events, the reader first |
| `Events.ReportFires` | chat/iomanager.cc:314-348 | a report wakes the waiter of an event exactly when the event is registered and the report has its own flag or the error or hang-up flag; other events, and everything when epoll_ctl fails, stay |
| `Events.ArmKeeps` | chat/iomanager.cc:114-144 | arming a context, in the table or not, keeps the accounting; a clear bit means an empty context, so the assertion cannot fail |
| `Events.AddAloneKeeps` | chat/iomanager.cc:100-145 | the three regions of addEvent in a row keep the accounting |
| `Events.DeleteKeeps` | chat/iomanager.cc:155-176 | deleting keeps the accounting |
| `Events.CancelKeeps` | chat/iomanager.cc:186-204 | cancelling keeps the accounting |
| `Events.CancelBothKeeps` | chat/iomanager.cc:215-243 | cancelling both events keeps the accounting and leaves the context empty |
| `Events.ReportKeeps` | chat/iomanager.cc:319-348 | handling any report keeps the accounting, misses counted |
| `Events.ReportMissesIff` | chat/iomanager.cc:326-348 | a report costs one count exactly when it names an unregistered event together with a registered one and epoll_ctl succeeds |
| `Events.TableExactIff` | chat/iomanager.cc:89-98 | the counter is the number of bits in the table exactly when the orphans' bits and the misses make up for each other; without misses, exactly when no orphan is armed |
| `EventRuns.StepKeeps` | chat/iomanager.cc:100-244 | every locked region of every thread, and every report, keeps the accounting and the contexts in hand |
| `EventRuns.GrowIs` | chat/iomanager.cc:107-111 | in any run, an addEvent that was out of range makes the table one and a half times its descriptor and fetches that descriptor's context |
| `EventRuns.AccountingHolds` | chat/iomanager.cc:100-348 | for every interleaving of look-ups, resizes and acting on contexts, and every report: the counter is the number of bits over all contexts less the misses, contexts match bits, registered = scheduled + deleted + armed |
| `EventRuns.TableAccountingIff` | chat/iomanager.cc:100-348 | in every reachable state the table alone agrees with the counter exactly when orphans and misses make up for each other, and so whenever no resize shrank and every report fitted |
| `EventRuns.RaceOrphans` | chat/iomanager.cc:100-113 | runs for any two descriptors far enough apart where a resize orphans a context before or after it is armed: the count is 1 and no table bit is set |
| `EventRuns.OrphanFires` | chat/iomanager.cc:319-348 | an armed orphan is still fired by a report, which names the context itself |
| `EventRuns.ReportMisses` | chat/iomanager.cc:336-348 | a run of two registrations, a deletion and a late report after which the counter is below 0 |
| `EventManager.FdContext.TriggerEvent` | chat/iomanager.cc:32-50 | clears the bit and moves the callback or fiber out, exactly once |
| `EventManager.IOManager.FindContext` | chat/iomanager.cc:148-153 | the look-up under the table's lock gives the descriptor's context, or none exactly when out of range |
| `EventManager.IOManager.ContextResize` | chat/iomanager.cc:89-98 | the table is cut, or extended by new contexts, to the given size; every context is kept as it was |
| `EventManager.IOManager.GrowAndFetch` | chat/iomanager.cc:107-111 | the second region of addEvent: resize and fetch |
| `EventManager.IOManager.ArmContext` | chat/iomanager.cc:114-144 | the last region of addEvent, on whatever context was fetched, as specified |
| `EventManager.IOManager.HandleReport` | chat/iomanager.cc:312-348 | the handling of one reported context is the report whose effect `Events.ReportFires` states |
| `EventManager.IOManager.AddEvent` | chat/iomanager.cc:100-145 | with nobody in between, the three regions in a row, result included |
| `EventManager.IOManager.DelEvent` | chat/iomanager.cc:147-177 | as specified on the descriptor's context, or false when out of range |
| `EventManager.IOManager.CancelEvent` | chat/iomanager.cc:179-205 | as specified on the descriptor's context, or false when out of range |
| `EventManager.IOManager.CancelAll` | chat/iomanager.cc:207-244 | as specified on the descriptor's context, or false when out of range |
| `IoWait.StepKeeps` | chat/hook.cc:104-142 | every task slice, expiry, trigger, delete and timeout keeps the invariant of parked fibers, contexts, queue, timers and owners |
| `IoWait.ResumesOnce` | chat/hook.cc:104-142 | in every reachable state a parked fiber is armed, or queued once, or its registration was deleted, and never two of these; others are neither armed nor queued |
| `IoWait.ResumedReports` | chat/hook.cc:132-141 | in any run, a resumed call that its timeout marked reports the timeout, with its fiber not parked and no slot newly armed; one that is not marked does not, and finishes, fails or waits again as the system call and addEvent turn out |
| `IoWait.BeginEnds` | chat/hook.cc:104-132 | so does the first slice of a call |
| `IoWait.TimeoutMarks` | chat/hook.cc:116-121 | in any run, a timeout marks its call exactly when the call has not returned, clears its slot exactly when the call was not marked before and epoll_ctl succeeds, and changes no other call or slot |
| `IoWait.TimeoutWakes` | chat/hook.cc:116-121 | and a fiber that waits for that call is then queued, once, and still parked for it |
| `IoWait.FiredIsQueued` | chat/iomanager.cc:32-50 | readiness, cancel or timeout moves an armed fiber to the queue, once |
| `IoWait.TimeoutIsOwn` | chat/hook.cc:115-139 | the converse: a call reports a timeout only after one of its own timers expired and ran |
| `IoWait.TimedOutIs` | chat/timer.cc:78-83 | between slices both locks of a timeout callback succeed exactly while the call is live, and its shares are gone again at the end |
| `IoTimeouts.LockIffLive` | chat/hook.cc:101-119 | in every reachable state a lock on a call's timer_info succeeds exactly while the call has not returned |
| `IoTimeouts.StaleTimeoutsAreHarmless` | chat/hook.cc:115-141 | dropping all timeout callbacks run after their call returned from any run leaves a run with the same calls and results, registrations, parked and queued fibers, step for step |
| `IoTimeouts.TimeoutTouchesOwn` | chat/hook.cc:116-121 | a timeout callback changes no other call and no registration but the one on its call's slot |
| `IoTimeouts.TimeoutTakesIff` | chat/hook.cc:116-121 | it takes another waiter's registration exactly when its call is live, unmarked and not registered itself, and the slot was registered again |
| `IoTimeouts.TimeoutTakesForeign` | chat/hook.cc:104-142 | five-step runs where that happens, after readiness and after a deletion |
| `IoRefinement.FireRefinesCancel` | chat/iomanager.cc:179-205 | firing a slot is cancelEvent on its context: the same waiter goes to the same queue |
| `IoRefinement.DeletedRefinesDelete` | chat/iomanager.cc:147-177 | deleting under a waiter is delEvent on its context |
| `IoRefinement.ParkRefinesArm` | chat/hook.cc:124-132 | parking is addEvent on the context of the slot |
| `IoRefinement.WaitsInOneContext` | chat/hook.cc:124-132 | a waiting fiber sits in exactly one context, that of its own slot, and is not queued |
| `IoRefinement.StopRefinesCancel` | chat/hook.cc:133-135 | stopping a wait's timer is Timer::cancel, which succeeds exactly while it is armed |
| `IoRefinement.AddRefinesAdd` | chat/timer.cc:85-87 | the condition timer is a one-shot timer of the manager |
| `IoRefinement.ExpireRefinesListExpired` | chat/timer.cc:100-133 | listExpiredCb hands exactly the due condition timers to the queue |
| `IoRuns.RunRefines` | chat/hook.cc:104-142 | every run of the wait, of fewer than 2^64 steps and on any number of descriptors, is a run of the event and timer operations that the source calls in each step, from an idle manager, and the two agree after every step |
| `IoRuns.OneDue` | chat/timer.cc:100-133 | there, with the step number as the clock, listExpiredCb hands out exactly the timer of the step |
| `CleanExit.SentinelIff` | chat/timer.cc:89-98 | the "no timer" answer means an empty set, or the largest deadline seen at clock 0 |
| `CleanExit.TimerMembers` | chat/timer.cc:22-76 | between expiries only addTimer puts a timer into the set and only a successful cancel takes one out |
| `CleanExit.EventMembers` | chat/iomanager.cc:100-244 | only a successful arming sets a bit, and deleting and cancelling clear exactly theirs |
| `CleanExit.StepKeeps` | chat/iomanager.cc:263-278 | what the leaving worker has seen and passed over, corrected by what others did since, is how things are, whatever they do and whatever is reported |
| `CleanExit.ExitLeaves` | chat/iomanager.cc:263-278 | in all runs, after the exit the timers in the set and the armed events are exactly those the tests passed over or others added since, and not taken back, the queued jobs exactly those queued since, and the exit is clean if and only if there are none |
| `CleanExit.TimerTestHides` | chat/iomanager.cc:263-266 | a passed timer test passes over timers exactly when the clock reads 0 and there are any, the earliest with the largest deadline |
| `CleanExit.PendingTestHides` | chat/iomanager.cc:263-266 | a passed pending test passes over as many armed events as there were misses, modulo 2^64, and with fewer than 2^64 registrations over exactly the misses modulo 2^64 |
| `CleanExit.ExitIsClean` | chat/iomanager.cc:263-278 | if everything was registered and scheduled in time, no report named an unregistered event beside a registered one, the clock read more than 0 at the timer tests and fewer than 2^64 events had been registered at the pending tests, then queue and timers are empty, no task is active and every context is empty |
| `CleanExit.JobsStay` | chat/scheduler.cc:154-216 | in any run, jobs leave the run queue one at a time by being taken, and scheduled tasks and tasks that yield to be run again go to its end |
| `CleanExit.ExpiryQueues` | chat/iomanager.cc:297-302 | in any run, exactly one job for each timer that is due, or in the set after a rollback, is queued |
| `CleanExit.FiredIsQueued` | chat/iomanager.cc:32-50 | in any run, exactly the tasks that event operations and reports hand over are queued, in order |
| `CleanExit.TimerSlips` | chat/iomanager.cc:263-266 | a run from the start where a timer added before stop is left behind |
| `CleanExit.EventSlips` | chat/iomanager.cc:263-266 | a run from the start where an event registered before stop is left behind |
| `CleanExit.MissHidesEvent` | chat/iomanager.cc:319-348 | a run from the start with nothing late where, after a report that missed, a later event is armed at counter 0 and left behind |
| `Scheduler.StepTickets` | chat/scheduler.cc:154-177 | every step of any program keeps: queued entries are in order of scheduling, and each entry was either taken or is queued, not both |
| `Scheduler.StepCounts` | chat/scheduler.cc:150-235 | every step of any program keeps the active count equal to the number of workers between dequeue and decrement |
| `Scheduler.ScanTakesOldest` | chat/scheduler.cc:154-177 | a scan takes the oldest entry the worker may take, never one taken before, and comes back empty exactly when there is none |
| `Scheduler.SchedulerConserves` | chat/scheduler.cc:138-236 | for any number of workers and any program, in every reachable state entries and active count are conserved |
| `Scheduler.TakenOnce` | chat/scheduler.cc:154-177 | in any run an entry once taken stays with the worker that took it |
| `Scheduler.ScheduledIsDelivered` | chat/scheduler.h:31-80 | in any run the work given to schedule waits in the queue or was taken, by the named thread if one was named, and whoever holds its entry holds that work |
| `Scheduler.ReadyGoesBack` | chat/scheduler.cc:190-210 | in any run, when a worker lets go of a fiber that yielded READY, exactly one entry is added, at the end of the queue, for that fiber and any thread; a callback fiber is given up |
| `Scheduler.YieldRecords` | chat/fiber.cc:257-304 | in any run a fiber that yields is in the state it yielded to |
| `Scheduler.LeavesAfterEmptyScan` | chat/scheduler.cc:217-226 | in any run a worker leaves only after a scan with nothing takeable and no step of its own in between |
| `Scheduler.LeavesAfterIdle` | chat/scheduler.cc:222-225 | and only after its idle fiber has ended |
| `FiberStates.FiberDiscipline` | chat/fiber.cc:150-304 | for polite programs, in every reachable state no fiber runs twice or is queued while held, callback fibers at the loop head are null or INIT, and every next step passes the assertions of reset and yield and moves states along allowed edges |
| `FiberStates.ReadyIsKept` | chat/scheduler.cc:154-216 | for polite programs, in every reachable state a READY fiber has exactly one entry in the queue, or exactly one worker is back from it or has just taken its entry, never both |
| `FiberStates.NothingPutBackIsAbandoned` | chat/scheduler.cc:188-235 | for polite programs, a worker that found nothing or left has no READY fiber it put back still in the queue |
| `FiberStates.EndedStays` | chat/scheduler.cc:183-216 | for polite programs, a fiber that has ended stays so, but for a callback fiber that its own worker resets |
| `FiberStates.StepAsserts` | chat/fiber.cc:150-174 | where fibers are held as they should be, the assertions in reset and both yields hold at every step |
| `FiberStates.StepMovesAlong` | chat/scheduler.cc:183-216 | there, every step moves each fiber along an allowed edge or not at all |
| `FiberStates.StepDisciplinedIff` | chat/scheduler.cc:150-235 | a step keeps fibers held as they should be if and only if it is polite |
| `FiberStates.PoliteRunIff` | chat/scheduler.cc:138-236 | over whole runs, fibers are held as they should be in every state if and only if every step is polite |
| `FiberStates.ScheduledTwiceRunsTwice` | chat/scheduler.h:31-43 | a run where a fiber scheduled twice is run by two workers at once |
| `RunQueues.RunQueue.ScheduleNoLock` | chat/scheduler.h:72-80 | appends a non-null work; a tickle is due exactly when the queue was empty before |
| `RunQueues.RunQueue.ScheduleRange` | chat/scheduler.h:45-58 | all non-null works of the range are appended in order and every slot is emptied |
| `RunQueues.RunQueue.TakeTask` | chat/scheduler.cc:154-177 | takes the first takeable entry out, and tickles exactly when entries remain |
| `FiberSemaphores.FiberSemaphore.TryWait` | chat/mutex.cc:37-47 | takes a permit or refuses, as specified |
| `FiberSemaphores.FiberSemaphore.Wait` | chat/mutex.cc:49-60 | takes a permit or joins the end of the line |
| `FiberSemaphores.FiberSemaphore.Notify` | chat/mutex.cc:62-71 | schedules the first in line, or banks the permit |
| `Semaphores.StepFair` | chat/mutex.cc:37-71 | every operation keeps: grants and waiters together are the arrivals in order, nobody waits while a permit is free, no permit is lost |
| `Semaphores.FirstComeFirstServed` | chat/mutex.cc:37-71 | after any run the permits went to the first arrivals, as many as there are permits or arrivals |
| `WorkerGroups.BoundedConcurrency` | chat/worker.cc:21-40 | free + granted to schedulers + unfinished jobs + granted to waitAll = batch size in every reachable state, so at most that many jobs are outstanding |
| `WorkerGroups.BarrierHolds` | chat/worker.cc:42-49 | when waitAll has its last permit no job is unfinished, and every schedule that asked before one of its requests has run to the end |
| `WorkerGroups.NothingAfterBarrier` | chat/worker.cc:42-49 | after that no permit is ever granted again |
| `BlockingQueues.BlockingQueue.Push` | chat/blocking_queue.h:16-23 | appends, reports the new size and notifies |
| `BlockingQueues.BlockingQueue.PopFront` | chat/blocking_queue.h:25-31 | removes and returns the oldest value |
| `BlockingQueues.StepKeeps` | chat/blocking_queue.h:16-31 | every step keeps: length = banked permits + consumers past wait + pushes not yet notified, and pushed = popped + queued |
| `BlockingQueues.PopsInOrder` | chat/blocking_queue.h:16-31 | for any producers and consumers, an empty list is never popped and the popped values are a prefix of the pushed ones |
| `TrackerWindows.StepKeeps` | chat/util.cc:1476-1498 | every increment, decrement and timer tick, with any key, keeps the buckets of the window equal to the sums of the log plus what stray keys left in them |
| `TrackerWindows.WindowAgreesIff` | chat/util.cc:1541-1561 | after any run with a tick in every second and any keys, the total for up to interval - 2 seconds is the 64-bit sum of everything logged in those seconds and of what stray keys left there, so it is the log's sum if and only if the latter is 0 modulo 2^64 |
| `TrackerWindows.WindowAgrees` | chat/util.cc:1541-1561 | if no key of the run has a 32-bit index that wraps into the buffer, that total is the 64-bit sum of everything logged in those seconds |
| `TrackerWindows.OneMoreIff` | chat/util.cc:1591-1601 | for interval - 1 seconds the total is that sum, stray keys included, exactly when the timer has not run in this second yet or the cleared second's log sums to 0 |
| `TrackerWindows.StrayKeyIff` | chat/util.cc:1476-1486 | a key without a dimension changes a bucket exactly when the 32-bit index wraps into the buffer |
| `TrackerWindows.StrayKeyExample` | chat/util.cc:1476-1486 | with the default interval and one dimension, key 71582789 bumps a bucket of dimension 0 |
| `TrackerWindows.BumpedIsAfter` | chat/util.cc:1476-1498 | the answer of inc and dec is the value the bucket has afterwards, or 0 where there is no bucket |
| `Trackers.Tracker.Inc` | chat/util.cc:1476-1486 | adds to the indexed bucket with wrap-around, or does nothing and returns 0 |
| `Trackers.Tracker.Dec` | chat/util.cc:1488-1498 | the same with the negated value |
| `Trackers.Tracker.OnTimer` | chat/util.cc:1591-1601 | clears the next second's bucket of every dimension and no other |
| `Trackers.Tracker.ToDurationData` | chat/util.cc:1541-1561 | builds the specified map from the window totals, with the duration clamped to the interval |
| `Trackers.Tracker.ToData` | chat/util.cc:1520-1539 | builds the specified map of all prefix totals asked for |
| `Trackers.DigitsAre` | chat/util.cc:1520-1539 | the number in a label is written in decimal, with no zero in front |
| `Trackers.AllDataAt` | chat/util.cc:1520-1539 | each named dimension has, for every window asked for (the whole interval if none), its own total under its own label |
| `Trackers.AllDataElse` | chat/util.cc:1520-1539 | no other entry of the map changes |
| `Trackers.DurationDataAt` | chat/util.cc:1547-1560 | each named dimension's entry is its own total; the last dimension of a name wins |
| `Trackers.DurationDataElse` | chat/util.cc:1547-1560 | no other entry of the map changes |
| `Base64.Base64Encode` | chat/util.cc:376-414 | the packing loop computes the bit regrouping of RFC 4648 |
| `Base64.Base64Decode` | chat/util.cc:305-370 | the unpacking loop computes the inverse regrouping within its result buffer, and an empty answer for malformed input |
| `Base64.AlphabetIs` | chat/util.cc:376-379 | a digit is the character at its place in the table of the alphabet, and a character has the value of the place it stands at, if any |
| `Base64.GroupIs` | chat/util.cc:387-411 | three bytes become the four base-64 digits of their 24-bit number; two or one are followed by zero bits and by one or two pads |
| `Base64.EncodeJoins` | chat/util.cc:376-414 | whole groups of three bytes are encoded one by one |
| `Base64.EncodeLength` | chat/util.cc:376-414 | the encoded length is 4 * ceil(n / 3) |
| `Base64.RoundTrip` | chat/util.cc:305-414 | decoding undoes encoding, for all bytes and both alphabets |
| `Base64.DecodesIff` | chat/util.cc:319-354 | input decodes, to three bytes a group less the pads, if and only if it is a multiple of four alphabet characters but for at most two pads at the end |
| `Base64.NonEmptyMeansWellFormed` | chat/util.cc:305-370 | a non-empty answer comes from such input only |
| `Base64.EncodeBackIff` | chat/util.cc:305-414 | encoding undoes decoding exactly on input whose unused bits are 0 |
| `UrlCodec.UrlEncode` | chat/util.cc:1069-1098 | the lazily copying loop equals encoding character by character |
| `UrlCodec.UrlDecode` | chat/util.cc:1100-1129 | the lazily copying loop equals decoding character by character, incomplete escapes kept |
| `UrlCodec.RoundTripIff` | chat/util.cc:1023-1129 | decoding with one flag undoes encoding with another exactly when no `+` for a space is misread; with equal flags always |
| `UrlCodec.DecodeKeepsIff` | chat/util.cc:1100-1129 | decoding leaves a text alone if and only if it has no complete escape and no `+` that is read as a space |
| `UrlCodec.EncodingIsPlain` | chat/util.cc:1023-1045 | an encoding holds unreserved characters, `%` and `+` only |
| `UrlCodec.UnreservedIs` | chat/util.cc:1023-1045 | the unreserved characters are letters, digits and `-._~=` |
| `UrlCodec.HexIs` | chat/util.cc:1047-1064 | hexadecimal digits are written in upper case and read in either |
| `UrlCodec.EscapesAre` | chat/util.cc:1069-1098 | a byte is written as itself if unreserved, as `+` if a space and asked for, else as `%` and its two digits |
| `QueryParams.ParseParam` | chat/http/http.cc:243-268 | the loop inserts exactly the decoded pairs, first of a key wins |
| `QueryParams.PairsIff` | chat/http/http.cc:243-260 | the pairs of a joined query come back if and only if no key contains `=` |
| `QueryParams.SameKeyIff` | chat/http/http.cc:53-56 | two keys are one to the map if and only if, up to their first NULs, they agree letter by letter in either case |
| `QueryParams.QueryIs` | chat/http/http.cc:243-260 | a joined query is key, `=`, encoded value, with `&` between pairs |
| `QueryParams.QueryKeepsFirst` | chat/http/http.cc:243-268 | for keys without `=`, parsing a joined query yields, for each key up to case, its first pair, and no other key |
| `QueryParams.RecoveredIff` | chat/http/http.cc:243-268 | for keys without `=`, every pair is recovered if and only if pairs with the same key up to case are equal |

## Left out

- Sockets, epoll, pipes, threads, context-switch assembly, SSL, files: they appear only as results that may be anything.
- `ByteArray` destructor, `m_owner`, `Node::free`, `writeToFile` and `readFromFile`: memory lifetime and I/O.
- `read` with an explicit position and `getReadBuffers` with an explicit position: they start from the cursor, not from the position given.
- `writeFloat`, `writeDouble`, `toHexString`: bit casts and printing over the fixed-width codecs.
- The rounding of the `double` in `ceil` inside `addCapacity`, and sizes that memory cannot hold.
- `gzip` and zlib paths of the gRPC code: the inflater and deflater are not part of this model; a compressed body stops before them.
- The order in which timer callbacks run once they are queued, and reuse of a freed timer's address.
- `do_io` and the worker loop `run` as one imperative body: they block in the middle, so each is a state machine over its steps; the run queue and the event and timer objects are imperative.
- Two `CHAT_ASSERT`s that abort (registering an event twice, yielding a fiber that does not run) end the program; the model goes on, and the lemmas say when they cannot fail.
- The hand-off of a fiber at finer steps: `YieldToHold` writes HOLD before the swap and `run` rewrites the state afterwards, so ownership by one thread does not hold there.
- A wake-up guarantee for ordinary `schedule`: `tickle` is skipped while no worker is idle.
- `Scheduler::start`, `switchTo` and the thread joins of `stop`.
- IoRuns.RunRefines: timers are handed out one at a time, each at its own clock reading, which 64 bits only give to runs of fewer than 2^64 steps.
- Wrap-around of the semaphore's 64-bit permit count and of ticket numbers.
- `notifyAll` and `TimedWorkerGroup`: they wake waiters without permits, so the conservation laws do not apply.
- `WorkerGroup::schedule(vector)`: beyond the batch size it takes all permits before scheduling anything.
- Callbacks of a worker group that throw: their permit is not returned.
- TrackerWindows.WindowAgreesIff: the bucket array has fewer than 2^31 cells, and a query's clock reading is at least the window, since the source indexes with a signed 32-bit value and a truncated remainder.
- `toTimeData`, `addDim`, `privateInc` and `TrackerManager`: single lookups and thin wrappers.
- Cookie parsing with `Trim` and body parameters: the same loop with another separator.
- `uri.cc` and `http11_parser.cc`: generated tables without a grammar.
- Configuration, logging, JSON, protobuf, crypto, Kafka, ZooKeeper, address printing, daemon and application start-up, `DynaThreadPool`.
