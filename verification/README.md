# fishjoy: a verified model

fishjoy is a server framework built on fibers. This project models its hard parts in Dafny and proves what they
promise: for every input, every run, and every interleaving of the threads.

| part | files | what is proved |
|---|---|---|
| byte store | `Blocks`, `ByteArray`, `ByteArrayRuns` | the linked list of blocks with its moving cursor refines a flat byte sequence, over every run |
| typed values | `Bits`, `Codec`, `Values`, `WireFormat` | fixed-width, varint, ZigZag and string values written to the store and read back give the same list, and what stands on the wire between |
| transfer | `Streams` | partial sends and receives through gather and scatter buffers, in every interleaving, deliver exactly the bytes, and fail exactly where one of them moves nothing |
| timers | `Timers`, `TimerRuns`, `TimerEffects`, `TimerManager` | order, no early firing, no missed deadline, conservation, over every run; what each operation does to the deadlines |
| scheduler | `Scheduler` | conservation of tasks, each with the work and the pin it was scheduled with, exact counters, safe shutdown, in every interleaving |
| IO events | `IoEvents`, `IoInterest`, `IoDelivery`, `IoManager` | bits, contexts and count stay in step exactly in the runs that break no rule, failure paths included; what a locked region does that falls into an `addEvent`; one shot; when the kernel's interest set agrees with the bits; whom each operation wakes and what it leaves registered |
| fiber runtime | `Runtime`, `RuntimeWaits`, `RuntimeFaults`, `RuntimeTimeouts`, `RuntimeDelivery`, `RuntimeReturns`, `RuntimeExamples` | the wait protocol of `do_io` and `sleep`: one thread per fiber, which assertions hold and exactly when the others fail, exactly when a wake-up is lost, one wake per wait, whom a report wakes, what becomes of timeouts, and when `do_io` returns or tries again |
| pools | `ThreadPool`, `ConnectionPool`, `ConnectionAges` | exact counters, FIFO, ownership, each task and each deletion at most once; what the age tests let through |
| text | `UrlCodec`, `Params`, `Texts`, `LogPattern` | the loops equal their definitions; print and parse are inverse, with the exact condition |

`Options` holds the option type that several modules share.

Concurrent parts are state machines. A step is a region of the program under one lock, one update of an atomic
counter, or one call of a foreign function; `addEvent`, which stores into shared contexts without a lock, is five steps,
one for each thing that others can see. A `Run` is any list of steps; main results quantify over all of them.
Objects whose fields the program updates are classes, and each of their methods is proved to make the step of the
machine that bears its name. What lives on the stacks of threads, and history, is ghost there.

`dafny verify dfyconfig.toml` checks the project.

## Where the code and its documentation disagree

The model follows the code, except in the first point.

- `FdContext::triggerEvent` (src/fiber/iomanager.cpp:92) masks its own parameter, which leaves NONE, and only READ and WRITE
  have a context: taken literally, the assertion of `getEventContext` fails on every event that is triggered
  (`IoManagers.MaskedHasNoContext`). The model does what the comment above the line says: clear that event from the
  registered ones, schedule its callback or fiber, reset the context.
- `addEvent` takes no lock on its descriptor (src/fiber/iomanager.cpp:170-209). A region under that lock that falls
  between its `epoll_ctl` and the setting of its bit leaves an event registered that the kernel does not watch.
  `IoInterest.InterestExact` gives the exact condition, `IoInterest.AddRace` a run; after it every call on the
  descriptor fails (`IoInterest.StuckForGood`), and a fiber that waits there is never resumed, not even by its own timeout
  (`RuntimeWaits.ForsakenForGood`, `RuntimeExamples.WriterIsStranded`).
- A region that falls between the bit and the scheduler of an `addEvent` follows a null pointer; one between the scheduler
  and the fiber schedules nothing, and the fiber then waits for ever; `delEvent` in either place leaves a context in use
  with its bit clear (src/fiber/iomanager.cpp:194-208). One reader of one socket is enough:
  `RuntimeExamples.OneReaderCrashes`, `RuntimeExamples.OneReaderLost`. `IoEvents.RunExact` and `RuntimeFaults.CrashExact`
  give the exact condition for whole runs, `RuntimeFaults.StrikeOutcome` what follows from where the region falls.
- Two fibers that wait for the same event of one socket fail an assertion of `addEvent` (src/fiber/iomanager.cpp:175):
  `RuntimeFaults.CrashExact`, `RuntimeExamples.TwoReadersCrash`.
- A timer of `do_io` that expires before `addEvent` has set the bit finds nothing to cancel, and the fiber then waits
  without a timeout (src/fiber/hook.cpp:125-145): `RuntimeTimeouts.TimeoutWakesExactly`, `RuntimeExamples.TimeoutTooEarly`.
- `idle()` (src/fiber/iomanager.cpp:438-463) triggers a reported event that is not registered when another reported one
  is. `IoEvents.HandleKeeps` gives the exact condition; `IoInterest.StaleReportCrashes` is a run in which an event is
  cancelled after `epoll_wait` has reported it.
- A report that `idle()` handles before `addEvent` has set its bit is dropped, and the kernel reports a change only once
  (src/fiber/iomanager.cpp:438-440): `IoInterest.EarlyReportIsDropped`, `IoInterest.EarlyReport`.
- The comment at src/utils/util.cpp:219 lists the unreserved characters without '='; the table has it. So a key with '='
  in it does not survive: `Params.QueryRoundTrip` has the exact condition.
- `"%%"` in a log pattern is documented as an escape (src/log/log.cpp:394), but the second percent sign is parsed again:
  of k percent signs in a row the last one always begins an item (`LogPattern.PercentsParse`).
- The age tests of the connection pool (src/http/http_connection.cpp:223 and 264) discard a connection whose lifetime is
  not over, and keep one whose lifetime is: `ConnectionAges.KeptOnlyExpired`, `ConnectionAges.AgeTestInverted`. Besides,
  the program never sets `m_createTime` (include/fishjoy/http/http_connection.hpp:201); the model takes any value of it.
- `ThreadPool::start` starts the threads numbered 0 to n-1 although new threads take their numbers from a counter that
  all pools share (include/fishjoy/thread/threadpool.hpp:113-120): `ThreadPools.ThreadPool.CreateThreads`,
  `ThreadPools.ThreadPool.StartThreads` and `ThreadPools.ThreadPool.Start`.
- A thread of the pool whose wait has timed out ends without looking at the queue again
  (include/fishjoy/thread/threadpool.hpp:231-251), so that a task can be left queued with no thread:
  `ThreadPools.AbandonedExactly`, `ThreadPools.SecondTaskAbandoned`.
- A zero-length `read` at the end of the capacity follows the null cursor (src/net/bytearray.cpp:388), so an empty string
  there cannot be read back: `Values.RoundTrip` has the exact condition.
- `detectClockRollover` subtracts an hour from an unsigned time, so that within the first hour of the clock any step back
  counts as a rollover: `Timers.ExpiryExact`. Two calls that take the lock in the other order than they read the clock
  are enough: `TimerRuns.EarlyFire`.
- A task scheduled from outside after the scheduler has stopped is not run: `Schedulers.LateTaskIsLost`.

## Model

| member | source | states |
|---|---|---|
| `ByteArrays.ByteArray.constructor` | src/net/bytearray.cpp:35-43 | a new array is one block of `base` bytes, empty, with the cursor at 0; `base` must be positive |
| `ByteArrays.ByteArray.CursorNull` | src/net/bytearray.cpp:441-457 | in every valid array capacity = blocks * base, m_cur is block number position / base, and it is null exactly when position == capacity |
| `ByteArrays.ByteArray.AddCapacity` | src/net/bytearray.cpp:501-530 | grows by whole blocks so that n more bytes fit, changes no byte, cursor position or size, and leaves the cursor on the right block even if it was null |
| `ByteArrays.ByteArray.Append` | src/net/bytearray.cpp:518-525 | the loop that appends blocks: the old blocks and bytes are a prefix of the new ones, and the answer is the first new block |
| `ByteArrays.ByteArray.Write` | src/net/bytearray.cpp:347-380 | changes exactly the bytes [position, position + n), moves the cursor by n, extends the size as needed; for every block size and every place in a block |
| `ByteArrays.ByteArray.FillFrom` | src/net/bytearray.cpp:355-375 | the copy loop over blocks equals one splice into the flat byte sequence |
| `ByteArrays.ByteArray.Read` | src/net/bytearray.cpp:382-409 | returns the next n flat bytes; throws exactly when n exceeds the readable bytes; meets the null cursor exactly when n == 0 at position == capacity |
| `ByteArrays.ByteArray.ReadOut` | src/net/bytearray.cpp:388-408 | the reading loop over blocks returns one slice of the flat byte sequence |
| `ByteArrays.ByteArray.SetPosition` | src/net/bytearray.cpp:441-457 | moves the cursor, extending the size, or throws beyond the capacity and changes nothing |
| `ByteArrays.ByteArray.Seek` | src/net/bytearray.cpp:446-456 | the walk along the chain reaches block number v / base, or null at the end of the capacity |
| `ByteArrays.ByteArray.Clear` | src/net/bytearray.cpp:334-345 | keeps the first block and its bytes, resets position, size and capacity |
| `ByteArrays.ByteArray.GetReadBuffers` | src/net/bytearray.cpp:558-587 | the iovec list covers exactly the next min(len, readable) bytes, in order, without gap or overlap |
| `ByteArrays.ByteArray.GetWriteBuffers` | src/net/bytearray.cpp:626-654 | makes room, changes no byte, and the iovec list covers exactly the next len bytes |
| `ByteArrays.CeilDivCovers` | src/net/bytearray.cpp:511-511 | the number of blocks added is the least that covers the missing bytes |
| `ByteArrayRuns.Perform` | src/net/bytearray.cpp:334-409 | every operation on the block chain is one step of a flat machine that knows no blocks |
| `ByteArrayRuns.Replay` | src/net/bytearray.cpp:334-457 | every run of write, read, setPosition, clear and getWriteBuffers from any valid array is a run of the flat machine with the same answers |
| `ByteArrayRuns.UntouchedBytesSurvive` | src/net/bytearray.cpp:347-380 | over any run a byte changes only under a write that covers it, or under clear |
| `ByteArrayRuns.WrittenDataComesBack` | src/net/bytearray.cpp:347-409 | written data is read back from its place after any run that neither clears nor overwrites it |
| `Codec.ByteswapInvolution` | include/fishjoy/net/endian.hpp:23-45 | swapping the bytes of a 16, 32 or 64 bit integer twice gives it back |
| `Codec.FixedOnWire` | src/net/bytearray.cpp:73-113 | the bytes written depend on the byte order of the array only, not on that of the machine |
| `Codec.FixedRoundTrip` | src/net/bytearray.cpp:218-250 | what one machine writes any other machine reads back |
| `Codec.DecodeXor` | src/net/bytearray.cpp:131-137 | the shift/xor form of ZigZag decoding equals the arithmetic form, for every word of every width |
| `Codec.ZigzagOrder` | src/net/bytearray.cpp:115-129 | 0, -1, 1, -2, 2, ... are coded as 0, 1, 2, 3, 4, ..., wrap-around included |
| `Codec.ZigzagRoundTrip` | src/net/bytearray.cpp:115-137 | ZigZag coding is injective: decoding gives every signed word back |
| `Codec.ZigzagOnto` | src/net/bytearray.cpp:115-137 | and onto: every unsigned word is the code of its decoding |
| `Codec.VarintRoundTrip` | src/net/bytearray.cpp:144-168 | a base-128 varint is decoded to its value, whatever bytes follow |
| `Codec.VarintLength` | src/net/bytearray.cpp:144-168 | varints take 1 to 5 bytes for 32 bit values and 1 to 10 for 64 bit values |
| `Values.VarintBytes` | src/net/bytearray.cpp:144-152 | the loop with its fixed buffer never overruns it and produces the varint of the value |
| `Bits.OrAbove` | src/net/bytearray.cpp:147-150 | or-ing bits above all bits of a number adds them: the continuation bit of the writer, and the next group of the reader |
| `Bits.XorOnes` | src/net/bytearray.cpp:131-137 | exclusive or with all ones complements a word of any width |
| `Values.WriteValue` | src/net/bytearray.cpp:66-204 | each write member puts exactly the encoding of its value at the cursor |
| `Values.ReadVarint` | src/net/bytearray.cpp:256-286 | the loop that shifts and ors words computes the decoded value truncated to its word, and throws exactly on a cut varint |
| `Values.OrInAdds` | src/net/bytearray.cpp:259-265 | `result |= (b & 0x7f) << i`, with what the shift loses, adds the next group modulo the word |
| `Values.ReadValue` | src/net/bytearray.cpp:206-332 | each read member returns what the encoding at the cursor decodes to; too little data throws; an empty string whose prefix ends at the capacity meets the null cursor |
| `Values.DecodeEncode` | src/net/bytearray.cpp:66-332 | every value in the range of its type comes back from its encoding, whatever follows it and whichever machine reads it |
| `WireFormat.EncodeFormat` | src/net/bytearray.cpp:66-204 | what each write member puts on the wire: the digits of a fixed-width integer to base 256 in the byte order of the array, with negative ones in two's complement; a varint of seven bits a byte, lowest first, with no byte wasted; 2i or -2i-1 for a signed varint; a string behind its length |
| `WireFormat.VarintFormat` | src/net/bytearray.cpp:144-152 | the varint of a number has its digits to base 128, the lowest first, the top bit set on all bytes but the last |
| `WireFormat.OverlongRead` | src/net/bytearray.cpp:256-286 | a varint that does not end is read as its first 5 or 10 bytes, cut to the word |
| `WireFormat.ShortRead` | src/net/bytearray.cpp:206-286 | fewer bytes than the width, or a varint without its last byte, is too little data |
| `WireFormat.ShortString` | src/net/bytearray.cpp:302-332 | and so is a string with fewer bytes than its length says |
| `Values.UnVarintSum` | src/net/bytearray.cpp:256-286 | the sum of shifted groups is the value that the recursive definition decodes, at a last byte, at the end of the loop, and on cut data |
| `Values.WriteAll` | src/net/bytearray.cpp:66-204 | writing a list puts the concatenated encodings at the cursor |
| `Values.ReadAll` | src/net/bytearray.cpp:206-332 | reading the kinds of a list back gives the list and the end position |
| `Values.RoundTrip` | src/net/bytearray.cpp:66-332 | any list of mixed values written and read from the same place gives the same list and final position for every block size, exactly unless the list ends in an empty string at the capacity |
| `Streams.GatherCovered` | src/net/bytearray.cpp:558-587 | the bytes gathered through the read buffers are the next bytes of the array |
| `Streams.Scatter` | src/net/bytearray.cpp:626-654 | bytes scattered through the write buffers are one splice at the cursor |
| `Streams.SocketStream.Write` | src/streams/socket_stream.cpp:49-60 | one partial send, for any length: it asks for min(length, readable) bytes and gives the answer of the send; the wire gets the bytes the cursor passed, and nothing of the array changes |
| `Streams.SocketStream.Read` | src/streams/socket_stream.cpp:29-40 | one partial receive, for any length: it asks for `length` bytes and gives the answer; the array is overwritten with the received bytes at the cursor |
| `Streams.SocketStream.WriteFixSize` | src/streams/stream.cpp:49-59 | for every split into partial sends the wire gets the bytes the cursor passed; each send asks for all that is left; the loop goes on after every send that moves something, returns `length` exactly if all do, and otherwise the answer of the first that does not; on success exactly the next `length` bytes have gone, and success is impossible when fewer are readable |
| `Streams.SocketStream.ReadFixSize` | src/streams/stream.cpp:22-32 | for every split into partial receives the result is that of one write of the received bytes: contents, position, size, and on success capacity; the loop goes on, and ends, as that of writeFixSize does |
| `Streams.Transfer` | src/streams/stream.cpp:22-59 | both loops in every interleaving, with any block sizes and any n: the transfer completes exactly if every send and every receive moved something, and then the next n bytes of the sender, which it had, stand at the cursor of the receiver and nothing else of it changed |
| `Timers.FindIff` | src/fiber/timer.cpp:12-30 | lookup under (deadline, address) order finds a timer exactly when it is in the set |
| `Timers.InsertSorted` | src/fiber/timer.cpp:184-195 | insertion keeps the set strictly ordered, adds exactly the new timer, and tells whether it is first |
| `Timers.RemoveSorted` | src/fiber/timer.cpp:46-55 | erasing keeps the order and removes exactly that timer |
| `Timers.ExpiredAreDue` | src/fiber/timer.cpp:142-171 | without rollover listExpiredCb takes exactly the timers with m_next <= now, whatever address the probe timer has |
| `Timers.ExpiryExact` | src/fiber/timer.cpp:142-205 | a call takes exactly the due timers if and only if it does not see a rollover while the last timer is not due |
| `TimerRuns.CancelKeeps` | src/fiber/timer.cpp:46-55 | the unchecked erase in cancel always has an element; cancel answers true exactly for a pending timer |
| `TimerRuns.RefreshKeeps` | src/fiber/timer.cpp:57-70 | refresh keeps the invariant: it only postpones |
| `TimerRuns.ResetKeeps` | src/fiber/timer.cpp:72-96 | reset keeps the invariant and answers true exactly for a pending timer or when nothing is to change; the new deadline counts from now or from the old start; m_tickled is raised exactly when the timer is then first, so whenever its deadline came before all others; a timer that is not pending is left alone |
| `TimerRuns.GetNextKeeps` | src/fiber/timer.cpp:126-140 | clearing m_tickled is sound because the earliest deadline is reported |
| `TimerRuns.ListKeeps` | src/fiber/timer.cpp:142-182 | listExpiredCb with re-arming and disarming keeps the invariant |
| `TimerRuns.SetStaysConsistent` | src/fiber/timer.cpp:46-96 | over every run no step is undefined, the set is strictly ordered by (m_next, address), and a timer is in it exactly when its callback is set |
| `TimerRuns.NoMissedDeadline` | src/fiber/timer.cpp:126-195 | over every run, while m_tickled is false no pending timer is due before the earliest deadline that the last getNextTimer saw |
| `TimerRuns.FiringIsSafe` | src/fiber/timer.cpp:142-182 | over every run a timer never fires early, nothing happens to it after a successful cancel, and a one-shot timer fires at most once |
| `TimerRuns.EarlyFire` | src/fiber/timer.cpp:142-205 | a run within the first hour in which two calls lock in the other order than they read the clock, and a timer due 40 ms later fires |
| `TimerRuns.Conservation` | src/fiber/timer.cpp:46-182 | over every run added = pending + fired for good + cancelled |
| `TimerEffects.NextTimerExact` | src/fiber/timer.cpp:126-140 | getNextTimer answers the time until the earliest deadline, 0 when that has come, and no timer exactly when none is pending |
| `TimerEffects.AddExact` | src/fiber/timer.cpp:105-111 | a new timer is pending with the period, callback and recurring flag that were asked for, due that long after its clock reading; the owner is told exactly when it is then the earliest and nobody was told since the last getNextTimer |
| `TimerEffects.CancelExact` | src/fiber/timer.cpp:46-55 | cancel takes a pending timer out, with its callback, and leaves every other timer |
| `TimerEffects.RefreshExact` | src/fiber/timer.cpp:57-70 | a refreshed timer is due exactly one period from now; nothing else changes |
| `TimerEffects.ListExact` | src/fiber/timer.cpp:142-182 | without rollover exactly the due timers fire, in the order of their deadlines, each with its own callback; the recurring ones among them, and no others, are pending again, one period from now and still recurring; no other timer is touched |
| `TimerEffects.RolloverUnsigned` | src/fiber/timer.cpp:197-205 | the rollover test is the comparison of unsigned 64 bit words that the program makes, wrap-around included |
| `TimerManagers.TimerManager.AddTimer` | src/fiber/timer.cpp:105-111 | the method makes the machine step; the answer is whether onTimerInsertedAtFront is called |
| `TimerManagers.TimerManager.Cancel` | src/fiber/timer.cpp:46-55 | makes the cancel step; the erase is defined |
| `TimerManagers.TimerManager.Refresh` | src/fiber/timer.cpp:57-70 | makes the refresh step |
| `TimerManagers.TimerManager.Reset` | src/fiber/timer.cpp:72-96 | makes the reset step |
| `TimerManagers.TimerManager.ListExpiredCb` | src/fiber/timer.cpp:142-182 | returns the callbacks of the taken timers in deadline order, with the state of the machine step |
| `TimerManagers.TimerManager.CountExpired` | src/fiber/timer.cpp:164-168 | the loop past the timers due exactly now ends where the machine's step does |
| `TimerManagers.TimerManager.HandleExpired` | src/fiber/timer.cpp:172-181 | the loop over the expired timers re-arms or disarms each in turn |
| `Schedulers.FirstEligible` | src/fiber/scheduler.cpp:162-191 | the scan stops at the first entry that is not pinned elsewhere and not a RUNNING fiber |
| `Schedulers.WithoutKeeps` | src/fiber/scheduler.cpp:186-190 | taking an entry keeps all others, in order |
| `Schedulers.Conservation` | src/fiber/scheduler.cpp:155-227 | in every interleaving each accepted task is exactly one of queued, in hand on exactly one thread, or done; the queue keeps the order of acceptance |
| `Schedulers.PinRespected` | include/fishjoy/fiber/scheduler.hpp:126-133 | a task is in hand, and has run, only on a thread that the schedule call for it allowed, and what is in hand is the work of that call |
| `Schedulers.AcceptedAsAsked` | include/fishjoy/fiber/scheduler.hpp:126-133 | over every run the i-th accepted task has the work and the pin of the i-th schedule call that named a fiber or a callback, and there are no others |
| `Schedulers.TakesFirst` | src/fiber/scheduler.cpp:162-191 | a scan takes the first entry that is neither pinned to another thread nor a RUNNING fiber, and nothing if there is none |
| `Schedulers.NobodyOverlooked` | src/fiber/scheduler.cpp:163-194 | a scan that tickles nobody leaves no entry that any thread could take, unless a fiber stops running |
| `Schedulers.TickledForSomething` | src/fiber/scheduler.cpp:163-194 | and one that tickles leaves something in the queue |
| `Schedulers.CountersExact` | src/fiber/scheduler.cpp:189-225 | m_activeThreadCount and m_idleThreadCount equal the numbers of threads in those phases, in every interleaving |
| `Schedulers.StaysStopped` | src/fiber/scheduler.cpp:87-90 | one step leaves stopping() true exactly when it is not an outside schedule |
| `Schedulers.StoppingIsStable` | src/fiber/scheduler.cpp:87-103 | once true, stopping() stays true in every later state if and only if nobody outside the tasks schedules again |
| `Schedulers.ShutdownIsSafe` | src/fiber/scheduler.cpp:105-141 | as soon as one run() loop has exited, every accepted task has been run, by a thread it may run on |
| `Schedulers.LateTaskIsLost` | src/fiber/scheduler.cpp:216-226 | without that condition a task can be left unrun: a concrete run |
| `Schedulers.Scheduler.Schedule` | include/fishjoy/fiber/scheduler.hpp:64-134 | appends one task with the work and the pin of its arguments, unless fiber and callback are both null; answers whether the queue was empty |
| `Schedulers.Scheduler.Scan` | src/fiber/scheduler.cpp:158-194 | the scan loop takes the first eligible entry and counts the thread active in one region; tickle_me is set exactly when another thread has something to do |
| `Schedulers.Scheduler.EnterIdle` | src/fiber/scheduler.cpp:216-224 | leaves run() exactly when the idle fiber has terminated, else counts the thread idle |
| `Schedulers.Scheduler.TestStop` | src/fiber/scheduler.cpp:96-103 | the idle fiber terminates exactly when stopping() is true |
| `Schedulers.Scheduler.Stop` | src/fiber/scheduler.cpp:105-110 | sets m_stopping unless the scheduler has stopped already |
| `IoEvents.AddKeeps` | src/fiber/iomanager.cpp:156-210 | an addEvent call that nothing falls into fails an assertion exactly for an event already registered; otherwise it succeeds exactly when epoll_ctl can and does, with the whole new state |
| `IoEvents.LookKeeps` | src/fiber/iomanager.cpp:159-182 | the first assertion fails exactly when the event is registered at that moment |
| `IoEvents.BitAgreed` | src/fiber/iomanager.cpp:193-197 | from a state of agreement, counting the event and setting its bit keeps agreement exactly when the bit was not set meanwhile |
| `IoEvents.SchedulerAgreed` | src/fiber/iomanager.cpp:198-202 | from a state of agreement the second assertion holds, and storing the scheduler keeps agreement |
| `IoEvents.WorkAgreed` | src/fiber/iomanager.cpp:203-209 | storing the callback or the fiber completes the registration: agreement is kept |
| `IoEvents.DelKeeps` | src/fiber/iomanager.cpp:212-248 | in every reachable state delEvent clears and uncounts the event, resets its context and tells the kernel, or changes nothing; true exactly when a registered event was withdrawn |
| `IoEvents.CancelKeeps` | src/fiber/iomanager.cpp:250-284 | in every reachable state cancelEvent takes the event out, or changes nothing, and follows a null scheduler exactly when epoll_ctl succeeds on a bit whose scheduler is not stored |
| `IoEvents.CancelAllKeeps` | src/fiber/iomanager.cpp:286-326 | the same for cancelAll; its closing assertion holds |
| `IoEvents.FireAllKeeps` | src/fiber/iomanager.cpp:456-463 | triggering a set of events is defined exactly when each has a scheduler; each registration is scheduled once |
| `IoEvents.HandleKeeps` | src/fiber/iomanager.cpp:420-464 | handling a report in idle() goes wrong exactly when epoll_ctl succeeds and some event it acts on has no scheduler, registered or not |
| `IoEvents.StepExact` | src/fiber/iomanager.cpp:156-464 | one step from a state of agreement fails or ends agreement exactly when it breaks a rule: it adds a registered event, sets a bit set meanwhile, or is a locked region that takes effect on an unregistered event or between the bit and the work of an addEvent |
| `IoEvents.RunExact` | src/fiber/iomanager.cpp:156-464 | a run, in which the calls of addEvent are made in five steps between which anything may happen, fails or comes to a state where bits, contexts and count disagree if and only if some step of it breaks a rule |
| `IoEvents.EventsConsistent` | src/fiber/iomanager.cpp:156-464 | over every run that breaks no rule, whichever epoll_ctl calls fail, m_pendingEventCount is the number of event bits, and a bit is set exactly when its context is complete or one addEvent is between that bit and its work |
| `IoEvents.OneShot` | src/fiber/iomanager.cpp:84-103 | over every run, rules broken or not, a registration hands its own work to the scheduler at most once, and exactly once unless it is still in its context, was deleted, or was displaced in it by another addEvent |
| `IoEvents.OneShotExact` | src/fiber/iomanager.cpp:84-103 | over every run that breaks no rule nothing is displaced, and what is in a context has its bit and its scheduler |
| `IoEvents.StrikeOutcome` | src/fiber/iomanager.cpp:193-208 | a locked region that takes effect between the bit and the work of an addEvent fails before the scheduler is stored, unless it is delEvent, and otherwise schedules nothing for the event and leaves the call without its bit |
| `IoEvents.OrphanFollows` | src/fiber/iomanager.cpp:198-208 | that call then ends with work in a context whose bit is clear, without a scheduler if it was stored before the region |
| `IoEvents.OrphanBlocks` | src/fiber/iomanager.cpp:196-199 | and the next addEvent of the event fails the second assertion exactly when its epoll_ctl succeeds |
| `IoDelivery.ReportTakes` | src/fiber/iomanager.cpp:420-447 | where no addEvent is between bit and work: after a report with an error or a hang-up no event of the descriptor stays registered, after any other exactly the reported ones go; nothing changes when epoll_ctl cannot or does not succeed |
| `IoDelivery.ReportWakes` | src/fiber/iomanager.cpp:427-463 | and exactly the waiters of the events that go are handed to the scheduler, READ before WRITE, the callback before the fiber; it goes wrong exactly when an unregistered event is reported along with a registered one |
| `IoDelivery.CancelWakes` | src/fiber/iomanager.cpp:250-284 | cancelEvent takes its event away and hands the waiter to the scheduler exactly when the event is registered and epoll_ctl can and does succeed, and otherwise changes nothing |
| `IoDelivery.CancelAllWakes` | src/fiber/iomanager.cpp:286-326 | the same for all events of the descriptor, READ before WRITE |
| `IoDelivery.DelFate` | src/fiber/iomanager.cpp:212-248 | delEvent schedules nothing; it deletes exactly the registrations that wait for its event, when it takes effect |
| `IoDelivery.DeletedExactly` | src/fiber/iomanager.cpp:212-326 | over every run a registration is deleted if and only if a delEvent of its event took effect while it waited |
| `IoInterest.StepAgrees` | src/fiber/iomanager.cpp:156-464 | one step keeps the kernel's interest set equal to the bits and the armed events if and only if it does not intrude: a locked region takes no interest in an armed event away, and the epoll_ctl of addEvent goes by no bit that was cleared since it was read |
| `IoInterest.InterestExact` | src/fiber/iomanager.cpp:156-464 | over every run the kernel watches exactly the bits and the events armed by calls under way, in every state, if and only if no step intrudes |
| `IoInterest.WatchedExactly` | src/fiber/iomanager.cpp:156-464 | in a run without intrusion the kernel watches exactly the bits of every descriptor that no addEvent has armed |
| `IoInterest.IntrusionStrands` | src/fiber/iomanager.cpp:178-209 | a locked region that acts between the epoll_ctl of an addEvent and its bit leaves the descriptor stuck once the bit is set: registered, and unknown to the kernel; unless another addEvent has meanwhile seen the descriptor without events |
| `IoInterest.StuckForGood` | src/fiber/iomanager.cpp:156-464 | whatever is called afterwards, the bits of a stuck descriptor stay, and nothing registered for it is ever scheduled or deleted |
| `IoInterest.AddRace` | src/fiber/iomanager.cpp:178-209 | the run of a reader, a writer and idle() that leaves WRITE registered and not watched |
| `IoInterest.StaleReportCrashes` | src/fiber/iomanager.cpp:438-463 | the run in which an event is cancelled between epoll_wait and idle(), and idle() triggers it |
| `IoInterest.EarlyReportIsDropped` | src/fiber/iomanager.cpp:438-440 | a report handled between epoll_ctl and the setting of the bit, with nothing else registered, is dropped: the event is registered afterwards and nothing was scheduled |
| `IoInterest.EarlyReport` | src/fiber/iomanager.cpp:438-440 | the run of one addEvent and one idle() that comes to it |
| `IoInterest.OneReaderCrashes` | src/fiber/iomanager.cpp:194-202 | the run of one reader and one idle() that follows the null scheduler |
| `IoInterest.OneReaderLost` | src/fiber/iomanager.cpp:202-206 | the run of one reader and one idle() that schedules nothing and leaves the reader in a context without bit and scheduler, unknown to the kernel |
| `IoManagers.MaskedHasNoContext` | src/fiber/iomanager.cpp:66-95 | every event has its context; the masked parameter, whatever the event, has none |
| `IoManagers.FdContext.TriggerEvent` | src/fiber/iomanager.cpp:84-103 | clears the event, returns the callback or else the fiber or else nothing, resets the context; there must be a scheduler |
| `IoManagers.IOManager.ContextResize` | src/fiber/iomanager.cpp:145-154 | the loop adds empty contexts and keeps the others |
| `IoManagers.IOManager.AddEvent` | src/fiber/iomanager.cpp:156-210 | the method on the heap objects makes the machine step, or fails the assertion where the machine does |
| `IoManagers.IOManager.AddLook` | src/fiber/iomanager.cpp:156-182 | the context is found or made, the bits are read; answers nothing where the assertion fails |
| `IoManagers.IOManager.AddBit` | src/fiber/iomanager.cpp:193-197 | the method makes the machine step |
| `IoManagers.IOManager.AddScheduler` | src/fiber/iomanager.cpp:198-202 | the method makes the machine step, or the second assertion fails where the machine's does |
| `IoManagers.IOManager.AddWork` | src/fiber/iomanager.cpp:203-209 | the method makes the machine step |
| `IoManagers.IOManager.DelEvent` | src/fiber/iomanager.cpp:212-248 | in every state the method makes the machine step |
| `IoManagers.IOManager.CancelEvent` | src/fiber/iomanager.cpp:250-284 | in every state the method makes the machine step, or follows the null scheduler where the machine does |
| `IoManagers.IOManager.CancelAll` | src/fiber/iomanager.cpp:286-326 | in every state the method makes the machine step, or follows the null scheduler where the machine does |
| `IoManagers.IOManager.Handle` | src/fiber/iomanager.cpp:420-463 | one pass of the loop in idle(), for every report, makes the machine step, or goes wrong where the machine does |
| `IoManagers.IOManager.HandleReports` | src/fiber/iomanager.cpp:409-464 | the whole loop over any reported events is a run of the machine, up to a report that goes wrong |
| `Runtime.ResumeKeeps` | src/fiber/fiber.cpp:146-161 | the assertion of resume holds whenever a thread resumes the fiber it has taken |
| `Runtime.YieldKeeps` | src/fiber/fiber.cpp:163-181 | the assertion of yield holds; a fiber that yields has a way to be resumed |
| `Runtime.FinishKeeps` | src/fiber/fiber.cpp:186-197 | a fiber that ends is nowhere scheduled |
| `Runtime.TakeKeeps` | src/fiber/scheduler.cpp:162-191 | taking a task off the queue, RUNNING fibers skipped, keeps the invariant |
| `Runtime.LookKeeps` | src/fiber/iomanager.cpp:159-182 | addEvent of a waiting fiber fails its first assertion exactly when its event is registered, and keeps the invariant otherwise |
| `Runtime.ArmKeeps` | src/fiber/iomanager.cpp:178-191 | the epoll_ctl of addEvent, or its failure, after which do_io cancels its timer and returns, keeps the invariant |
| `Runtime.BindKeeps` | src/fiber/iomanager.cpp:198-202 | the second assertion fails exactly when there is a scheduler or a fiber in the context; otherwise the invariant is kept |
| `Runtime.StoreKeeps` | src/fiber/iomanager.cpp:203-208 | the fiber is stored, in place of any other, and is RUNNING; the invariant is kept |
| `Runtime.FireKeeps` | src/fiber/iomanager.cpp:430-463 | a locked region on any events goes wrong exactly when epoll_ctl succeeds and one of them has no scheduler, and keeps the invariant otherwise |
| `Runtime.AfterWakeKeeps` | src/fiber/hook.cpp:145-154 | cancelling the timer and retrying or returning keeps the invariant |
| `Runtime.CallbackKeeps` | src/fiber/hook.cpp:126-133 | a timeout callback at any moment, or the wake-up of a sleeper, keeps the invariant |
| `Runtime.ExpireKeeps` | src/fiber/timer.cpp:113-124 | a timer expiring at any moment, its callback queued, keeps the invariant |
| `Runtime.TriggerKeeps` | src/fiber/iomanager.cpp:250-284 | consuming a wait moves its fiber from the context to the task queue, whether the fiber has yielded or not; without a fiber nothing is pushed |
| `Runtime.SleepKeeps` | src/fiber/hook.cpp:168-180 | the hooked sleep arms its timer before it yields |
| `Runtime.OneThreadPerFiber` | src/fiber/scheduler.cpp:162-202 | in every reachable state a fiber is in the hands of at most one thread, RUNNING exactly when run and READY when about to be resumed, and not queued as well |
| `Runtime.ResumeAndYieldHold` | src/fiber/fiber.cpp:146-181 | in every reachable state the assertions of resume and yield hold for whichever thread comes to them, and so does what follows a wake-up, even when an event or timer fires while its fiber is RUNNING |
| `RuntimeFaults.StepExact` | src/fiber/iomanager.cpp:156-464 | a step of the runtime keeps an event in agreement (its bit stands for one fiber in a complete context, or for one fiber between the bit and the work) exactly when it breaks no rule at that event |
| `RuntimeFaults.EventExact` | src/fiber/iomanager.cpp:156-464 | over every run an event is in agreement in every state if and only if no step breaks a rule there, whatever happens at other events |
| `RuntimeFaults.CrashExact` | src/fiber/iomanager.cpp:170-208 | a run of the runtime fails an assertion, follows a null scheduler or ends agreement if and only if some step of it breaks a rule: addEvent meets its bit set, or a locked region, a timeout callback among them, takes effect on an unregistered event or between the bit and the work of an addEvent |
| `Runtime.OnePlace` | src/fiber/hook.cpp:112-155 | in every reachable state a fiber that has yielded is in at most one of queue, hand, context and timer, and in none if and only if its last wait was deleted, or replaced in its context |
| `RuntimeFaults.NoLostWakeUp` | src/fiber/hook.cpp:112-155 | over every run a fiber that has yielded is in at most one place that resumes it, and in none if and only if its last wait was withdrawn by delEvent, replaced in its context, or not heard because its event was taken away before the fiber was stored |
| `RuntimeFaults.HeardUnlessBroken` | src/fiber/hook.cpp:136-145 | over every run a wait is not heard, or replaced, only if some step of the run broke a rule at its event; where none did, every fiber that waits for the event can be resumed by it |
| `RuntimeFaults.StrikeOutcome` | src/fiber/iomanager.cpp:193-208 | what a locked region does that takes effect between the bit and the work of a fiber's addEvent: it fails before the scheduler is stored, unless it is delEvent; otherwise the fiber goes on without its bit, its context empty |
| `RuntimeFaults.StruckForGood` | src/fiber/iomanager.cpp:202-208 | a fiber whose event was taken between the scheduler and the fiber yields and is not resumed in any later run |
| `RuntimeDelivery.ReadinessWakes` | src/fiber/iomanager.cpp:420-463 | where no addEvent is between bit and work on the descriptor: a report resumes the fibers of the registered events that were reported, of all registered ones after an error or a hang-up, READ first, and clears exactly their bits; it goes wrong exactly when an unregistered event is reported along with a registered one |
| `RuntimeDelivery.CancelWakes` | src/fiber/iomanager.cpp:250-284 | cancelEvent pushes the fiber of its event to the task queue exactly when the event is registered and epoll_ctl can and does succeed |
| `RuntimeDelivery.CancelAllWakes` | src/fiber/iomanager.cpp:286-326 | the same for all fibers that wait on the descriptor, READ first |
| `RuntimeDelivery.StepFate` | src/fiber/iomanager.cpp:156-326 | in one step a wait is deleted exactly by the delEvent that withdraws its event, replaced exactly by the addEvent that stores another fiber in its context, and otherwise waits on or is consumed; what is settled stays so |
| `RuntimeDelivery.DroppedExactly` | src/fiber/iomanager.cpp:212-326 | over every run a wait is deleted if and only if a delEvent of its event took effect while it waited |
| `RuntimeWaits.DeletedNeverResumed` | src/fiber/iomanager.cpp:212-248 | a fiber whose last wait was withdrawn by delEvent, or replaced, stays READY and in no place that resumes it, in every later run |
| `RuntimeWaits.WaitsWatchedExact` | src/fiber/iomanager.cpp:156-464 | over every run of the whole runtime what fibers wait for and what the kernel watches agree in every state if and only if no step intrudes on an addEvent |
| `RuntimeWaits.WaiterIsWatched` | src/fiber/hook.cpp:136-145 | in a run without intrusion the kernel watches the event of every fiber in a context whose bit is set |
| `RuntimeWaits.ForsakenForGood` | src/fiber/hook.cpp:125-145 | a fiber out of its context, in a context without a scheduler, or on a registered descriptor that the kernel does not know is never resumed: neither readiness nor its own timeout, cancelEvent, cancelAll or delEvent reaches it, in any later run |
| `RuntimeExamples.TwoReadersCrash` | src/fiber/iomanager.cpp:170-176 | the run of two fibers that read from one socket, which fails the assertion |
| `RuntimeExamples.WriterIsStranded` | src/fiber/hook.cpp:136-145 | the run of a reader and a writer on one socket that leaves the writer on a descriptor unknown to the kernel |
| `RuntimeExamples.OneReaderCrashes` | src/fiber/iomanager.cpp:194-202 | the run of one reader of one socket in which idle() follows the null scheduler |
| `RuntimeExamples.OneReaderLost` | src/fiber/iomanager.cpp:202-206 | the run of one reader of one socket that is not heard and waits for ever |
| `RuntimeTimeouts.TimeoutToCome` | src/fiber/hook.cpp:125-145 | over every run a fiber in do_io with a timeout has its timer set, or the callback queued or in hand, unless a timeout of the same call has come and is noted in its timer_info |
| `RuntimeTimeouts.TimeoutWakesExactly` | src/fiber/hook.cpp:126-133 | a timeout callback moves its fiber to the task queue exactly when none came before in that call, the bit is set, epoll_ctl succeeds and the fiber is in the context; otherwise the fiber waits on without it |
| `RuntimeReturns.ReturnsExactly` | src/fiber/hook.cpp:141-155 | over every run a fiber that goes on after its wait leaves do_io, its timer_info freed, if and only if the callback of a timer of that call has been run; otherwise it is back at retry in the same call with its timer_info; in both cases its own timer is no longer set, and the others stay |
| `RuntimeReturns.NoTimerNoTimeout` | src/fiber/hook.cpp:125-134 | over every run a call of do_io whose timeout callback has been run has set a timer |
| `RuntimeReturns.AddCtlExact` | src/fiber/hook.cpp:136-141 | when epoll_ctl in addEvent succeeds the kernel watches the event with those seen before, and do_io goes on; when it cannot or does not, do_io cancels its timer and returns |
| `RuntimeReturns.CallEndsExactly` | src/fiber/hook.cpp:115-158 | in every reachable state a call of do_io ends in three ways and no other: the operation does not block, the fiber goes on after its wait and a timeout has come, or addEvent fails |
| `RuntimeExamples.TimeoutTooEarly` | src/fiber/hook.cpp:125-145 | the run in which the timer expires before the bit is set, and the fiber waits with no timer and no callback left |
| `Runtime.WaitWakesOnce` | src/fiber/hook.cpp:112-155 | over every interleaving of readiness, timeout, cancelEvent, cancelAll and delEvent, at any moment of an addEvent, a wait pushes its own fiber exactly once when consumed and never otherwise, and is in its context until it is consumed, deleted or replaced |
| `Runtime.LateTimeoutIsInert` | src/fiber/hook.cpp:126-133 | a timeout callback that runs after do_io has returned changes nothing, however much later |
| `ThreadPools.StepKeeps` | include/fishjoy/thread/threadpool.hpp:98-289 | a step goes wrong exactly when a pool with threads is started after thread numbers have been given out; every other step keeps the invariant |
| `ThreadPools.CountersExact` | include/fishjoy/thread/threadpool.hpp:157-289 | over every run taskSize_ is the queue length within its limit, curThreadSize_ the number of threads between the initial size and max(initial size, threshold), and idle + busy = curThreadSize_ |
| `ThreadPools.FifoAndOnce` | include/fishjoy/thread/threadpool.hpp:157-289 | over every run accepted tasks leave in order, and each one taken is being run by exactly one thread or has been run |
| `ThreadPools.AbandonedExactly` | include/fishjoy/thread/threadpool.hpp:157-251 | a step leaves a queued task with no thread exactly when the last thread retires although a task was queued while it waited, or a task is accepted where there is no thread and none is made; and gives it one exactly by a later accepted task of a cached pool that allows threads |
| `ThreadPools.AbandonedNeedsNoInitial` | include/fishjoy/thread/threadpool.hpp:231-251 | over every run only a pool with initial size 0 can have a queued task and no thread |
| `ThreadPools.SecondTaskAbandoned` | include/fishjoy/thread/threadpool.hpp:231-251 | the run of a cached pool in which the second task is left without a thread |
| `ThreadPools.SubmitExact` | include/fishjoy/thread/threadpool.hpp:166-203 | a task is accepted exactly when there is room, and then a thread is made exactly when the pool is cached, the queue is longer than there are idle threads, and there are fewer threads than allowed; so, when all are busy, exactly when it is cached and may have more |
| `ThreadPools.SettingsFrozen` | include/fishjoy/thread/threadpool.hpp:125-143 | over every run the settings of a started pool do not change |
| `ThreadPools.SetUp` | include/fishjoy/thread/threadpool.hpp:98-143 | a pool that is set up and started has the settings asked for, except that a threshold set in fixed mode is ignored |
| `ThreadPools.StartExact` | include/fishjoy/thread/threadpool.hpp:98-123 | start is safe exactly for no threads or before any thread object was made |
| `ThreadPools.ThreadPool.Start` | include/fishjoy/thread/threadpool.hpp:98-123 | on a pool not yet started, for any number given out before: the two loops make the start step, or follow a null pointer exactly where the machine says so |
| `ThreadPools.ThreadPool.CreateThreads` | include/fishjoy/thread/threadpool.hpp:108-115 | the first loop adds threads with the next n numbers, whatever is there already |
| `ThreadPools.ThreadPool.StartThreads` | include/fishjoy/thread/threadpool.hpp:117-122 | the second loop starts the numbers 0 to n-1 and counts them idle, or meets a null pointer exactly when one of them is missing |
| `ThreadPools.ThreadPool.SubmitTask` | include/fishjoy/thread/threadpool.hpp:157-206 | makes the submit step; accepted exactly when there is room |
| `ThreadPools.ThreadPool.Recycle` | include/fishjoy/thread/threadpool.hpp:231-251 | after a wait that timed out, whatever has been queued meanwhile, ends the thread exactly after 60 idle seconds above the initial size |
| `ConnectionPools.FirstUsable` | src/http/http_connection.cpp:216-229 | the list is searched up to the first connection that passes both tests |
| `ConnectionPools.GetKeeps` | src/http/http_connection.cpp:211-230 | the locked region keeps the invariant and touches no deleted connection |
| `ConnectionPools.DeleteInvalidKeeps` | src/http/http_connection.cpp:231-234 | each deletion is the first of its connection |
| `ConnectionPools.ConnectKeeps` | src/http/http_connection.cpp:236-254 | making a connection, or failing to, keeps the invariant |
| `ConnectionPools.HandOutKeeps` | src/http/http_connection.cpp:256-257 | handing a connection out keeps the invariant |
| `ConnectionPools.ReleaseKeeps` | src/http/http_connection.cpp:261-272 | both decisions of ReleasePtr keep the invariant |
| `ConnectionPools.TotalExact` | src/http/http_connection.cpp:211-272 | in every run m_total is pooled + checked out + in transit up to what calls under way owe it; with no call under way exactly pooled + checked out |
| `ConnectionPools.OneOwner` | src/http/http_connection.cpp:211-272 | in every run, for any outcome of the tests, a connection is pooled at most once and nowhere else then, held by at most one call, handed out at most max(1, m_maxRequest) times, and never used or deleted after deletion |
| `ConnectionAges.KeptOnlyExpired` | src/http/http_connection.cpp:261-272 | over every run a connection in the list, and one handed out again, was put back at a time when created + maxAlive < now |
| `ConnectionAges.TakenOnlyExpired` | src/http/http_connection.cpp:211-230 | after every run getConnection takes only a connection with created + maxAlive <= now; what it passes over is unconnected or younger, and younger never happens while the clock does not go back: its age test has no effect |
| `ConnectionAges.AgeTestInverted` | src/http/http_connection.cpp:261-272 | for every lifetime and clock a connected connection released once is deleted if its lifetime is not over, and kept if it is |
| `ConnectionAges.ReleaseExact` | src/http/http_connection.cpp:261-272 | ReleasePtr puts a connection back exactly if it is connected, created + maxAlive < now, and it has been used less often than allowed; otherwise it drops it |
| `ConnectionAges.PooledWasConnected` | src/http/http_connection.cpp:261-272 | over every run a connection in the list was connected, and passed the other two tests, when its last user gave it back |
| `ConnectionAges.ListIsQueue` | src/http/http_connection.cpp:216-272 | getConnection takes a first part of the list, up to the first usable connection, ReleasePtr puts one connection at its end, and nothing else changes it |
| `ConnectionPools.HttpConnectionPool.Fetch` | src/http/http_connection.cpp:215-230 | the locked region on the heap makes the machine step |
| `ConnectionPools.HttpConnectionPool.PopInvalid` | src/http/http_connection.cpp:216-229 | the loop returns the invalid connections in order and the first usable one |
| `UrlCodec.UrlEncode` | src/utils/util.cpp:220-249 | the loop with its lazily made buffer equals the byte-by-byte map |
| `UrlCodec.UrlDecode` | src/utils/util.cpp:251-280 | the loop with its lazily made buffer equals the map that reads escapes one by one |
| `UrlCodec.DecodeEncode` | src/utils/util.cpp:220-280 | decoding undoes encoding for every byte string, with the same flag or a more liberal one |
| `UrlCodec.DecodePlussed` | src/utils/util.cpp:220-280 | with the other flags spaces, and only they, come back as plus signs |
| `UrlCodec.RoundTripExact` | src/utils/util.cpp:220-280 | for all four combinations of the flags, the string comes back if and only if the decoder reads plus, the encoder does not write it, or there is no space |
| `UrlCodec.EncodeSafe` | src/utils/util.cpp:174-195 | encoded text consists of unreserved characters, percent and plus |
| `UrlCodec.EqualsKept` | src/utils/util.cpp:174-195 | '=' appears in encoded text exactly when it is in the string |
| `UrlCodec.EscapeExact` | src/utils/util.cpp:174-242 | letters, digits and - . _ ~ = stay themselves, a space may become a plus sign, and every other byte becomes a percent sign and its two digits in capitals |
| `UrlCodec.EscapeEitherCase` | src/utils/util.cpp:197-275 | an escape of any byte is read with digits of either case, although the encoder writes capitals |
| `UrlCodec.StrayPercent` | src/utils/util.cpp:258-275 | a percent sign that two digits do not follow stays itself |
| `Params.ParseParam` | src/http/http.cpp:202-227 | the loop ends on every string, and the i-th insertion is the i-th pair of the recursive definition, for every i, with no others |
| `Params.InsertedInOrder` | src/http/http.cpp:219-220 | inserting the pairs one by one keeps their order |
| `Params.NextPair` | src/http/http.cpp:205-222 | one pass of the loop |
| `Params.TrimExact` | src/utils/util.cpp:282-289 | Trim takes exactly the blanks at both ends of any text off |
| `Params.ParseCut` | src/http/http.cpp:206-222 | a key with '=' in it comes back as exactly the part before its first '=' |
| `Params.QueryRoundTrip` | src/http/http.cpp:229-244 | a query or form body printed from a list of pairs parses to that list, in order, if and only if no key has an '=' in it |
| `Params.CookieRoundTrip` | src/http/http.cpp:246-257 | the same for cookies separated by a semicolon and any blanks |
| `LogPattern.LogFormatter.Init` | src/log/log.cpp:395-489 | item i is what entry i of the pattern is formatted by, for every i, with no others; for a printed pattern the entries are its tokens with adjacent literals merged, one item for each token where no two literals are together; m_error is set exactly when a brace is left open or a name is unknown |
| `LogPattern.LogFormatter.Collect` | src/log/log.cpp:399-463 | the outer loop collects the entries of the recursive definition in their order |
| `LogPattern.LogFormatter.ParseItem` | src/log/log.cpp:412-445 | the inner loop finds the end, name and format of an item, or that its brace is open |
| `LogPattern.PatternRoundTrip` | src/log/log.cpp:395-463 | for every well-formed token list the printed pattern is parsed to the list with adjacent literals merged |
| `LogPattern.PushedInOrder` | src/log/log.cpp:446-462 | push_back keeps the order of the entries |
| `LogPattern.SeparatedItems` | src/log/log.cpp:395-488 | a printed pattern in which no literal is empty or follows another gives one item for each token, in order: the text, the formatter of the name with its format, or the error text for an unknown name |
| `LogPattern.ErrorExact` | src/log/log.cpp:464-488 | and m_error is set exactly when some name is unknown |
| `LogPattern.PercentsSkip` | src/log/log.cpp:405-410 | in every pattern, of k percent signs in a row all but the last go to the text and the last one still begins an item |
| `LogPattern.PercentsParse` | src/log/log.cpp:405-445 | what they parse to; and unless a letter or brace follows, that item has no name and is unknown |
| `LogPattern.DoublePercent` | src/log/log.cpp:405-410 | the witness: "%%" alone is the text "%" and an item without a name |

## Left out

- HTTP messages and URLs (`HttpRequestParser`, `HttpSession`, `Uri`): the bodies of the parser functions they call are not part of this model.
- Address lookup, configuration, environment, servlets, log appenders and buffers: plumbing, would only add easy members.
- ucontext switching, epoll, pthread, sockets and clocks are foreign: they appear as steps or arguments that may do anything their manuals allow (partial counts, failures, readiness at any time, time that does not go back except where a rollover is the point).
- Widths: deadlines and counters do not overflow 64 bits, lengths and positions are unbounded, limits of the thread pool are not negative; words are truncated explicitly only where the codecs depend on it.
- Freeing of memory in `ByteArray::clear` and in destructors, `writeToFile`, `readFromFile`, the positional `read`, and the bit copies of float and double.
- Streams.SocketStream.Write: with nothing to send, the program takes the address of the first element of an empty vector; here the call sends nothing.
- `IOManager::stopping` with several threads: it reads timers, events and the queue at three moments; shutdown is proved for `Scheduler::stopping`.
- IoEvents.RunExact: what is within one of the five steps of addEvent is taken together: the reads of the bits for assertion, operation and mask (lines 171-181), with no call between them, and the growing of the context table; the count and the `|=` on the bits (lines 194-197), although that is a read and a write; the second assertion and the scheduler (lines 199-202). A region under the lock of a descriptor is one step towards addEvent too, which does not take the lock.
- RuntimeFaults.CrashExact: takes the same things together.
- RuntimeFaults.NoLostWakeUp: a wait that was not heard can be in reach again for as long as another addEvent of the same event is between its bit and its second assertion; the third clause says so.
- RuntimeTimeouts.TimeoutToCome: one way only; that a callback which was run does not come again is not stated.
- IoManagers.FdContext.TriggerEvent: does what the comment at lines 88-91 says, where line 92 masks its parameter; with that line taken literally no event is ever delivered, and nothing could be said of the event machine.
- Runtime.FireKeeps: reports are arbitrary there; `IoEvents` ties them to what epoll_wait can have reported.
- `Fiber::yield` is one step: the program sets READY just before it switches contexts. The main fiber, `cb_fiber` reuse and exceptions in fibers are not modelled; a callback task is a fiber that its scheduler creates.
- Runtime.TakeKeeps: a thread may take any eligible task, not only the first, so that pins need not be modelled there; `Schedulers` has the first and the pins.
- `connect_with_timeout` and the other hooked calls: they follow the protocol of `do_io`.
- ThreadPools.CountersExact: in the runs tasks are submitted only after start; before it a cached pool would create threads that end at once without giving their count back. A second start of the same pool, which would run its threads twice, and the destructor are not modelled.
- ThreadPools.ThreadPool.Start: one step, although its threads could already run while the loop goes on; and the first start of the pool only.
- The maps that `PARSE_PARAM` inserts into keep the first of several keys that are equal without regard to case; the model stops at the list of insertions.
- LogPattern.PatternRoundTrip: names are ASCII letters, as `isalpha` has it in the C locale; the rendering of the items is not modelled.
