# The HDMI CEC library: threads, driver and codec

A model of the core of the RDK HDMI CEC library and proofs of what it promises. `dafny verify dfyconfig.toml` checks all of it.

**The threads.** `Engine` is a transition system of everything that happens concurrently: the Bus reader and writer threads, the
thread inside `LibCCEC::init` or `term` (with `Bus::start`, `Bus::stop` and the worker stops inlined), the HAL receive
callback, and any number of application calls. Steps are as fine as the locks: `close` takes four, because the callback reads the
driver's status without its mutex; `poll` waits in one step and pops in another. `EngineInv` and `EngineHistory` hold the inductive
invariants, `EngineTheorems` what follows for every run, `EngineLiveness` and `EngineProgress` (over `FairProgress`) what
happens in the end on infinite runs under weak fairness: shutdown terminates, and while the library is up every frame received is dispatched and every frame accepted is written. Below it, `QueueProtocol` models one `EventQueue` down to its mutex, flag, sleeping and waking, for
any number of threads; that it is linearizable justifies taking a queue call as one step in the engine; beside it, `LockOrder` writes every path through the library
down as the mutexes it takes, and `LockUse` shows the deepest nestings that occur.

The engine makes one assumption about scheduling, `Engine.Settled`: a restarted worker thread enters its `run` before somebody asks
it to stop. Without it `Bus::stop` either goes on beside a worker that is still alive or waits for it for ever: `EngineUnsettled` gives runs for
both and for either worker, and `EngineTheorems.StopEndsReaderIffSettled` and its counterpart for the writer show that the assumption is exactly what is needed. As in the library, init and term
exclude each other, listeners do not throw and call neither init nor term, and frames that are sent have at least one byte.

**The classes.** `EventQueues`, `Stoppables`, `Frames`, `Drivers`, `Buses` and `CodecMethods` are the library's objects with their
fields, arrays and loops, one call at a time, each method specified by a function or a property of the old and new state. What
other threads may change between two turns of a loop, and what the HAL answers, are parameters. `EngineCalls` connects the two levels:
steps of the engine, taken by one thread without interruption, add up to what the methods do. `Lists` says what the listener and address registries hold, and in which order, after
any history of calls.

**The codec.** `Codec` is `MessageEncoder`, `MessageDecoder`, the message classes and operands on byte strings, following
sections CEC 15 and CEC 17 of HDMI Specification 1.4b Supplement 1 and, for Report Features, section 11 of the HDMI Specification 2.0; `CodecProofs` relates the two
directions, and `CodecLayout` says byte by byte, from the declared sizes of the operands alone, which frames decode to which message. A message *survives* (`CodecProofs.Survives`) when the decoder has a case for it, its language and vendor operands are not
empty, its OSD name or string has 1 to 14 or 1 to 13 bytes, the opcode it aborts is one byte, the address in System Audio Mode Request or
Request Current Latency is not F.F.F.F, and in Report Features the RC profile is one chain of extended bytes with an end and the
device features are one chain. Where the C++ computes with a wrapped-around length the decoder's result is `Unspecified`, and `CodecProofs.UnspecifiedIff` lists exactly those frames.

Where the repository's documentation and its code disagree, the code is followed:

- README.md:277-284 and README.md:199 set `initialized` before the bus is started; the code sets it last, so a failed init can be repeated.
- README.md:387-389 lets `read` give up when the queue is empty and the driver not open; the code blocks in `poll` and looks at the status only after taking a NULL.
- README.md:245 ends the writer at a NULL; the code only ends it when it is no longer running, and goes on after a stale NULL.
- README.md:542 denies retries; `Bus::send` with a timeout retries.

## Model

| member | source | states |
|---|---|---|
| QueueProtocol.RunKeepsInv | osal/include/osal/EventQueue.hpp:109-180 | mutual exclusion, the flag's meaning at every step, nobody asleep through a wakeup, and FIFO history hold in every interleaving of any number of threads |
| QueueProtocol.BoundedFifo | osal/include/osal/EventQueue.hpp:109-180 | accepted offers are the polled elements followed by the contents; size never exceeds the capacity; with the mutex free the flag is set exactly when the queue is not empty |
| QueueProtocol.NoLostWakeup | osal/src/ConditionVariable.cpp:61-151 | with the mutex free nobody sleeps beside a non-empty queue, and unless a thread is idle or asleep on an empty queue somebody can move |
| QueueProtocol.Linearizable | osal/include/osal/EventQueue.hpp:109-180 | every call of offer, poll and size takes effect exactly once between its call and its return, with the result it returns, and the effects in order are a run of the sequential bounded queue ending with the actual contents |
| QueueProtocol.StepTakesEffect | osal/include/osal/EventQueue.hpp:109-180 | the queue changes only in the step that is a call's effect, and as the sequential queue would |
| QueueProtocol.CallReturns | osal/include/osal/EventQueue.hpp:109-180 | from every reachable state, a thread left alone with a call it can carry out is out of it within six steps, the mutex free and the queue as the call leaves it |
| QueueProtocol.OneConsumerNeverSeesDefault | osal/include/osal/EventQueue.hpp:109-123 | with a single consumer `poll` never returns the default value |
| QueueProtocol.TwoConsumersMaySeeDefault | osal/include/osal/EventQueue.hpp:113-117 | with two consumers and a producer, whoever they are and whatever the capacity, some run makes `poll` return the default value |
| EventQueues.EventQueue.Offer | osal/include/osal/EventQueue.hpp:168-180 | refused exactly when full, otherwise appended, with the flag kept in step |
| EventQueues.EventQueue.PollLocked | osal/include/osal/EventQueue.hpp:115-135 | the part after the wait: front element, or the default when the flag is down or the queue empty; resets the flag on the last element |
| EventQueues.EventQueue.Poll | osal/include/osal/EventQueue.hpp:109-138 | by the only consumer: the front element, or blocks exactly on the empty queue |
| EngineTheorems.StepKeepsGood | ccec/src/Bus.cpp:83-121 | one settled step of any thread keeps all of the engine's invariants |
| EngineTheorems.RunIsGood | ccec/src/Bus.cpp:83-121 | the invariants hold in every state of every settled run |
| EngineTheorems.ReaderIsWoken | ccec/src/DriverImpl.cpp:146-216 | a reader waiting on a driver that is not open has something to poll or the close's offer is still to come, even when the sentinel was refused; its other polls cannot block |
| EngineTheorems.WriterIsWoken | ccec/src/Bus.cpp:259-342 | a writer that waits after being asked to stop has something to poll or the stopper's offer is still to come; the drain never blocks |
| EngineTheorems.FreedExactlyOnce | ccec/src/Bus.cpp:408-427 | every allocated frame is in exactly one place, and having been freed is one of the places |
| EngineTheorems.WriterLeavesNothingBehind | ccec/src/Bus.cpp:259-342 | once the writer is joined the transmit queue holds at most one stale NULL, every accepted frame was written or drained, in order, and every copy sendAsync ever made, refused ones included, has been freed exactly once |
| EngineTheorems.ReceivedInOrder | ccec/src/DriverImpl.cpp:59-91 | frames accepted from the HAL are, in order, those dispatched or flushed, then the one in hand, then those queued, without duplicates; whatever is or is about to be dispatched is a frame of 1 to 128 bytes and not a sentinel |
| EngineTheorems.SentInOrder | ccec/src/Bus.cpp:259-306 | frames accepted by sendAsync are, in order, those written or drained, then the one in hand, then those queued, each at most once; within one session of the writer all written ones come before all drained ones, and no sentinel is written |
| EngineTheorems.WrittenIsTransmitted | ccec/src/DriverImpl.cpp:259-282 | over every run, the HAL transmissions made by the writer thread are, in order, exactly the bytes of the frames it wrote while the driver was open |
| EngineTheorems.HalIsUsedProperly | ccec/src/DriverImpl.cpp:124-175 | in the HAL trace every open is outside a session and every close, transmit and address call inside one |
| EngineTheorems.LifecycleAgrees | ccec/src/LibCCEC.cpp:85-124 | between init and term calls: initialized, started and OPENED all true or all false, whatever the HAL answered; after a term both threads have ended |
| EngineTheorems.MissedForGood | ccec/src/Bus.cpp:196-220 | a reader that misses its stop request is never caught by the rest of that term |
| EngineTheorems.StopEndsReaderIffSettled | ccec/src/Bus.cpp:196-220 | stop has got rid of the reader when it goes on to the writer if and only if the reader had entered its `run` when asked |
| EngineTheorems.StopEndsWriterIffSettled | ccec/src/Bus.cpp:316-342 | stop gets past its wait for the writer with the writer gone if and only if the writer had entered its `run` when asked |
| EngineTheorems.StuckForGood | ccec/src/Bus.cpp:211-218 | a worker that enters its loop unasked while stop waits for it makes stop wait for ever, whatever anybody does |
| EngineTheorems.WriterMissedForGood | ccec/src/Bus.cpp:316-342 | a writer that misses its stop request is never caught by the rest of that term |
| EngineUnsettled.LateReaderExists | ccec/src/Bus.cpp:83-121 | after init, term and init a settled run reaches the second stop with the reader spawned and not yet in its `run` |
| EngineUnsettled.LateReaderFails | ccec/src/Bus.cpp:196-220 | a stop that asks a reader not yet in its `run` can go on to the writer with the reader alive, or wait for it for ever: one run for each |
| EngineUnsettled.LateWriterExists | ccec/src/Bus.cpp:83-121 | a settled run reaches the second stop's request to a writer that is spawned and not yet in its `run` |
| EngineUnsettled.LateWriterFails | ccec/src/Bus.cpp:316-342 | a stop that asks a writer not yet in its `run` can go on with the writer alive, or wait for it for ever with both bus mutexes held: one run for each |
| EngineHistory.StepKeepsOwnership | ccec/src/Bus.cpp:271-305 | one step moves each frame between places without copying or losing it |
| EngineHistory.StepKeepsOrder | ccec/src/DriverImpl.cpp:177-216 | one step keeps both order statements and the distinctness of frames |
| EngineHistory.StepKeepsHalTrace | ccec/src/DriverImpl.cpp:124-312 | one step keeps the HAL session in step with the driver's status |
| EngineInv.StepKeepsShape | ccec/src/Bus.cpp:157-342 | one settled step keeps the control invariants: lifecycle, mutual exclusion, phases, wakeups, bounds |
| Hal.ScanMeansProper | ccec/src/DriverImpl.cpp:124-175 | the handle automaton and the statement about sessions agree in both directions |
| EngineLiveness.StepComesNearer | ccec/src/Bus.cpp:157-342 | during shutdown no step goes back, and each step of the thread it waits for brings the end nearer |
| EngineLiveness.HelperCanMove | ccec/src/Bus.cpp:157-342 | the thread the shutdown waits for is never blocked |
| EngineLiveness.StopTerminates | ccec/src/Bus.cpp:196-220 | in every weakly fair infinite run, term past the first critical section of Bus::stop ends, with both threads gone and the driver closed |
| EngineLiveness.TermTerminates | ccec/src/Bus.cpp:106-121 | every call of term reaches its end, with both threads gone and the driver closed, in runs where moreover senders give wMutex back and the thread in term is served strongly fairly |
| EngineProgress.ReceivedIsDispatched | ccec/src/Bus.cpp:157-186 | in every weakly fair run in which, from some time on, the reader is running, the driver open and no start or stop holds the bus, every queued frame is dispatched in the end |
| EngineProgress.AcceptedIsWritten | ccec/src/Bus.cpp:259-306 | in every weakly fair run in which, from some time on, the writer is running and the driver open, every queued frame is written in the end while the driver is open |
| LockOrder.EveryPathOrdered | ccec/src/Bus.cpp:83-121 | every path, with every early exit and any number of wakeups and looks in each poll, takes new mutexes in rank order, or again ones it holds, and ends holding none |
| LockOrder.NoCircularWait | ccec/src/Bus.cpp:353-427 | no cycle of waiting threads, for any number of threads in any reachable state |
| LockOrder.SomebodyCanMove | osal/src/Mutex.cpp:44 | while any thread has something left to do, some thread can go on |
| LockOrder.TermOrdered | ccec/src/Bus.cpp:106-121 | term, refused or not, including its two waits for worker threads and its later closes, keeps to the lock order |
| LockOrder.ReaderThreadOrdered | ccec/src/Bus.cpp:167-184 | the reader's loop keeps to the lock order, with listeners that send from inside a notification |
| LockOrder.WriterThreadOrdered | ccec/src/Bus.cpp:259-306 | the writer's two loops keep to the lock order, with turns that take a NULL and write nothing |
| LockOrder.CallOrdered | ccec/src/Connection.cpp:328-342 | every call an application or a listener may make, on a started bus or not, keeps to the lock order, also while a connection is locked for a notification |
| LockUse.ListenerSends | ccec/src/Bus.cpp:353-398 | a listener that sends with retries reaches the driver's mutex with both bus mutexes taken twice, on top of the reader's and the connection's |
| LockUse.ListenerQueues | ccec/src/Bus.cpp:408-427 | a listener that sends asynchronously reaches the flag of the transmit queue under wMutex, the reader's lock and the connection's |
| LockUse.ReaderFlushes | ccec/src/DriverImpl.cpp:187-209 | the reader empties its queue with the driver's mutex held |
| LockUse.WriterTakes | ccec/src/Bus.cpp:271-296 | the writer takes the queue's locks and then, without them, the driver's |
| LockUse.TermCloses | ccec/src/DriverImpl.cpp:146-175 | the sentinel of a close is offered with the driver's mutex held |
| LockUse.TermWaitsForReader | ccec/src/Bus.cpp:106-121 | stop waits for the reader without either bus mutex |
| LockUse.TermWaitsForWriter | ccec/src/Bus.cpp:106-121 | stop waits for the writer with both bus mutexes held |
| LockUse.TermAsksWriter | ccec/src/Bus.cpp:316-331 | the writer's sentinel is offered with wMutex taken twice |
| EngineCalls.ClosesAtOnce | ccec/src/DriverImpl.cpp:146-175 | the engine's close steps, uninterrupted, do what `DriverImpl.Close` does |
| EngineCalls.ReadsFirstReal | ccec/src/DriverImpl.cpp:177-216 | the reader alone, on an open driver, comes back with the first real frame and leaves the rest, or waits with all sentinels discarded, as `DriverImpl.Read` |
| EngineCalls.DispatchesFirstReal | ccec/src/Bus.cpp:167-186 | one uninterrupted round of the running reader, from the top of its loop and back, dispatches the first real frame and leaves the rest queued |
| EngineCalls.FlushesAtSentinel | ccec/src/DriverImpl.cpp:187-209 | a NULL at the front of the queue of a driver that is not open makes the reader free everything queued and return to the top of its loop |
| EngineCalls.WritesFront | ccec/src/Bus.cpp:271-296 | one uninterrupted turn of the writer transmits the front frame if the driver is open and nothing otherwise, frees it once, and leaves the rest queued |
| EngineCalls.DirectCallReachesHal | ccec/src/DriverImpl.cpp:259-375 | a direct transmit or address call makes its one HAL call if the driver is open, and none otherwise |
| EngineCalls.FlushesAll | ccec/src/DriverImpl.cpp:199-210 | the reader's flush steps free every queued frame once, in order, as `DriverImpl.Flush` |
| EngineCalls.DrainsAll | ccec/src/Bus.cpp:298-303 | the writer's drain steps free every queued frame once, in order, and leave the transmit queue empty, as `Bus.Drain` |
| EngineCalls.ReceivesAtOnce | ccec/src/DriverImpl.cpp:64-91 | the callback's check and offer, uninterrupted, queue or free the frame as `DriverImpl.Receive` does |
| EngineCalls.SendsAtOnce | ccec/src/Bus.cpp:408-427 | the two steps of sendAsync, uninterrupted, queue or free the copy, or do nothing on a bus that is not started, as `Bus.SendAsync` |
| EngineCalls.StartsAtOnce | ccec/src/Bus.cpp:83-98 | the engine's steps for Bus::start, uninterrupted, do what `Bus.Start` does, with a failing open too |
| EngineCalls.StopsReaderAtOnce | ccec/src/Bus.cpp:196-209 | the engine's steps for stopping the reader, up to the wait, do what `Bus.StopReader` does |
| EngineCalls.StopsWriterAtOnce | ccec/src/Bus.cpp:316-331 | the engine's steps for stopping the writer, up to the wait, do what `Bus.StopWriter` does |
| Drivers.DriverImpl.Open | ccec/src/DriverImpl.cpp:124-144 | opens the HAL only when closed; the driver is open afterwards unless the HAL failed |
| Drivers.DriverImpl.Close | ccec/src/DriverImpl.cpp:146-175 | always ends closed, with one sentinel offered and one HAL close per session, and reports a failed HAL close |
| Drivers.DriverImpl.Receive | ccec/src/DriverImpl.cpp:59-91 | queues exactly the frames of 1 to 128 bytes that arrive while open with room left; frees the others it allocated |
| Drivers.DriverImpl.ReadLoop | ccec/src/DriverImpl.cpp:187-215 | skips sentinels taken while open; returns the first real frame and leaves the rest; flushes everything, each frame freed once, at a sentinel taken while not open; blocks otherwise |
| Drivers.DriverImpl.Read | ccec/src/DriverImpl.cpp:177-216 | refuses when not open, otherwise takes the first real frame |
| Drivers.DriverImpl.Flush | ccec/src/DriverImpl.cpp:199-210 | empties the queue and frees every frame once, in order |
| Drivers.StopsAt | ccec/src/DriverImpl.cpp:187-215 | where `read` stops skipping: everything before is a sentinel taken while open, and there is a frame, or a sentinel taken while not open, or the end |
| Drivers.Answer | ccec/src/DriverImpl.cpp:285-308 | which HAL results become IO, which become NoAck (a broadcast's missing acknowledgement only for Report Physical Address), and that all others are accepted |
| Buses.AnswerMeans | ccec/src/DriverImpl.cpp:285-308 | for every message and header: IO exactly for an error or send result 2, 3, 4, 5 or 7; NoAck exactly for result 1 of a message that is not for everybody or is Report Physical Address |
| Drivers.DriverImpl.Write | ccec/src/DriverImpl.cpp:259-312 | outcome and HAL call of one transmission, in every state |
| Drivers.DriverImpl.AddLogicalAddress | ccec/src/DriverImpl.cpp:353-375 | the three failures, and that only a success is registered |
| Drivers.DriverImpl.RemoveLogicalAddress | ccec/src/DriverImpl.cpp:340-351 | unregisters every occurrence, while open |
| Drivers.DriverImpl.IsValidLogicalAddress | ccec/src/DriverImpl.cpp:377-389 | true exactly when the latest successful add or remove of the address was an add |
| Lists.ListedCount | ccec/src/Connection.cpp:75-110 | after any history of push_back, remove and clear a list holds each item as often as it has registrations in force |
| Lists.ListedInOrder | ccec/src/Bus.cpp:229-251 | after any history a list is made up of the registrations in force, in the order in which they were made |
| Buses.Send | ccec/src/Bus.cpp:353-398 | at most max(t,0)/250+1 attempts; an attempt that finds the bus started and the driver open and gets success from the HAL ends it with success, so IO, NoAck and InvalidState are only thrown after the last attempt; an empty frame is reported by the first attempt on a started bus; sleeps n+250(n-1) ms, at most t+t/250+1 |
| Buses.Bus.AddFrameListener | ccec/src/Bus.cpp:229-235 | registers the connection, or refuses when not started |
| Buses.Bus.RemoveFrameListener | ccec/src/Bus.cpp:244-251 | drops every registration of the connection, or refuses when not started |
| Buses.Bus.SendAsync | ccec/src/Bus.cpp:408-427 | queues a copy, frees it when the queue is full, refuses when not started |
| Buses.Bus.WriteLoop | ccec/src/Bus.cpp:271-296 | takes elements in order until the first failing test or an empty queue, hands each frame to the driver once and frees it whatever the outcome |
| Buses.Bus.Drain | ccec/src/Bus.cpp:298-303 | never blocks, empties the queue and frees every frame once, in order |
| Buses.Bus.RunWriter | ccec/src/Bus.cpp:259-306 | the two loops together: the queue ends empty, every frame freed once in order, only the first `turns` elements attempted, and the writer stopped unless it blocks |
| Buses.Bus.Start | ccec/src/Bus.cpp:83-98 | spawns exactly the workers that have stopped, opens the driver, and counts as started only if that succeeds |
| Buses.Bus.StopReader | ccec/src/Bus.cpp:196-209 | asks a running reader to stop and closes the driver with its sentinel, whatever the HAL answers |
| Buses.Bus.StopWriter | ccec/src/Bus.cpp:316-331 | asks a running writer to stop and offers it a sentinel, which may come before or after the writer has ended, and leaves any other alone |
| Buses.Bus.Stop | ccec/src/Bus.cpp:106-121 | under two schedules of the writer's end: the driver is closed and both workers count as stopped; a writer that counted as stopped before keeps its queue, any other leaves at most a late sentinel and has every queued frame freed once |
| Buses.Bus.Dispatch | ccec/src/Bus.cpp:170-179 | call number k of the connection at position i of the list comes right after all calls of the passing connections before i, and goes to the connection's listener number k; there are no other calls |
| Buses.DispatchIsExact | ccec/src/Connection.cpp:300-342 | after any history, listener l of connection c is called registrations of l times bus registrations of c, if and only if the source fixed at construction is 15 or the destination is 15 or that source |
| Buses.PassesMeans | ccec/src/Connection.cpp:300-319 | for every frame that decodes to a message, the filter passes it if and only if the source is 15 or the decoded destination is 15 or the source |
| Buses.NoticesCount | ccec/src/Bus.cpp:170-179 | one dispatch calls a listener once per pair of registrations |
| Buses.Connection.Open | ccec/src/Connection.cpp:62-66 | registers with the bus, or fails when it is not started |
| Buses.Connection.Close | ccec/src/Connection.cpp:73-79 | clears the listeners even when the bus refuses to let go of the connection |
| Buses.Connection.AddFrameListener | ccec/src/Connection.cpp:88-95 | one more registration |
| Buses.Connection.RemoveFrameListener | ccec/src/Connection.cpp:104-110 | drops all registrations of the listener |
| Buses.Connection.IsFiltered | ccec/src/Connection.cpp:300-319 | the filter decides on the source copied at construction, not on the current one |
| Buses.Connection.Notify | ccec/src/Connection.cpp:328-342 | call number k goes to listener number k, for every listener, or there is no call at all |
| Buses.Connection.MatchSource | ccec/src/Connection.cpp:351-365 | in place: initiator is the source if registered and unchanged if not; destination and all other bytes untouched |
| Buses.Connection.SendThrowing | ccec/src/Connection.cpp:208-222 | the bus gets the matched frame, and the caller what the last attempt came to |
| Buses.Connection.SendQuietly | ccec/src/Connection.cpp:184-197 | the bus gets the matched frame and is as persistent as with exceptions; the caller sees success whatever happens, or out_of_range for an empty frame |
| Buses.Connection.Address | ccec/src/Connection.cpp:124-127 | one header byte with this source, then the payload; no room for it means out_of_range |
| Buses.Connection.SendTo | ccec/src/Connection.cpp:141-157 | the bus gets one header byte and the payload, registered source or not, and the caller what the last attempt came to |
| Buses.Connection.SendToQuietly | ccec/src/Connection.cpp:121-129 | the bus gets one header byte and the payload and is as persistent as with exceptions; the caller sees success whatever happens, or out_of_range for a payload with no room for the header |
| Buses.Connection.SendAsync | ccec/src/Connection.cpp:283-288 | queues the matched frame, or reports why not and frees the refused copy |
| Buses.Connection.SendToAsync | ccec/src/Connection.cpp:167-174 | queues one header byte followed by the payload, or reports why not and frees the refused copy |
| Frames.CECFrame.Append | ccec/src/CECFrame.cpp:54-58 | one byte, unless the frame is full |
| Frames.CECFrame.AppendBytes | ccec/src/CECFrame.cpp:60-64 | appends what fits, and fails exactly when not everything does |
| Frames.CECFrame.AppendFrame | ccec/src/CECFrame.cpp:66-71 | appends what fits of another frame, or of the frame itself, and fails exactly when not everything does |
| Frames.CECFrame.SubFrame | ccec/src/CECFrame.cpp:44-52 | at most `count` bytes from `start`, with 0 for no limit |
| Frames.CECFrame.Put | ccec/src/CECFrame.cpp:98-104 | changes one byte within the length |
| CodecMethods.AppendHeader | ccec/include/ccec/Header.hpp:57-65 | append and patch yields the packed byte |
| CodecMethods.AppendOpcode | ccec/include/ccec/OpCode.hpp:137-142 | one byte, or none for POLLING |
| CodecMethods.AppendAll | ccec/include/ccec/Messages.hpp:493-501 | the loops over operand vectors append their concatenation, cut off where the frame is full |
| CodecMethods.AppendOperands | ccec/include/ccec/Messages.hpp:88-907 | each message's `serialize`, operand by operand, appends its operand bytes, cut off where the frame is full |
| CodecMethods.EncodeInto | ccec/include/ccec/MessageEncoder.hpp:53-76 | `encode` puts exactly the encoding behind what the frame holds, and fails exactly when it does not fit |
| CodecMethods.MeasureChain | ccec/include/ccec/Messages.hpp:727-751 | both extension-bit loops compute the chain length |
| CodecMethods.FeaturesFrom | ccec/include/ccec/Messages.hpp:715-753 | the frame constructor of ReportFeatures |
| CodecMethods.LatencyFrom | ccec/include/ccec/Messages.hpp:884-888 | the frame constructor of ReportCurrentLatency, with its cut at five bytes |
| CodecMethods.OperandsFrom | ccec/src/MessageDecoder.cpp:57-188 | every case with operands, each built from cuts of the frame, parses it as the codec does, which CodecLayout.DecodesExactly spells out |
| CodecMethods.FormatsFrom | ccec/include/ccec/Messages.hpp:483-491 | one-byte formats, at most four |
| CodecMethods.DescriptorsFrom | ccec/include/ccec/Messages.hpp:536-543 | whole groups of three bytes |
| CodecMethods.DecodeFrame | ccec/src/MessageDecoder.cpp:40-202 | decoding from a frame is the codec's decoding of its contents, which CodecLayout.DecodesExactly spells out |
| CodecMethods.ChainValues | ccec/include/ccec/Operands.hpp:1080-1093 | getRcProfileVal returns the first chain of the operand |
| CodecMethods.FirstChainIsWhole | ccec/include/ccec/Operands.hpp:1219-1232 | getDeviceFeaturesVal, like getRcProfileVal, returns all of an operand exactly when the operand is one chain |
| CodecMethods.DecodedFeaturesAreWhole | ccec/include/ccec/Operands.hpp:1080-1093 | for every Report Features the decoder accepts, both accessors return the whole operand |
| CodecProofs.ChainLengthMeans | ccec/include/ccec/Messages.hpp:727-751 | all bytes but the last have bit 7 set, and the last, if it is there, has not |
| CodecProofs.ClosedChainLength | ccec/include/ccec/Messages.hpp:727-751 | a closed chain is found again whatever follows it: only one split is possible |
| CodecProofs.FeaturesSurviveIff | ccec/include/ccec/Messages.hpp:703-767 | Report Features comes back with the original split if and only if the first chain is closed and the second is a chain |
| CodecProofs.FeaturesParts | ccec/include/ccec/Messages.hpp:715-753 | whatever Report Features is accepted from was cut into four consecutive pieces, a closed chain and a chain last |
| CodecMethods.Convey | ccec/include/ccec/MessageEncoder.hpp:53-76 | encoding a message into a fresh frame and decoding that frame makes the one `process` call with that message and header if and only if the message survives and its encoding has at most 128 bytes; if it has more, encoding throws |
| CodecProofs.RoundTrip | ccec/src/MessageDecoder.cpp:40-202 | for every message applications can build and every header, it comes back through a frame if and only if it survives and fits one, stated on values |
| CodecProofs.EncodingSurvives | ccec/src/MessageDecoder.cpp:40-202 | on byte strings of any length, the encoding of a message decodes to that message and header if and only if the message survives |
| CodecProofs.LongFeaturesAreThrown | ccec/src/CECFrame.cpp:54-58 | a Report Features whose 130 one-byte operands form one chain survives as bytes but cannot be encoded into a frame |
| CodecProofs.PlainSurvives | ccec/include/ccec/OpCode.hpp:134-142 | messages without operands, Polling among them, come back if the decoder has a case for them and are ignored if not |
| CodecProofs.OperandsSurvive | ccec/include/ccec/Messages.hpp:88-907 | for every message with operands, the operand bytes are parsed back to the message if and only if it survives |
| CodecProofs.OmittedAddressIsDropped | ccec/include/ccec/Messages.hpp:571-583 | address F.F.F.F is not sent, and the message then dropped |
| CodecProofs.HeaderSurvives | ccec/include/ccec/Header.hpp:52-65 | packing and unpacking of the two nibbles |
| CodecProofs.FlattenSingles | ccec/include/ccec/Messages.hpp:483-501 | the concatenation of one-byte formats splits into them again |
| CodecProofs.FlattenTriples | ccec/include/ccec/Messages.hpp:536-554 | the concatenation of three-byte descriptors splits into them again |
| CodecProofs.TriplesFlatten | ccec/include/ccec/Messages.hpp:536-554 | grouping keeps a prefix of the operands |
| CodecProofs.NormalForm | ccec/src/MessageDecoder.cpp:40-202 | what a frame decodes to encodes to a prefix of it, and that prefix decodes to the same, if and only if the message is not one with an omitted address |
| CodecProofs.FeaturesAgain | ccec/include/ccec/Messages.hpp:715-767 | normal form of Report Features |
| CodecProofs.LatencyAgain | ccec/include/ccec/Messages.hpp:884-898 | normal form of Report Current Latency, cut at five bytes |
| CodecProofs.UnspecifiedIff | ccec/include/ccec/Operands.hpp:77 | exactly which frames make the decoder's length subtraction wrap around |
| CodecLayout.DecodesExactly | ccec/src/MessageDecoder.cpp:40-202 | for every frame, header and message: the frame decodes to them if and only if its bytes are the header, the code (none for Polling), and operands of their declared sizes one behind the other, a shorter one only at the end of the frame; formats, descriptors and Report Features as lists and chains of bytes |
| CodecLayout.DeclaredSizes | ccec/include/ccec/Operands.hpp:66-86 | no decoded operand is empty or longer than its class declares, and all have the declared size if and only if the frame has bytes for that; min(4,n) formats, n/3 descriptors |
| CodecLayout.LongerFrame | ccec/include/ccec/Operands.hpp:66-86 | bytes appended to a frame that decodes change nothing if and only if the message was complete |
| CodecLayout.EncodesInOrder | ccec/include/ccec/Messages.hpp:88-907 | header, code and the same operands in the same order are what is sent, also for strings too long to come back |
| CodecLayout.IgnoredIff | ccec/src/MessageDecoder.cpp:40-202 | a frame is ignored if and only if its code is none of the 37 that the decoder reports |
| CodecLayout.SentOnly | ccec/include/ccec/OpCode.hpp:102-117 | the five messages without a decoder case: what they are sent as, and that it is ignored |

## Left out

- The scheduling assumption `Engine.Settled` is in every engine theorem but those that show why it is there.
- EngineLiveness.StopTerminates: starts after the first critical section of `Bus::stop`; TermTerminates starts from the call, and asks more of the OS for that: wMutex is contended there, so weak fairness is not enough.
- EngineTheorems.ReceivedInOrder: says nothing about which session a dispatched frame was received in; stale frames and NULLs can stay in the receive queue across close and reopen.
- Queue elements are told apart by a number given at allocation, in place of their address.
- Buses.Send: takes the state in which each attempt finds the bus and the driver as a parameter, since the locks are free between attempts.
- Buses.Connection.SendTo: the destination is a 4-bit address; `Header::serialize` of a larger one is not modelled.
- Buses.Bus.Stop: covers two schedules, in which the worker ends during the wait for it or, the writer, just before its sentinel is offered; all others, and what the callback and senders do meanwhile, are in the engine.
- LockOrder.NoCircularWait: takes a worker's lock to be held from spawn to end; a stop that a restarted worker misses waits for that worker without any lock being the reason, and is in `EngineUnsettled`.
- Buses.Connection.constructor: does not open the connection; applications get that by calling Open, whose failure the source throws out of the constructor.
- Codec.Header: both addresses have four bits, as LogicalAddress values do.
- CodecProofs.NormalForm: leaves out System Audio Mode Request and Request Current Latency decoded from a single address byte, because serialising that address reads past it.
- The application-side constructor of ReportShortAudioDescriptor, which shadows its own counter; the message is built from its descriptors here.
- `writeAsync` beyond its HAL call in the engine; `getLogicalAddress` and `getPhysicalAddress`, which pass a value through.
- The HAL itself, timed condition waits, real time in `usleep`, logging, telemetry, printing of messages and operands, name tables.
- Destruction of singletons, copying of mutexes and connections, dangling listener pointers, listeners that change listener lists while being notified.
- PhysicalAddress from text, and the single-bit getters of operands.
