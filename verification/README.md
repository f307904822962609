# Models of the network library's hard parts

This project models the most intricate parts of a small C++ network library, and of the vendored logger
code it runs on, and proves what they promise: properties of every run, of every interleaving and of every
input. Code that changes objects in place is modelled by classes and methods; each such method is proved
equal to a function on plain values, and the theorems are about those values. Protocols between threads are
state machines whose steps are the atomic actions of the code.

- **Timing wheel** (`Calendar`, `CalendarFacts`, `CalendarRuns`, `TimerLaws`, `SeriesLaws`, `TimerWheel`,
  `WheelRuns`).
  Four rotating wheels of slots, with tasks that run from destructors and minute entries that cascade when
  they are dropped, refine a plain calendar of appointments. On the calendar: who fires, when, and how often,
  in every run, with tasks that start further tasks. Time is counted in two instants per tick, since the
  seconds wheel is popped before the minute wheel. Firing laws are about delays of 1 to 3599 s: the hour and
  day branches of `onTime` cannot be reached, because 60 divides 3600 and 86400, and longer accepted delays
  are proved to be held for ever.
- **Buffer** (`Bytes`, `Buffers`, `BufferMemory`, `BufferPool`). A growable byte queue over a reference-counted
  block, with slices that share the block. Any number of buffers under any sequence of operations refine a memory
  of blocks and views on values, and on it: when sharing does not show.
- **Frame decoder** (`FrameDecoder`). Frames cut out of a byte stream, however the stream is chunked.
- **Event loop, connection, poller** (`EventLoop`, `Connections`, `Epoll`, with `Subsequences`). The task queue with its eventfd,
  the output path that is split between direct writes and a buffer, and the status field that mirrors the
  kernel's interest set.
- **Logger** (`Arithmetic`, `Decimal`, `RingQueue`, `ThreadPool`, `RotatingSink`, `TrailingZeros`, `FormatScan`). The
  ring and the blocking queue, the thread pool with condition variables and shutdown, the rotating files,
  fmt's removal of trailing zeros, and its two scanners of format strings.

`dafny verify dfyconfig.toml` checks everything.

## Assumptions of the models

- The kernel, the clock and the C library are parameters: what `write`, `readv`, `rename` and `epoll_ctl`
  answer is an argument or a ghost map.
- In the timing wheel, a reference count is zero exactly when no slot entry, wrapper or caller refers to the
  node, so "the last pointer goes" is decided by looking for such a reference. A popped slot is destroyed in
  an arbitrary order.
- The connection theorem is about runs in which the write in `onWrite` does not fail. `FlushedKeeps` shows
  that this is exactly the condition: a failed write, held in a `size_t`, empties the buffer.
- The no-lost-wake-up theorem of the event loop is about runs in which the loop thread queues nothing outside
  `loop()`. `StrandedIff` says for all other runs exactly when functors are left lying.
- The decoder's theorems are about every configuration and stream for which the sum of length-field offset and
  width does not wrap. `decode` returns an empty frame again and again where a length wraps to zero, so a receiver
  that drains ends exactly on the streams that do not stop there (`DrainEndsIff`), and the two methods that drain
  ask for such a stream. `NeverEmptyIff` says which configurations have no other streams.
- Buffers that share a block are independent byte queues exactly as long as no append writes where another buffer
  reads something else, and none would have to move a block under its other readers (`ActsOnQueuesIff`);
  `IndependentQueues` gives a discipline under which only the second can happen. An append of the first kind is
  modelled with its effect on the other buffers; one of the second kind is not made.
- The destructor of the thread pool starts when no client is posting any more.
- Log files are written by one sink only. `LogAll` and `SunkInOrder` are about every answer of the system;
  that a suffix is retained holds when renames succeed, and `FailedRotationLoses` says what a failed rotation loses.

## Model

| member | source | states |
|---|---|---|
| TimerWheel.TimerWheel.constructor | src/net/TimerWheel.cpp:4-9 | a new wheel stands for the empty calendar at tick 0 |
| TimerWheel.TimerWheel.InsertNode | src/net/TimerWheel.cpp:11-31 | an insertion makes exactly the appointment of the calendar, or parks the node in an hour or day slot, or does nothing; hour and day slots only gain entries |
| TimerWheel.TimerWheel.InsertSecondNode | src/net/TimerWheel.cpp:89-91 | the node is due `delay` ticks on, and the slot index is in range |
| TimerWheel.TimerWheel.InsertMinuteNode | src/net/TimerWheel.cpp:93-102 | the wrapper's slot and remaining seconds give the node its calendar appointment, counted from the last minute pop |
| TimerWheel.TimerWheel.InsertHourNode | src/net/TimerWheel.cpp:104-113 | the node is parked; the minute, second and day appointments stay |
| TimerWheel.TimerWheel.InsertDayNode | src/net/TimerWheel.cpp:115-124 | the same for whole days |
| TimerWheel.TimerWheel.RunAfter | src/net/TimerWheel.cpp:48-62 | the wheel does what the calendar's command does, also for rejected delays, whose task runs at once |
| TimerWheel.TimerWheel.RunEvery | src/net/TimerWheel.cpp:64-80 | a periodic node is kept by the wheel alone |
| TimerWheel.TimerWheel.Share | src/net/TimerWheel.h:50 | one node inserted several times and then dropped by its maker |
| TimerWheel.TimerWheel.Destroy | src/net/TimerWheel.h:31-42 | destroying a node runs its task once, with everything the task starts, and restarts a periodic one |
| TimerWheel.TimerWheel.Release | src/net/TimerWheel.h:24-42 | a node is destroyed exactly when its last reference goes |
| TimerWheel.TimerWheel.LetGo | src/net/TimerWheel.h:24-42 | the caller's pointer goes; the node stays if a slot or a wrapper refers to it |
| TimerWheel.TimerWheel.DestroyEntry | src/net/TimerWheel.cpp:97-101 | dropping an entry either expires its node or moves it to the seconds wheel without changing the calendar |
| TimerWheel.TimerWheel.Cascade | src/net/TimerWheel.cpp:97-101 | a dropped minute entry with seconds left puts its node on the seconds wheel, at the appointment it already had |
| TimerWheel.TimerWheel.Drain | src/net/TimerWheel.cpp:82-87 | destroying a popped slot expires exactly the nodes due at that instant, each once, while destroyed tasks insert into the rotated wheels |
| TimerWheel.TimerWheel.Rotate | src/net/TimerWheel.cpp:82-87 | rotating moves the clock on and changes no appointment |
| TimerWheel.TimerWheel.PopUp | src/net/TimerWheel.cpp:82-87 | one pop is one instant of the calendar |
| TimerWheel.TimerWheel.OnTime | src/net/TimerWheel.cpp:33-46 | refinement: a tick of the wheel is a tick of the calendar, for some order of destruction; hour and day slots are never rotated |
| WheelRuns.RunCalls | src/net/TimerWheel.cpp:4-124 | over any sequence of calls the wheel does what the calendar does at the events of these calls, one for each call that is made; and each node that the calendar's run accepts, from a caller, from a task that runs, or as the next of a series, has run exactly once or waits in exactly one slot entry |
| WheelRuns.Perform | src/net/TimerWheel.cpp:11-80 | a single call is its own event, with the same task, delay, node or interval, or nothing if no caller holds its node; a call that starts a task adds its node to the accepted ones |
| WheelRuns.PerformAll | src/net/TimerWheel.cpp:4-124 | from any state between calls, the calls are answered one by one; the wheel, with all nodes accepted by these calls or inside them, is the calendar's run over the answers |
| WheelRuns.RunAfterOnWheel | src/net/TimerWheel.cpp:48-62 | the wheel is the calendar's run over the answers to all calls, those before and after included; the node of this `runAfter` is accepted, and its task has run once, at the closed-form tick, exactly if that tick has come |
| WheelRuns.RunEveryOnWheel | src/net/TimerWheel.cpp:64-80 | the same for `runEvery`: the series of this call's node has run at exactly those of its closed-form ticks that have come |
| TimerWheel.TimerWheel.HeldByOneEntry | src/net/TimerWheel.cpp:82-124 | a node inserted once that no caller holds is in exactly one slot entry, minute wrappers and cascades included, until it is destroyed |
| TimerWheel.InsertCounted | src/net/TimerWheel.cpp:89-124 | an insertion adds at most one entry of its node and none of others |
| TimerWheel.RotateCounted | src/net/TimerWheel.cpp:82-87 | popping a slot loses no entry |
| TimerWheel.HourAndDayTicksStartMinutes | src/net/TimerWheel.cpp:39-45 | the hour and day branches are unreachable |
| TimerWheel.SecondInserted | src/net/TimerWheel.cpp:89-91 | what a seconds insertion does to all four wheels, on values |
| TimerWheel.MinuteInserted | src/net/TimerWheel.cpp:93-102 | what a minute insertion does to all four wheels, on values |
| TimerWheel.LongInserted | src/net/TimerWheel.cpp:104-124 | what an hour or day insertion does to all four wheels, on values |
| TimerWheel.SecondsPopped | src/net/TimerWheel.cpp:36-37 | the seconds pop keeps every appointment |
| TimerWheel.MinutePopped | src/net/TimerWheel.cpp:39-40 | so does the minute pop |
| TimerWheel.AlreadyThere | src/net/TimerWheel.cpp:97-101 | the cascade of a minute entry gives its node the appointment it already had |
| CalendarFacts.RunCommandsOk | src/net/TimerWheel.h:35-39 | whatever a task starts when it runs leaves every earlier node, its references and its history alone |
| CalendarFacts.InsertOk | src/net/TimerWheel.cpp:11-31 | an insertion adds one future reference to its node and keeps the calendar sound |
| CalendarFacts.FireOk | src/net/TimerWheel.h:35-39 | a destroyed node is logged once, and what its task starts is sound |
| CalendarRuns.EachTickFiresExactlyTheDue | src/net/TimerWheel.cpp:33-46 | each `onTime` fires exactly the nodes whose last appointment is at that tick, each with its own task |
| CalendarRuns.FiresOnceAtLastDue | src/net/TimerWheel.cpp:33-46 | in every run a node whose callers have let go fires exactly once, at the tick of its last appointment |
| CalendarRuns.Conservation | src/net/TimerWheel.cpp:11-46 | in every run each node ever made has either fired exactly once or is alive, referred to and not fired |
| CalendarRuns.ParkedForEver | src/net/TimerWheel.cpp:39-45 | the node of an hour or day entry never fires and is never lost |
| CalendarRuns.StaysFired | src/net/TimerWheel.h:35-39 | a node that has fired never fires again |
| TimerLaws.NeverLate | src/net/TimerWheel.cpp:93-101 | a delay of a minute or more is early by exactly the seconds passed of the current minute, and nothing is ever late |
| TimerLaws.RunAfterFiresOnce | src/net/TimerWheel.cpp:48-62 | `runAfter` between ticks, for each delay below an hour and each run that follows: one firing, at the closed-form tick |
| TimerLaws.FiredTaskSchedules | src/net/TimerWheel.h:35-39 | a `runAfter`, or a node inserted several times, anywhere in the body of a task, one-shot or periodic, has its appointments, and no reference but those, when the task has run |
| TimerLaws.FiredRunAfterAccepted | src/net/TimerWheel.h:35-39 | the node of such a `runAfter` is among the accepted ones |
| TimerLaws.ReentrantFiresOnce | src/net/TimerWheel.cpp:36-40 | such a node, made in the seconds pop, fires once, at its last appointment, whatever the rest of the pop and the run do |
| TimerLaws.MinutePopFiresOnce | src/net/TimerWheel.cpp:39-40 | the same for a node made in the minute pop |
| TimerLaws.ReentrantRunAfterFiresOnce | src/net/TimerWheel.cpp:36-40 | the closed-form tick of a `runAfter` in the seconds pop: on a tick that starts a minute, a delay of a minute or more still sees the minute pop |
| TimerLaws.MinutePopRunAfterFiresOnce | src/net/TimerWheel.cpp:39-40 | in the minute pop the tick is that of a `runAfter` between ticks |
| TimerLaws.SharedNodeFiresAtMaximum | src/net/TimerWheel.cpp:82-102 | a node inserted any number of times fires once, at the latest of its due ticks, or when it is let go if they have passed |
| TimerLaws.HeldNodeAgenda | src/net/TimerWheel.h:24-42 | while a caller holds it, a node has exactly the appointments of its insertions and does not fire |
| TimerLaws.LongDelayIsHeld | src/net/TimerWheel.cpp:21-30 | a delay of an hour to 30 days is accepted and its node held for ever |
| TimerLaws.RejectedRunsAtOnce | src/net/TimerWheel.cpp:11-31 | a node all of whose delays are rejected is destroyed in the call, so its task has run once, then |
| TimerLaws.ParksHolds | src/net/TimerWheel.cpp:21-30 | a node with an accepted delay or interval of an hour or more is kept and has not run |
| TimerLaws.ReentrantOutcome | src/net/TimerWheel.h:35-39 | such commands anywhere in the body of a task that is run in the seconds pop: in every run that follows, a rejected node has run once, at the tick of the pop, and a parked one never does |
| TimerLaws.MinutePopOutcome | src/net/TimerWheel.h:35-39 | the same in the minute pop |
| TimerLaws.CallOutcome | src/net/TimerWheel.cpp:48-80 | the same for `runAfter` and `runEvery` between ticks |
| SeriesLaws.SeriesStep | src/net/TimerWheel.cpp:64-80 | each run of a series schedules the next, in the seconds or in the minute pop |
| SeriesLaws.RunEveryClosedForm | src/net/TimerWheel.cpp:64-80 | in every run from a fresh wheel, a series has run exactly at the closed-form ticks that have passed |
| SeriesLaws.FiredTaskStartsSeries | src/net/TimerWheel.h:35-39 | a `runEvery` anywhere in the body of a task, one-shot or periodic: when the task has run, its node carries a series with that task and interval, has one appointment, and is accepted |
| SeriesLaws.SeriesStartReentrant | src/net/TimerWheel.cpp:64-80 | the first run of such a series is at the closed-form tick of a `runAfter` in the same pop |
| SeriesLaws.ReentrantSeriesClosedForm | src/net/TimerWheel.cpp:36-80 | a series that a task starts in the seconds pop has, in every run that follows, run at exactly those of its closed-form ticks that have passed |
| SeriesLaws.MinutePopSeriesClosedForm | src/net/TimerWheel.cpp:39-80 | the same in the minute pop, with the ticks of a series started between ticks |
| SeriesLaws.SeriesFromTask | src/net/TimerWheel.cpp:33-80 | end to end: for a node destroyed by a tick, in whatever order, of any run from a fresh wheel, whose task calls `runEvery` |
| Bytes.LittleEndianRoundTrip | src/base/Buffer.cpp:156-169 | writing a number of k bytes and reading it back gives the number |
| Bytes.LittleEndianPlace | src/base/Buffer.cpp:156-169 | the byte at place k of a little-endian number counts 256^k |
| Bytes.BigEndianIsReversed | src/base/Buffer.cpp:267-281 | the big-endian reading is the little-endian reading of the reversed bytes |
| Buffers.Block.Drop | src/base/Buffer.h:34-46 | the counter stays the number of buffers, and the block is deleted exactly at zero |
| Buffers.Buffer.constructor | src/base/Buffer.h:15-22 | an empty buffer with a block of its own |
| Buffers.Buffer.Copy | src/base/Buffer.h:48-56 | a copy shares block and view, and is one more reference |
| Buffers.Buffer.Move | src/base/Buffer.h:88-94 | a move passes the reference and the view on and leaves the counter as it is |
| Buffers.Buffer.Destroy | src/base/Buffer.h:34-46 | a destroyed buffer gives up its one reference |
| Buffers.Buffer.Assign | src/base/Buffer.h:58-79 | assignment gives up the old reference, if it is to another block, and shares the new block |
| Buffers.Buffer.MoveAssign | src/base/Buffer.h:96-121 | move assignment, also from itself |
| Buffers.Buffer.Slice | src/base/Buffer.cpp:138-144 | null exactly when the range is not readable; otherwise the slice views exactly that range of the same block |
| Buffers.Buffer.SlicePacket | src/base/Buffer.cpp:146-154 | the slice takes the front of the queue |
| Buffers.Buffer.MakeSpace | src/base/Buffer.cpp:312-329 | growth and overlapping compaction keep the readable bytes and leave room |
| Buffers.Buffer.MakeOwnBuffer | src/base/Buffer.cpp:94-116 | detaching keeps the readable bytes and leaves the old block, its memory and its other buffers as they were |
| Buffers.Buffer.EnsureWriteableBytes | src/base/Buffer.cpp:84-92 | room for `len` bytes, same view; nothing moves when there was room already |
| Buffers.Buffer.Append | src/base/Buffer.cpp:118-122 | appending enqueues; with room the block holds the new bytes behind the old ones and is otherwise as it was, without room the buffer ends up alone on a block of the stated size |
| Buffers.Buffer.AppendLE | src/base/Buffer.cpp:156-186 | the number's little-endian bytes are enqueued |
| Buffers.Buffer.Skip | src/base/Buffer.cpp:38-44 | skipping dequeues, up to everything |
| Buffers.Buffer.ReadAsString | src/base/Buffer.cpp:63-67 | what is read and what is left are what was there |
| Buffers.Buffer.ReadLE | src/base/Buffer.cpp:229-249 | reading a number dequeues its bytes |
| Buffers.Buffer.PeekU16BE | src/base/Buffer.cpp:267-270 | the big-endian number at an offset |
| Buffers.Buffer.PeekU32BE | src/base/Buffer.cpp:278-281 | the big-endian number at an offset |
| Buffers.Buffer.ReadFd | src/base/Buffer.cpp:196-221 | exactly the bytes read are enqueued, however they split between the buffer and the extra area |
| BufferMemory.ApplyWellFormed | src/base/Buffer.h:15-121 | every operation keeps every view inside its block and behind the prepend space |
| BufferMemory.ActsOnQueuesIff | src/base/Buffer.cpp:84-154 | an operation does to the buffers what it does to independent byte queues if and only if it is not an append that is refused, or that writes where another buffer of the block reads other bytes |
| BufferMemory.IndependentQueues | src/base/Buffer.cpp:84-154 | in every run in which only owners append, and none that shares its block is skipped to its end, buffers are independent byte queues, as long as no append is refused |
| BufferMemory.TidyOverwritesNothing | src/base/Buffer.cpp:118-122 | an append of such a run writes where no other buffer reads |
| BufferMemory.SliceOverwritten | src/base/Buffer.cpp:38-44 | without that it happens: a buffer that is read to its end starts again where a slice is still looking |
| BufferMemory.FreedForEver | src/base/Buffer.h:34-46 | a block without references never gets one again |
| BufferPool.CounterCountsReferences | src/base/Buffer.h:15-121 | the counter of every block ever allocated is the number of live buffers that refer to it, and the block is deleted exactly when there are none |
| BufferPool.Perform | src/base/Buffer.h:15-121 | every construction, copy, move, assignment, slice, append, detach, skip and destruction does to blocks, counters and views, of its operands and of all other buffers, what the memory on values says |
| BufferPool.Run | src/base/Buffer.h:15-121 | so does every sequence of them, from nothing: all views, all counters, and which blocks are deleted |
| FrameDecoder.NoEmptyFrameIff | src/codecs/LengthFieldBasedFrameDecoder.cpp:46 | exactly when no length field makes the frame length wrap to zero |
| FrameDecoder.DecodeIff | src/codecs/LengthFieldBasedFrameDecoder.cpp:22-54 | the same of the verdict that the other laws are about |
| FrameDecoder.RefusedForEver | src/codecs/LengthFieldBasedFrameDecoder.cpp:42-50 | a stream with an oversized length, or a width that is none of the four, in front is never consumed, whatever chunks follow |
| FrameDecoder.FramesWithinLimit | src/codecs/LengthFieldBasedFrameDecoder.cpp:47-50 | no frame that is delivered is empty or beyond the limit |
| FrameDecoder.NeverEmptyIff | src/codecs/LengthFieldBasedFrameDecoder.cpp:19-57 | exactly these configurations have no stream with an empty frame in front |
| FrameDecoder.DrainEndsIff | src/codecs/LengthFieldBasedFrameDecoder.cpp:19-57 | calling the decoder until it returns null ends if and only if the stream does not stop at an empty frame |
| FrameDecoder.VerdictIsStable | src/codecs/LengthFieldBasedFrameDecoder.cpp:19-57 | further bytes do not change a frame, or a refusal, that has been decided |
| FrameDecoder.DrainMore | src/codecs/LengthFieldBasedFrameDecoder.cpp:19-57 | draining, then draining with more bytes, is draining it all |
| FrameDecoder.NothingLost | src/codecs/LengthFieldBasedFrameDecoder.cpp:56 | frames and leftover together are the input |
| FrameDecoder.ChunkingIndependent | src/codecs/LengthFieldBasedFrameDecoder.cpp:19-57 | every way of splitting a stream gives the same frames, the same leftover and the same stuck point |
| FrameDecoder.RoundTrip | src/codecs/LengthFieldBasedFrameDecoder.cpp:27-56 | payloads framed with 1, 2 or 4 length bytes and delivered in any chunks decode to exactly those frames |
| FrameDecoder.WriteFrame | src/base/Buffer.cpp:156-186 | the sender's header and payload are the encoding that the round trip is about |
| FrameDecoder.LengthFieldBasedFrameDecoder.PayloadLength | src/codecs/LengthFieldBasedFrameDecoder.cpp:27-44 | the switch reads the field as a little-endian number of its width |
| FrameDecoder.LengthFieldBasedFrameDecoder.DecodeNext | src/codecs/LengthFieldBasedFrameDecoder.cpp:19-57 | a frame is returned if and only if the header is complete, its width is 1, 2, 4 or 8, and the wrapping sum of offset, width, length field and adjustment is within `maxFrameLength` and within the readable bytes; then it is cut off the front and has that length; otherwise nothing changes |
| FrameDecoder.LengthFieldBasedFrameDecoder.Drain | src/codecs/LengthFieldBasedFrameDecoder.cpp:19-57 | on every stream on which it can end, decoding until null ends and gives the frames and leftover of the specification |
| FrameDecoder.LengthFieldBasedFrameDecoder.Receive | src/codecs/LengthFieldBasedFrameDecoder.cpp:19-57 | appending and draining chunk by chunk is the fed specification |
| EventLoop.FifoStep | src/net/EventLoop.cpp:129-162 | every step keeps executed, swapped-out and pending functors equal to the queueing order |
| EventLoop.WakeupStep | src/net/EventLoop.cpp:83-162 | every step of a disciplined run keeps the wake-up invariant |
| EventLoop.RunRecords | src/net/EventLoop.cpp:91-137 | in every run the queue holds the functors of the queueing steps, in step order; which of them were queued early, whether the loop has been left, and m_quit, are what the steps say |
| EventLoop.ExecutedInOrder | src/net/EventLoop.cpp:91-162 | in every run, what has run, is swapped out, and is pending is exactly what the steps of the run have queued, in step order and each once; and what they had queued before a return of poll has run when the loop polls again |
| EventLoop.NoLostWakeups | src/net/EventLoop.cpp:113-146 | at poll with something queued that has not run, or after quit(), the eventfd is readable or a producer is about to write it |
| EventLoop.StrandedIff | src/net/EventLoop.cpp:135-137 | in every run at all, functors queued and not run at poll have no wake-up exactly when each of them was queued by a step of the loop thread outside loop(), nobody has signalled since the eventfd was last read, and nobody is about to |
| EventLoop.EarlyQueueingLost | src/net/EventLoop.cpp:135-137 | the run in which it is |
| EventLoop.QuitBeforeFirstTest | src/net/EventLoop.cpp:91-97 | a quit() between the assignment of m_quit and its first test makes loop() return without polling |
| EventLoop.ComesBack | src/net/EventLoop.cpp:91-111 | from everywhere in an iteration there is a way back to poll, on which everything swapped out has run |
| EventLoop.PendingGetsRun | src/net/EventLoop.cpp:148-162 | from every poll of a disciplined run there is a continuation, without anybody queueing again, in which all that was queued runs; it leaves loop() exactly if quit() has been called |
| EventLoop.QueuedGetsRun | src/net/EventLoop.cpp:121-146 | another thread can always queue a functor on a polling loop; it wakes the loop and runs after everything queued before it |
| EventLoop.EveryContinuationDelivers | src/net/EventLoop.cpp:91-162 | in every run at all, and every interleaving after a poll without new posts, everything that the steps before have queued has run once the steps exceed a bound read off the state |
| EventLoop.EveryContinuationQuits | src/net/EventLoop.cpp:91-119 | and once a thread has called quit() since loop() was entered, loop() has returned by then |
| Connections.Connection.SendInLoop | src/net/Connection.cpp:211-292 | a message is accepted if and only if the connection is not disconnected and it is not the case that write() was tried, took nothing, and gave EPIPE or ECONNRESET; exactly what write() took goes on the wire and the rest of an accepted message behind the buffered bytes; states and notices as in the specification `Sent` |
| Connections.Connection.KeepRest | src/net/Connection.cpp:238-249 | what the kernel has not taken is buffered, with the high-water notice |
| Connections.Connection.OnWrite | src/net/Connection.cpp:158-181 | what write() took moves from the front of the buffer to the wire, and a failure empties the buffer; states and notices as in the specification |
| Connections.Connection.Send | src/net/Connection.cpp:52-80 | only a connected connection sends, and it accepts under the same condition |
| Connections.Connection.OnClose | src/net/Connection.cpp:183-209 | closing, and onError, stop watching the socket |
| Connections.Connection.ForceCloseInLoop | src/net/Connection.cpp:193-197 | closes an open connection only |
| Connections.Connection.OnConnectionDestroy | src/net/Connection.cpp:116-124 | the connection is closed if it was connected |
| Connections.AcceptedOrDropped | src/net/Connection.cpp:216-249 | a message is accepted whole or dropped whole, and dropping changes nothing |
| Connections.NoticeWhen | src/net/Connection.cpp:225-243 | exactly when a write-complete or high-water notice is queued, and what it says |
| Connections.NoticeWhenFlushed | src/net/Connection.cpp:163-169 | a flush queues a write-complete notice exactly when it empties the buffer |
| Connections.FlushedKeeps | src/net/Connection.cpp:158-181 | a write of buffered bytes keeps the stream intact if and only if it does not fail |
| Connections.StreamInOrder | src/net/Connection.cpp:158-292 | in every run wire and buffer are the accepted messages in order; all is on the wire when the socket is not watched; write-complete means it |
| Connections.RunKeeps | src/net/Connection.cpp:158-292 | every run keeps the stream intact, and the socket watched exactly while bytes are buffered |
| Connections.RunAccounts | src/net/Connection.cpp:52-292 | in every run, the state is what the events make of it; the messages accepted are those that get through and do not fail for good, one by one; and as many bytes go out as the kernel takes |
| Connections.SentExactly | src/net/Connection.cpp:158-292 | so wire and buffer are determined by the events: the messages accepted, cut after what the kernel took |
| Connections.NothingDropped | src/net/Connection.cpp:216-236 | unless write() answers EPIPE or ECONNRESET, all messages are accepted that are sent while the connection admits them; a full socket buffer drops nothing |
| Connections.AcceptedAreSent | src/net/Connection.cpp:52-80 | the messages accepted are among those sent, in that order |
| Connections.SilentOnceClosed | src/net/Connection.cpp:216-219 | after closing nothing more goes out |
| Epoll.EpollPoller.UpdateChannel | src/net/EpollPoller.cpp:41-59 | the kernel set changes exactly as the channel's new mask and old status demand, by a legal epoll_ctl |
| Epoll.EpollPoller.RemoveChannel | src/net/EpollPoller.cpp:61-71 | the channel leaves the map and the kernel set |
| Epoll.Channel.EnableReading | src/net/Channel.h:69-72 | the channel is watched with the reading bits set |
| Epoll.Channel.EnableWriting | src/net/Channel.h:79-82 | the channel is watched with the writing bit set |
| Epoll.Channel.DisableReading | src/net/Channel.h:74-77 | an added channel left without events is withdrawn, any other is watched |
| Epoll.Channel.DisableWriting | src/net/Channel.h:84-87 | the same for the writing bit |
| Epoll.Channel.DisableAll | src/net/Channel.h:89-92 | the same for an empty mask |
| Epoll.Channel.Remove | src/net/Channel.cpp:36-38 | the channel is new again, and neither mapped nor watched |
| Epoll.Mirrors | src/net/EpollPoller.cpp:41-71 | the invariant means that kernel set and map are exactly the added and the registered channels |
| Epoll.Run | src/net/EpollPoller.cpp:41-94 | after any disciplined sequence of operations the channels have the descriptors, masks and status of the fold `StepAll`, kernel set and map are exactly the added and the registered ones, and no epoll_ctl has failed |
| Epoll.DeletedIsEmpty | src/net/EpollPoller.cpp:41-71 | in every run a channel that has been taken out has an empty mask, and descriptors in use are distinct |
| Epoll.WatchedForSomethingIff | src/net/EpollPoller.cpp:44-58 | no channel is ever watched with an empty mask, in a run, if and only if no disabling of the run hits a channel that is not watched and leaves it without events |
| Epoll.ServedAsAsked | src/net/Channel.h:69-92 | in every run, each channel has the bits of the events last asked of it (EPOLLIN and EPOLLPRI 1 and 2, EPOLLOUT 4), is new exactly if it is not to be registered, and is watched if it is to be and has something to watch for |
| Epoll.EnabledBits | src/net/Channel.h:69-82 | enabling sets the bits it names and leaves all others |
| Epoll.DisabledBits | src/net/Channel.h:74-87 | disabling clears them and leaves all others |
| RingQueue.RingPush | third/spdLog/inc/spdlog/details/circular_q.h:44-55 | pushing into the circular vector appends to the items, and drops the oldest exactly when the ring is full |
| RingQueue.RingPop | third/spdLog/inc/spdlog/details/circular_q.h:81 | popping drops the first item |
| RingQueue.RingAt | third/spdLog/inc/spdlog/details/circular_q.h:74-77 | item i of the ring is found at head + i, around the end |
| RingQueue.CircularQ.PushBack | third/spdLog/inc/spdlog/details/circular_q.h:44-55 | the ring after a push, for enabled and disabled queues and for room for nothing |
| RingQueue.CircularQ.TakeOver | third/spdLog/inc/spdlog/details/circular_q.h:99-110 | moving takes everything and disables the other queue |
| RingQueue.CircularQ.PopFront | third/spdLog/inc/spdlog/details/circular_q.h:81 | the first item goes |
| RingQueue.CircularQ.At | third/spdLog/inc/spdlog/details/circular_q.h:74-77 | indexing counts from the oldest item |
| RingQueue.CircularQ.Full | third/spdLog/inc/spdlog/details/circular_q.h:85-91 | full exactly when the room is used up |
| RingQueue.MpmcBlockingQueue.Enqueue | third/spdLog/inc/spdlog/details/mpmc_blocking_q.h:31-38 | the critical section of a blocking push |
| RingQueue.MpmcBlockingQueue.EnqueueNowait | third/spdLog/inc/spdlog/details/mpmc_blocking_q.h:41-47 | a push that overruns the oldest item when there is no room, and counts it |
| RingQueue.MpmcBlockingQueue.EnqueueIfHaveRoom | third/spdLog/inc/spdlog/details/mpmc_blocking_q.h:49-64 | a push that is counted as discarded when there is no room |
| RingQueue.MpmcBlockingQueue.Dequeue | third/spdLog/inc/spdlog/details/mpmc_blocking_q.h:82-90 | the oldest item is delivered |
| RingQueue.AcceptBalanced | third/spdLog/inc/spdlog/details/mpmc_blocking_q.h:31-64 | conservation under pushes: the ring holds the newest accepted items, and the counters balance |
| RingQueue.DeliverBalanced | third/spdLog/inc/spdlog/details/mpmc_blocking_q.h:82-90 | conservation under deliveries, which follow acceptance order |
| ThreadPool.ConservedStep | third/spdLog/inc/spdlog/details/thread_pool-inl.h:80-124 | every step of every thread keeps the queue balanced and every delivered message processed or held |
| ThreadPool.WakeupStep | third/spdLog/inc/spdlog/details/mpmc_blocking_q.h:31-90 | every step keeps both condition variables free of lost wake-ups, spurious ones included |
| ThreadPool.ClosingStep | third/spdLog/inc/spdlog/details/thread_pool-inl.h:45-56 | terminate messages stay last in the queue, one for each worker |
| ThreadPool.InOrderStep | third/spdLog/inc/spdlog/details/thread_pool-inl.h:92-124 | a single worker processes in queue order |
| ThreadPool.PostedStep | third/spdLog/inc/spdlog/details/thread_pool-inl.h:80-90 | no step forgets a post: only a discarding post at a full queue drops its message |
| ThreadPool.PostsConserved | third/spdLog/inc/spdlog/details/thread_pool-inl.h:80-124 | in every run, each message posted by the steps, terminate messages included, has been processed, is held by a worker, is queued, waits with its producer, was displaced by an overrunning post at a full queue, or refused to a discarding one; the two counters count the last two |
| ThreadPool.PoliciesKept | third/spdLog/inc/spdlog/details/thread_pool-inl.h:80-90 | only discarding posts are ever refused, and only overrunning posts displace a message, one each |
| ThreadPool.QuietDelivers | third/spdLog/inc/spdlog/details/mpmc_blocking_q.h:31-90 | in every run, when nothing can move, nothing is queued, no producer is blocked, and every message posted by the steps has been processed, as often as it was posted and neither displaced by an overrunning post nor refused to a discarding one; so every blocking post has been processed or displaced |
| ThreadPool.RestReached | third/spdLog/inc/spdlog/details/mpmc_blocking_q.h:31-90 | from every state of a running pool the threads that are there can carry on, without further posts, until nothing can move |
| ThreadPool.ShutdownDelivers | third/spdLog/inc/spdlog/details/thread_pool-inl.h:45-56 | in every run, once all workers have ended the queue is empty, and the same holds of every message posted |
| ThreadPool.PostTaken | third/spdLog/inc/spdlog/details/thread_pool-inl.h:80-90 | a running pool takes every post, of any policy, and the threads that are there can carry on from it to rest |
| ThreadPool.ShutdownFromRest | third/spdLog/inc/spdlog/details/thread_pool-inl.h:45-56 | a pool at rest can be shut down to the end |
| ThreadPool.ShutdownProgress | third/spdLog/inc/spdlog/details/thread_pool-inl.h:45-56 | until all workers have ended some thread can go on: posting the terminate messages cannot deadlock |
| ThreadPool.ShutdownBound | third/spdLog/inc/spdlog/details/thread_pool-inl.h:45-56 | a bound on the length of every shutdown, linear in its spurious wake-ups |
| ThreadPool.ShutdownEnds | third/spdLog/inc/spdlog/details/thread_pool-inl.h:45-56 | from every state of a closing pool a run ends with all workers gone |
| RotatingSink.SplitByExtension | third/spdLog/inc/spdlog/details/file_helper-inl.h:131-149 | the name is cut exactly where an extension begins: at the last dot of the last path component, with something before and behind it; without one there is no cut |
| RotatingSink.FilenameIs | third/spdLog/inc/spdlog/sinks/rotating_file_sink-inl.h:54-64 | the index, in decimal, goes in front of the extension if there is one, and behind the name otherwise; the file of index 0 has the name itself |
| RotatingSink.NamesDiffer | third/spdLog/inc/spdlog/sinks/rotating_file_sink-inl.h:54-64 | each index has its own file name |
| RotatingSink.RotatedRetains | third/spdLog/inc/spdlog/sinks/rotating_file_sink-inl.h:97-131 | a rotation drops the oldest file, if all are there, and nothing else |
| RotatingSink.FailedRotationLoses | third/spdLog/inc/spdlog/sinks/rotating_file_sink-inl.h:115-128 | a rotation whose rename fails twice loses the newest file as well |
| RotatingSink.LogRetention | third/spdLog/inc/spdlog/sinks/rotating_file_sink-inl.h:72-131 | over every run the files, read from the highest index down, are a suffix of everything logged, and nothing is dropped before all files exist |
| RotatingSink.FreshLogRetention | third/spdLog/inc/spdlog/sinks/rotating_file_sink-inl.h:72-131 | the same for a new log, with no record split, each file within the limit or of one non-empty record, none of them left before the next record did not fit, and the last record there |
| RotatingSink.LoggedBounded | third/spdLog/inc/spdlog/sinks/rotating_file_sink-inl.h:78-87 | logging keeps every file within its bound |
| RotatingSink.SunkCases | third/spdLog/inc/spdlog/sinks/rotating_file_sink-inl.h:73-131 | for every answer of the system: a record that fits, or finds the log file empty, is appended and nothing else changes; otherwise all files move up by one and it begins the log file, if they can be renamed; if not, it is lost with exactly the newest and the oldest file |
| RotatingSink.LoggedAllPacked | third/spdLog/inc/spdlog/sinks/rotating_file_sink-inl.h:78-87 | over every run, no file is left before the next record did not fit |
| RotatingSink.RotatingFileSink.RenameFile | third/spdLog/inc/spdlog/sinks/rotating_file_sink-inl.h:135-141 | the target is deleted in any case |
| RotatingSink.RotatingFileSink.Rotate | third/spdLog/inc/spdlog/sinks/rotating_file_sink-inl.h:103-131 | the descending loop over file names is the rotation of the specification, and touches no other file; it fails at the highest index with something to rename and two refusals of the system, and only there |
| RotatingSink.RotatingFileSink.SinkIt | third/spdLog/inc/spdlog/sinks/rotating_file_sink-inl.h:73-90 | a record is logged as specified for the system's answers, and one that fits is only appended; a failure is reported exactly when a rotation is due and the system refuses it; the tracked size stays the size of the file |
| RotatingSink.RotatingFileSink.Open | third/spdLog/inc/spdlog/sinks/rotating_file_sink-inl.h:27-50 | null exactly for arguments out of range or a rotation on opening that the system refuses; otherwise the log file is as it was, or empty if it is new or was rotated, and the files are those of the specification; no other file is touched |
| RotatingSink.FailureIff | third/spdLog/inc/spdlog/sinks/rotating_file_sink-inl.h:103-128 | a rotation succeeds exactly when each file that is there can be renamed at one of two attempts |
| RotatingSink.SunkIsLogged | third/spdLog/inc/spdlog/sinks/rotating_file_sink-inl.h:72-131 | a run in which renames succeed is plain logging |
| RotatingSink.SunkInOrder | third/spdLog/inc/spdlog/sinks/rotating_file_sink-inl.h:72-131 | in every run, whatever renames fail, what the files hold is some of what they held and of what was logged, in that order, and nothing twice |
| RotatingSink.LogAll | third/spdLog/inc/spdlog/sinks/rotating_file_sink-inl.h:27-131 | a sink that is opened and logs any records, with any answers of the system, leaves the files that the specification folds up |
| RotatingSink.LogFresh | third/spdLog/inc/spdlog/sinks/rotating_file_sink-inl.h:27-131 | on the sink: with no log files there and renames that succeed, the files hold a suffix of all records, within their bounds, the last record included, and lose nothing before all files exist |
| RotatingSink.OpenedFresh | third/spdLog/inc/spdlog/sinks/rotating_file_sink-inl.h:44-45 | with no log files there, the sink starts with a new log |
| TrailingZeros.RotrIsTurned | third/spdLog/inc/spdlog/fmt/bundled/format-inl.h:137-144 | the two shifts and the bitwise or are a rotation |
| TrailingZeros.Umul128Exact | third/spdLog/inc/spdlog/fmt/bundled/format-inl.h:156-171 | the two halves are the exact product, with every intermediate taken modulo 2^64 |
| TrailingZeros.ByInverse | third/spdLog/inc/spdlog/fmt/bundled/format-inl.h:1156-1170 | multiplying by a modular inverse and rotating tests divisibility exactly and gives the quotient |
| TrailingZeros.HundredthExact32 | third/spdLog/inc/spdlog/fmt/bundled/format-inl.h:1154-1162 | the test for 100 on 32 bits, with the constant of the code |
| TrailingZeros.TenthExact32 | third/spdLog/inc/spdlog/fmt/bundled/format-inl.h:1163-1167 | the test for 10 on 32 bits |
| TrailingZeros.HundredthExact64 | third/spdLog/inc/spdlog/fmt/bundled/format-inl.h:1207-1215 | the test for 100 on 64 bits |
| TrailingZeros.TenthExact64 | third/spdLog/inc/spdlog/fmt/bundled/format-inl.h:1216-1220 | the test for 10 on 64 bits |
| TrailingZeros.MagicTest | third/spdLog/inc/spdlog/fmt/bundled/format-inl.h:1176-1183 | the test with ceil(2^90 / 10^8) is exact for every 64-bit number, and the upper bits are the quotient |
| TrailingZeros.RemoveTrailingZeros32 | third/spdLog/inc/spdlog/fmt/bundled/format-inl.h:1151-1170 | the number is the result times 10^s, and the result does not end in zero |
| TrailingZeros.RemoveTrailingZeros64 | third/spdLog/inc/spdlog/fmt/bundled/format-inl.h:1173-1223 | the same for 64 bits |
| TrailingZeros.WideQuotient | third/spdLog/inc/spdlog/fmt/bundled/format-inl.h:1183 | the truncation to 32 bits stands for the same number if and only if the quotient fits |
| TrailingZeros.ZerosUnique | third/spdLog/inc/spdlog/fmt/bundled/format-inl.h:1151-1223 | result and count are determined by these two conditions |
| FormatScan.ParseNonnegativeInt | third/spdLog/inc/spdlog/fmt/bundled/core.h:2334-2355 | wrapping unsigned sums with the overflow check give the number if it fits, and the error value otherwise |
| FormatScan.SaturatedIndex | third/spdLog/inc/spdlog/fmt/bundled/core.h:2407-2411 | an argument index of more than ten digits does not fit |
| FormatScan.ParseName | third/spdLog/inc/spdlog/fmt/bundled/core.h:2402-2439 | the code reads the name of an argument as `ParsedName` does, with the same errors |
| FormatScan.ParseArgId | third/spdLog/inc/spdlog/fmt/bundled/core.h:2402-2439 | the argument is named as the grammar says, with the same errors |
| FormatScan.ParseReplacementField | third/spdLog/inc/spdlog/fmt/bundled/core.h:2632-2670 | the code reads fields as `ParsedField` does, with the same handler calls and errors |
| FormatScan.PlainRoundTrip | third/spdLog/inc/spdlog/fmt/bundled/core.h:2632-2670 | brace, name, brace is read back as the field of that name, for every name that can be written, whatever follows |
| FormatScan.SpecsRoundTrip | third/spdLog/inc/spdlog/fmt/bundled/core.h:2658-2666 | so is a field with a format specification, as far as the handler says that it goes |
| FormatScan.FieldText | third/spdLog/inc/spdlog/fmt/bundled/core.h:2632-2670 | conversely, what is read as a field is exactly a brace, its name, and either a brace or a colon, its specification and a brace |
| FormatScan.ScanShort | third/spdLog/inc/spdlog/fmt/bundled/core.h:2680-2697 | the short loop gives the meaning of every format string, for every handler |
| FormatScan.Write | third/spdLog/inc/spdlog/fmt/bundled/core.h:2698-2713 | the writer agrees with the meaning on a piece without opening braces |
| FormatScan.ScanTwoPass | third/spdLog/inc/spdlog/fmt/bundled/core.h:2714-2722 | the two-pass scanner gives the same meaning: same text and fields, or the same error |
| FormatScan.ParseFormatString | third/spdLog/inc/spdlog/fmt/bundled/core.h:2672-2723 | so the choice by length does not matter |
| FormatScan.EscapedRoundTrip | third/spdLog/inc/spdlog/fmt/bundled/core.h:2653-2691 | text with its braces doubled comes out as it was |
| FormatScan.FormatRoundTrip | third/spdLog/inc/spdlog/fmt/bundled/core.h:2632-2723 | whatever literals, fields and specifications a format string is written from, reading it gives what they stand for, each field with exactly the fields before it; the first refusal of the handler ends the run |
| FormatScan.BrokenFormat | third/spdLog/inc/spdlog/fmt/bundled/core.h:2402-2691 | whatever a string begins with, a lone closing brace, an opening brace at the end or before what begins no name, and a name or number without a colon or brace behind it give their errors |
| FormatScan.AutomaticArguments | third/spdLog/inc/spdlog/fmt/bundled/core.h:2633-2656 | a handler that counts gives k fields without a name the arguments 0 to k - 1 |

## Left out

- Sockets, epoll_wait, timerfd, accepting and connecting, and the choice of a loop: inputs of the models, or easy.
- Wrap-around of `m_tick`, of buffer sizes, of file sizes and of the slice bounds `offset + length`; the decoder's own sum is modelled with its wrap-around.
- In the timing wheel, tasks insert fresh nodes only: a task that inserts a node which its caller still holds is not modelled.
- CalendarRuns.FiresOnceAtLastDue: what a task starts is a finite tree of commands, fixed when the task is made. A callback that re-arms itself with `runAfter`, or decides at run time, is modelled only as far as such a tree goes; `runEvery` is modelled without that bound.
- `runEvery` with an interval outside 1 s to 30 whole days, which does not terminate; destruction of the wheel; firing after an hour or more, which does not happen.
- Atomic counters and shared pointers are modelled by single steps; two threads over one buffer are not.
- Buffer::swap, which exchanges neither counter nor ownership; makeSpace under other readers of the block, which is not made; operations on moved-from buffers other than assigning to and destroying them; the readU16BE and readU32BE stubs; hex strings and floats.
- Buffers.Buffer.ReadLE: the host is little-endian.
- FrameDecoder.LengthFieldBasedFrameDecoder.Drain: not called on a stream that stops at an empty frame, on which it would not end (`DrainEndsIff`); the receiver reads each frame before the next chunk is appended, and initialBytesToStrip is not modelled, since the code does not use it.
- The raw pointers that `send` binds for another thread, connection callbacks, and who owns a connection.
- Connections.StreamInOrder: nothing is claimed about half-closing; shutdownInLoop only affects what later writes answer.
- Connections.Connection.SendInLoop: stands for sendBufferInLoop too, which repeats it with the bytes of a buffer.
- Epoll.Run: descriptors are distinct and change only while a channel is new; closing a registered descriptor is not modelled.
- EventLoop.ExecutedInOrder: a functor that the loop thread runs directly by runInLoop does not pass through the queue.
- The timed dequeue, resetting the counters, and the queue variant for MinGW.
- ThreadPool.ShutdownBound: the processing of one message is one step, so sinks are taken to return.
- RotatingSink.RotatingFileSink.SinkIt: failing writes and full disks are not modelled, and a file is a list of the records written to it.
- TrailingZeros.RemoveTrailingZeros64: needs a quotient below 2^32 when 10^8 divides the number; `WideQuotient` shows that the code does too. The code repeats the 32-bit loop where the model calls it.
- FormatScan.ParseReplacementField: the handler is deterministic and sees fields, not text; format specifications are the handler's; an error ends the run, as the throwing handlers do.
- Logger configuration, pattern formatting, other sinks, Windows and Android code, fmt's templates and digit generation.
