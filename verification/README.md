# Irono: verified models of a reactor

Irono is a muduo-style network library: event loops that poll descriptors, run timers and queued
functors, and TCP connections that are created on one loop and live on another. Its logic is a set of
hand-written state machines whose `assert`s say what their author believed. This project models the
core ones in Dafny and proves those beliefs, and the promises behind them, over every run.

Objects that one thread at a time updates in place are classes here (buffer, connection, timer queue,
pollers, log buffers, timing wheel, connector): each method is proved against a function of the old
state, and the properties are proved about that function. Protocols between threads (connection
lifecycle, functor queue, thread pool, copy-on-write list) are state machines whose steps are what one
thread does between two points where another may interleave. Mutexes make a step atomic; condition
waits release and reacquire; the kernel, the allocator, the clock and user callbacks are parameters of
the steps and may do anything the interface allows. `dafny verify dfyconfig.toml` checks everything;
nothing of Irono itself is executed.

| file | what it models |
|---|---|
| `Buffer.dfy` | the compacting byte buffer, refined to a byte sequence |
| `Codec.dfy` | the length-prefix codec: what a byte stream means, and the incremental decoder and the encoder proved against it |
| `TcpConnection.dfy` | output path with partial writes, half-close, input path |
| `Pipeline.dfy` | two peers end to end, on values and on the objects |
| `ConnectionState.dfy`, `Options.dfy`, `Histories.dfy` | shared datatypes, and what a list of steps says by itself |
| `Lifecycle.dfy` | connections across any number of loops, with shared ownership |
| `LoopDriving.dfy` | what a loop does on its own |
| `LateSends.dfy`, `LateSendHarm.dfy` | sends after a close: exactly which of them do harm |
| `LifecycleFates.dfy` | what becomes of every connection in all runs without such a send |
| `LifecycleCalls.dfy` | what users' calls and the kernel's reports amount to over whole runs |
| `LifecyclePolling.dfy` | the channels of a lifecycle as epoll sees them |
| `TimerQueue.dfy` | two ordered indexes, batches, re-entrant callbacks, address reuse, the timerfd |
| `TimerLoop.dfy` | runs of a loop thread with a timer queue, and exactly which end in a fatal read |
| `EventLoop.dfy` | pending functors and the eventfd |
| `AsyncLogging.dfy` | the double-buffered log |
| `ThreadPool.dfy` | the bounded queue monitor |
| `Channel.dfy`, `EPoller.dfy`, `Poller.dfy` | registration indexes against the kernel's interest set, and the swap-with-last array |
| `TimingWheel.dfy` | reference-counted idle wheel, refined to last-activity ages |
| `CopyOnWrite.dfy` | the shared connection list |
| `LogStream.dfy` | in-place integer formatting and the fixed buffer |
| `Connector.dfy` | socket ownership, retry back-off, and exactly which calls lead to a failed assert |
| `ConnectorObject.dfy` | the connector with its channel, poller, timers and descriptors, refined to that |

Read first: `Pipeline.EndToEnd` with `Pipeline.Exchange`, `Connections.OutputOfCalls`, `LateSendHarm.FailsIffHarmful` with
`LifecycleFates.LifecycleSafety`, `TimerQueues.TimerQueue.HandleRead` with `TimerSpec.DueTimerFate` and
`TimerLoops.RunLoop`, `EventLoops.EveryRun`, `ThreadPools.Monitor` with `ThreadPools.Served`,
`AsyncLogs.RunLog` with `AsyncLogs.BuffersByBytes` and `AsyncLogs.DroppedExactly`, `Pollers.RunPoller` with `Pollers.WatchedExactly`, `IdleSpec.SlidingWindow`,
`CopyOnWrite.EveryRun`, `LogStreams.Stream` and `LogStreams.Convert` with `Numerals.DecimalRoundTrip`,
`ConnectorSpec.FailsIffDisorderly` with `Connectors.RunConnector`.

## Findings

Where the code does not keep what one would expect of it, the code is modelled as it is, a run shows
the failure, and the exact condition is proved.

- Messages longer than 65536 bytes are encoded but never come back: nothing longer is ever delivered
  (`Codec.OversizedNeverArrives`), and the round trip holds if and only if all messages are within the
  limit (`Codec.RoundTrip`, `Codec.InvalidLengthStops`, `Pipeline.InvDelivers`).
- A blocked `send` on a connection that was closed but not yet destroyed registers the channel again,
  so that it can be closed a second time and break `erase == 1` (`Lifecycle.SendToClosedFails`, a run
  from the start). At every point of the protocol, a step has a continuation that fails an assert if
  and only if it is such a send and connectDestroyed is not among what the loop runs before its next
  poll (`LateSendHarm.FailsIffHarmful`).
- `shutdown` tests `state_` and writes it without a lock. On a thread other than the connection's own,
  the write can find the connection destroyed, and kDisconnected becomes kDisconnecting
  (`Lifecycle.LateShutdownGoesBack`, a run from the start). The states move forward in every step but
  exactly that one (`LifecycleFates.StatesMoveForward`, `LifecycleFates.SettledStays`); no assert depends on it.
- If the timerfd is set again between the poll that reported it and `handleRead`, for example by
  another handler of the same iteration, the read finds nothing and the program logs a fatal error
  (`TimerLoops.CancelAndAddBeforeRead`, a run from the constructor). After the report, the read is fatal if
  and only if one of the calls in between adds a timer that is the earliest at its turn and the timerfd
  does not expire again before the read (`TimerLoops.FatalExactly`, `TimerLoops.SilencedMeans`; over any
  run, `TimerLoops.RunLoop`).
- A batch of more than 25 log buffers loses all but the first two (`AsyncLogs.LinesAreLost`: 27 accepted
  lines, two in the file). Lines are missing if and only if some batch was that long and held a line in
  its third or a later buffer (`AsyncLogs.DroppedExactly`, `AsyncLogs.RunLog`).
- A poll-array slot that was ignored stays ignored when its channel is enabled again
  (`Pollers.ReenabledIsDeaf`). A slot is ignored if and only if some update since the registration had an
  empty mask (`Pollers.WatchedExactly`).
- Restarting a connector from inside its new-connection callback, or starting it while a retry is pending,
  leads to a failed assert (`ConnectorSpec.RestartInsideCallbackFails`, `ConnectorSpec.StartWhilePendingFails`,
  both from the start), and a second retryable start hides the older timer from `stop`
  (`ConnectorSpec.StopMissesOlderTimer`). Every call and event fails an assert, at once or later, if and
  only if a condition on the state and on the outcome of connect(2) does not hold
  (`ConnectorSpec.FailsIffDisorderly`). What a caller can check beforehand: a start is safe whatever the
  outcome if and only if the connector is disconnected, no retry is pending and the old channel is
  cleared (`ConnectorSpec.SafeWhateverTheOutcome`).

## Model

| member | source | states |
|---|---|---|
| Buffers.Buffer.Append | irono/net/Buffer.h:97-102 | readable bytes become the old ones followed by the data, wherever they lie |
| Buffers.Buffer.EnsureWritableBytes | irono/net/Buffer.h:109-116 | enough room afterwards, same readable bytes |
| Buffers.Buffer.MakeSpace | irono/net/Buffer.h:156-175 | same readable bytes and enough room; `kCheapPrepend < readerIndex_` follows from the caller's test; reallocates exactly when moving cannot make room |
| Buffers.Buffer.Prepend | irono/net/Buffer.h:127-133 | data goes in front of the readable bytes |
| Buffers.Buffer.Retrieve | irono/net/Buffer.h:65-69 | drops exactly the first bytes |
| Buffers.Buffer.RetrieveAll | irono/net/Buffer.h:78-82 | nothing readable is left and the prependable area is restored |
| Buffers.Buffer.RetrieveAsString | irono/net/Buffer.h:85-90 | hands over all readable bytes and leaves none |
| Buffers.Buffer.ReadFd | irono/net/Buffer.cc:12-32 | appends exactly the bytes readv delivered, in order, across the writable region and the overflow array; an error changes nothing |
| Codec.OnMessage | irono/example/chat/codec.h:20-44 | delivers the messages, keeps the leftover and reports the verdict that the meaning of the buffered bytes prescribes; terminates, also on empty messages |
| Codec.Send | irono/example/chat/codec.h:46-53 | gives the connection the 4-byte big-endian length and then the message |
| Codec.HeaderRoundTrip | irono/example/chat/codec.h:46-51 | a header reads back as the size truncated to 32 signed bits |
| Codec.NetworkByteOrder | irono/example/chat/codec.h:46-51 | the header is the size in base 256, most significant byte first |
| Codec.ReadsNetworkByteOrder | irono/example/chat/codec.h:23-28 | and is read so, as a signed 32-bit number |
| Codec.DecodeSplit | irono/example/chat/codec.h:20-44 | decoding the leftover with later bytes is decoding the whole |
| Codec.ChunkIndependence | irono/example/chat/codec.h:20-44 | messages, leftover and verdict depend on the concatenated input only, for every split into calls |
| Codec.DecodeRestIsStuck | irono/example/chat/codec.h:20-44 | the leftover never holds a whole message; decoding it again changes nothing |
| Codec.DecodeEncode | irono/example/chat/codec.h:20-53 | encoded messages within the limit come out first, whatever follows them |
| Codec.DeliveredFit | irono/example/chat/codec.h:29-38 | from any bytes, every delivered message is within the limit |
| Codec.OversizedNeverArrives | irono/example/chat/codec.h:29-33 | a message over the limit is never delivered, whatever is sent before and after it |
| Codec.RoundTrip | irono/example/chat/codec.h:20-53 | decode after encode is the identity if and only if every message has at most 65536 bytes |
| Codec.PrefixDelivery | irono/example/chat/codec.h:20-53 | any arrived prefix of an encoded stream delivers a prefix of the messages, finds no invalid length, and leaves less than a frame |
| Codec.InvalidLengthStops | irono/example/chat/codec.h:29-33 | everything before a bad length is delivered, nothing after it ever is |
| Connections.TcpConnection.ConnectEstablished | irono/net/TcpConnection.cc:120-128 | from kConnecting to kConnected, reading, and then the connection callback |
| Connections.TcpConnection.Send | irono/net/TcpConnection.cc:48-57 | refused unless connected, else the output path accepts the message |
| Connections.TcpConnection.SendInLoop | irono/net/TcpConnection.cc:71-100 | what the kernel does not take at once, and anything sent while bytes wait, is buffered and writing enabled; the wire grows by what write(2) took, if it was tried |
| Connections.TcpConnection.Shutdown | irono/net/TcpConnection.cc:102-108 | only from kConnected; the write side is closed at once only if nothing waits |
| Connections.TcpConnection.ShutdownInLoop | irono/net/TcpConnection.cc:111-118 | closes the write side unless bytes wait |
| Connections.TcpConnection.HandleWrite | irono/net/TcpConnection.cc:159-188 | moves exactly as many bytes as write(2) took from the buffer to the wire; when the buffer empties, stops writing and completes a pending shutdown |
| Connections.TcpConnection.HandleRead | irono/net/TcpConnection.cc:142-156 | decodes old input and new bytes together; an invalid length shuts down, end of file closes and calls the close callback, an error changes nothing |
| Connections.TcpConnection.HandleClose | irono/net/TcpConnection.cc:190-202 | watches nothing any more, loses no byte, and calls the close callback once |
| Connections.TcpConnection.ConnectDestroyed | irono/net/TcpConnection.cc:130-140 | kDisconnected and watching nothing, then the connection callback, then removeChannel |
| Connections.ApplyKeepsOutputInv | irono/net/TcpConnection.cc:71-118 | every call keeps: writing iff bytes wait; wire ++ buffer == accepted; write side closed iff shutdown was asked for and nothing waits; the wire only grows |
| Connections.RunsKeepOutputInv | irono/net/TcpConnection.cc:71-188 | the same over every run; nothing changes after the write side is closed |
| Connections.AcceptedIsSentBeforeShutdown | irono/net/TcpConnection.cc:48-118 | what is accepted is exactly what was sent before the first shutdown |
| Connections.HalfClose | irono/net/TcpConnection.cc:71-188 | shutdownWrite happens at most once, and exactly when shutdown was called and all bytes sent before it are on the wire |
| Connections.OutputOfCalls | irono/net/TcpConnection.cc:48-118 | state, interest, buffer, wire and half-close of every run, read off the calls and the answers of write(2) alone: partial writes cut what was sent where the answers say |
| Pipeline.ApplyKeepsPipeInv | irono/net/TcpConnection.cc:71-188 | sends, partial or failed writes, shutdowns and reads of any size keep: accepted bytes are the encoding of the sent messages, and the receiver has decoded exactly the bytes taken |
| Pipeline.RunsKeepPipeInv | irono/net/TcpConnection.cc:71-188 | the same over every schedule |
| Pipeline.InvDelivers | irono/example/chat/codec.h:20-53 | delivered is a prefix of sent; once all bytes are pumped, delivered == sent with empty buffers if and only if all messages are within the limit |
| Pipeline.EndToEnd | irono/example/chat/codec.h:20-53 | the two properties above for every schedule of writes and every chunking of reads; messages sent, bytes written and bytes read are those that the steps ask for |
| Pipeline.CanBePumped | irono/net/TcpConnection.cc:159-188 | from every reachable state the remaining bytes can be delivered, in pieces of any positive size |
| Pipeline.PerformAtSender | irono/net/TcpConnection.cc:48-188 | one event at the sending object follows the model |
| Pipeline.Perform | irono/net/TcpConnection.cc:142-156 | one event on the two objects follows the model, reads up to the writable bytes plus the overflow array included |
| Pipeline.Exchange | irono/net/TcpConnection.cc:48-188 | any schedule on the real objects is a run of the model, each read as long as was asked for and readv has room for, so a prefix of what was sent is delivered |
| Lifecycle.StepKeepsInv | irono/net/TcpServer.cc:48-88 | any step of any loop keeps the strict invariant if and only if it is neither a blocked send to a closed connection nor the write of a cross-thread shutdown to a destroyed one |
| Lifecycle.CloseKeepsInv | irono/net/TcpConnection.cc:190-202 | handleClose, on the base loop or elsewhere, keeps the invariant: exactly the functor that is due is outstanding, on the loop where it belongs |
| Lifecycle.AcceptKeepsInv | irono/net/TcpServer.cc:48-72 | so does newConnection, whichever loop the connection goes to |
| Lifecycle.RunNextKeepsInv | irono/net/EventLoop.cc:117-130 | so does any functor run from a batch: it finds its connection in the stage it asserts |
| Lifecycle.InvIsSafe | irono/net/TcpConnection.cc:120-140 | no failed assert; connections inside handleEvent or reported by poll are alive; a freed one has left the poller and was destroyed once; destroyed at most as often as closed, closed at most once; kDisconnected exactly from the destruction on |
| Lifecycle.DueIsHeld | irono/net/TcpServer.cc:74-88 | as long as a functor is due for a connection, a shared_ptr keeps it alive |
| LifecycleFates.FreedStaysFreed | irono/net/TcpServer.cc:74-88 | at any point of a run without a harmful send, no step revives or touches a freed connection |
| LifecycleFates.StatesMoveForward | irono/net/TcpConnection.cc:102-140 | at any such point: kConnecting, kConnected, perhaps kDisconnecting, kDisconnected, in every step but exactly the late write of a cross-thread shutdown; and a shutdown does move kConnected on |
| LifecycleFates.QuietMeansFreed | irono/net/TcpServer.cc:74-88 | at any such point: once all loops are idle, a closed connection has been destroyed exactly once and is freed unless user code holds it |
| Lifecycle.SendToClosedFails | irono/net/TcpConnection.cc:94-99 | a run from the start in which another handler sends after the close, and `erase` fails |
| Lifecycle.LateShutdownGoesBack | irono/net/TcpConnection.cc:102-108 | a run from the start in which that write turns kDisconnected into kDisconnecting |
| LifecycleCalls.ShutdownIsForGood | irono/net/TcpConnection.cc:48-57 | after a shutdown on the connection's own loop, in every continuation: kDisconnecting or kDisconnected, every send is refused, and none is harmful |
| LifecycleCalls.ConnectedExactly | irono/net/TcpConnection.cc:102-140 | over every run a connection that is up stays kConnected if and only if nobody shuts it down and it is not destroyed |
| LifecycleCalls.PointersOfRun | irono/net/TcpConnection.cc:102-108 | over every run user code holds a pointer iff it last retained it, and a thread is about to write the state iff it read it and has not |
| LifecycleCalls.LivesWhereAccepted | irono/net/TcpServer.cc:48-72 | a connection lives for ever on the loop that newConnection chose |
| LifecycleCalls.HandledInOrder | irono/net/EventLoop.cc:138-145 | a loop handles each reported connection once, in the order of the report |
| LifecycleCalls.BatchInOrder | irono/net/EventLoop.cc:117-130 | a batch is what was queued when the queue was taken, run from the front |
| LifecycleFates.ComesToRun | irono/net/EventLoop.cc:117-149 | from any such point a loop, left to itself, comes to run any of its functors |
| LifecycleFates.DueIsRun | irono/net/EventLoop.cc:117-149 | so the functor due for a connection can be run and takes it to its next stage |
| LifecycleFates.CloseEndsInDestruction | irono/net/TcpServer.cc:74-88 | from any such point a closed connection can be brought to its one destruction by the loops alone |
| LateSends.StepStaysTame | irono/net/TcpConnection.cc:94-99 | the tolerant invariant, which allows connections that are watched again but destroyed before the next poll, is kept and no assert fails by every step that is not a harmful send |
| LateSends.StepStaysClean | irono/net/TcpConnection.cc:94-118 | apart from what late sends and shutdowns left on single connections, the protocol goes its strict course |
| LateSendHarm.HarmfulSendFails | irono/net/TcpConnection.cc:94-99 | from any point, after a harmful send the loops alone reach a failed assert: poll, a second close, a second erase |
| LateSendHarm.ErasedTwiceFails | irono/net/TcpServer.cc:79-88 | asked to erase a connection twice, the base loop fails `erase == 1` |
| LateSendHarm.SparedRunsStayTame | irono/net/TcpServer.cc:48-88 | every run without a harmful send, over all interleavings, fails no assert |
| LateSendHarm.FailsIffHarmful | irono/net/TcpConnection.cc:94-99 | at any point and for any step: some continuation without a further harmful send fails an assert if and only if the step is a harmful send |
| LifecycleFates.SettledStays | irono/net/TcpConnection.cc:102-108 | a destroyed connection keeps reading kDisconnected if and only if the step is not a late cross-thread write |
| LifecycleFates.LifecycleSafety | irono/net/TcpServer.cc:48-88 | for any number of loops and connections and any interleaving without a harmful send: the safety above; states move forward but for a late cross-thread shutdown, and settle if there was none; when the loops are idle, each closed connection was destroyed once and is freed unless user code holds it |
| LifecyclePolling.UpdatedIsEpoll | irono/net/EPoller.cc:82-116 | Channel::update in a lifecycle is updateChannel of the poller |
| LifecyclePolling.StepIsLegal | irono/net/EPoller.cc:82-151 | in every lifecycle, late sends included, each step makes only legal epoll_ctl calls and meets the asserts of removeChannel |
| TimerSpec.OneOp | irono/net/TimerQueue.cc:96-134 | what one add or cancel does to any earlier id; an add never touches it, a cancel only its own |
| TimerSpec.Added | irono/net/TimerQueue.cc:96-113 | an add at a free address makes exactly one new live timer, as asked for, and any other add none |
| TimerSpec.AddedFate | irono/net/TimerQueue.cc:96-135 | a timer added by a handler or a callback waits, as asked for, unless the script goes on to cancel it |
| TimerSpec.RearmsExactly | irono/net/TimerQueue.cc:108-113 | an add sets the timerfd if and only if it changes the earliest expiration |
| TimerSpec.StaleStaysStale | irono/net/TimerQueue.cc:119-134 | an id that is no longer live never is again, and cancelling it never affects a later timer at the same address |
| TimerSpec.DuringScript | irono/net/TimerQueue.cc:119-134 | during a callback, an earlier timer survives iff the script does not cancel it, and is marked iff the script does |
| TimerSpec.DuringBatch | irono/net/TimerQueue.cc:144-152 | the same over all callbacks of a batch |
| TimerSpec.DueTimerFate | irono/net/TimerQueue.cc:137-200 | a due timer lives on iff it repeats and no callback of the batch cancelled it, itself included; then it expires at now + interval |
| TimerSpec.OtherTimerFate | irono/net/TimerQueue.cc:137-200 | any other timer is untouched unless a callback cancelled it |
| TimerSpec.FiringKeepsViewOk | irono/net/TimerQueue.cc:137-200 | a batch keeps addresses unique among live timers and revives no stale id |
| TimerSpec.FdFate | irono/net/TimerQueue.cc:137-210 | after a firing the timerfd is set iff some operation of a callback changed the earliest expiration or the earliest timer left has a valid time; nothing is left to read |
| TimerSpec.ResetEachIsReset | irono/net/TimerQueue.cc:181-200 | rescheduling the batch one by one, in any order, is rescheduling it at once |
| TimerQueues.InsertedFacts | irono/net/TimerQueue.cc:213-238 | ordered insertion keeps the order, adds one entry, and says when the first changes |
| TimerQueues.InsertKeepsIndexed | irono/net/TimerQueue.cc:213-238 | both indexes take the timer: neither insertion finds it there already |
| TimerQueues.EraseKeepsIndexed | irono/net/TimerQueue.cc:119-129 | the entry under the current expiration is in the first index exactly when the id is in the second |
| TimerQueues.TakenIsBatch | irono/net/TimerQueue.cc:157-178 | the entries before the sentry are exactly the timers due at now, once each, in (expiration, address) order |
| TimerQueues.NothingLeaks | irono/net/TimerQueue.cc:181-200 | between batches the allocated timers are exactly those in the indexes |
| TimerQueues.TimerQueue.ResetTimerfd | irono/net/TimerQueue.cc:25-66 | armed for the expiration, but at least 100 microseconds ahead, and no longer readable |
| TimerQueues.TimerQueue.Insert | irono/net/TimerQueue.cc:213-238 | into both indexes; tells whether the earliest expiration changed |
| TimerQueues.TimerQueue.AddTimerInLoop | irono/net/TimerQueue.cc:108-113 | keeps the timerfd armed for the earliest timer; sets it to the new expiration, or 100 microseconds ahead if that is later, exactly when the earliest changes |
| TimerQueues.TimerQueue.New | irono/net/TimerQueue.cc:96-105 | any free address and a sequence number never used before |
| TimerQueues.TimerQueue.AddTimer | irono/net/TimerQueue.cc:96-113 | adds exactly the new timer; sets the timerfd, for exactly that expiration, and makes it unreadable exactly when the earliest expiration changed |
| TimerQueues.TimerQueue.CancelInLoop | irono/net/TimerQueue.cc:119-134 | removes and frees a live timer, marks one of the running batch, ignores any other id |
| TimerQueues.TimerQueue.GetExpired | irono/net/TimerQueue.cc:157-178 | takes exactly the due timers out of both indexes, in order |
| TimerQueues.TimerQueue.EraseActive | irono/net/TimerQueue.cc:170-174 | each expired timer is found and erased from the second index |
| TimerQueues.TimerQueue.Run | irono/net/TimerQueue.cc:147-151 | a callback that adds and cancels any timers is its sequence of operations, and sets the timerfd exactly if one of them adds the earliest timer at its turn |
| TimerQueues.TimerQueue.RunCallbacks | irono/net/TimerQueue.cc:144-152 | every timer of the batch runs once, in order, and none is freed while the batch lasts |
| TimerQueues.TimerQueue.ResetTimer | irono/net/TimerQueue.cc:185-200 | one timer of the batch is restarted and inserted, or freed |
| TimerQueues.TimerQueue.Reset | irono/net/TimerQueue.cc:181-211 | the whole batch is, and the timerfd is armed again |
| TimerQueues.TimerQueue.RearmForEarliest | irono/net/TimerQueue.cc:201-210 | if the earliest timer left has a valid time, the timerfd is armed for exactly that, else left alone |
| TimerQueues.TimerQueue.HandleRead | irono/net/TimerQueue.cc:137-155 | fails exactly when the timerfd is not readable; otherwise runs exactly the due timers in order, leaves what the specification says, arms the timerfd for exactly the earliest timer left, and leaves no timer uncovered |
| TimerLoops.RunLoop | irono/net/TimerQueue.cc:108-155 | over any run of adds, cancels, expiries and firings the queue and the timerfd are what the events prescribe, no timer is lost, and the run aborts exactly when the events say so |
| TimerLoops.OneRunOnly | irono/net/TimerQueue.cc:157-178 | the events alone determine the batches |
| TimerLoops.FatalExactly | irono/net/TimerQueue.cc:41-51 | once readable, and whatever calls and expiries come before the read, it is fatal if and only if one of them silences the timerfd |
| TimerLoops.SilencedMeans | irono/net/TimerQueue.cc:41-66 | that is, if and only if some call adds the earliest timer at its turn and no expiry comes after it |
| TimerLoops.CancelAndAddBeforeRead | irono/net/TimerQueue.cc:41-51 | a run from the constructor whose read is fatal |
| EventLoops.StepKeepsOrder | irono/net/EventLoop.cc:117-130 | executed ++ rest of the batch ++ pending is the enqueue history; a batch holds only functors enqueued before it started |
| EventLoops.StepKeepsInv | irono/net/EventLoop.cc:101-175 | every step of the loop or a producer keeps order, wakeups and the eventfd's asserts |
| EventLoops.RunsKeepInv | irono/net/EventLoop.cc:101-175 | over every interleaving |
| EventLoops.EveryRun | irono/net/EventLoop.cc:109-175 | by the steps alone: exactly-once FIFO execution of what was pushed; no lost wakeup: in poll with work pending, the eventfd was written to and not read or some thread that pushed is about to write; a batch never runs what was pushed during it |
| EventLoops.HistoryOfRun | irono/net/EventLoop.cc:101-175 | pushes, calls, unread writes and threads about to wake the loop are those of the steps |
| EventLoops.BatchCompletes | irono/net/EventLoop.cc:126-129 | a batch runs to its end and back to poll |
| EventLoops.PendingWorkGetsDone | irono/net/EventLoop.cc:138-145 | from every poll with work pending there is a run after which everything enqueued has executed; it begins with the poll returning, or with a wakeup already under way if the eventfd is not readable yet |
| AsyncLogs.AsyncLogging.Append | irono/base/AsyncLogging.cc:27-44 | a line is accepted iff it is shorter than a buffer; the current buffer is never null, and is given up exactly when its bytes and the line reach its size |
| AsyncLogs.AsyncLogging.Exchange | irono/base/AsyncLogging.cc:65-80 | takes all full buffers and the current one, leaves two empty ones |
| AsyncLogs.AsyncLogging.WriteBatch | irono/base/AsyncLogging.cc:82-121 | writes the whole batch, or its first two buffers if longer than 25; both spares are recovered after any erase or resize |
| AsyncLogs.AsyncLogging.WriteOut | irono/base/AsyncLogging.cc:93-96 | the lines of the buffers, whole and in order |
| AsyncLogs.AsyncLogging.NothingLost | irono/base/AsyncLogging.cc:27-121 | file ++ batch ++ full buffers ++ current buffer is everything accepted if and only if no erase threw lines away |
| AsyncLogs.LinesConcat | irono/base/AsyncLogging.cc:93-96 | buffers hold whole lines, and their order is the order of the lines |
| AsyncLogs.AddBatch | irono/base/AsyncLogging.cc:82-96 | each batch contributes all or its first two buffers |
| AsyncLogs.TextLength | irono/base/LogStream.h:17-22 | the length that is kept is that of the bytes |
| AsyncLogs.BuffersByBytes | irono/base/AsyncLogging.cc:27-44 | in every run, by the bytes: no buffer holds as much as its size; the current one is given up exactly when its bytes and the line would reach it; the line then starts the next |
| AsyncLogs.DroppedExactly | irono/base/AsyncLogging.cc:82-96 | the file holds all lines of the batches if and only if every batch over 25 buffers has none in its third or a later buffer |
| AsyncLogs.LinesAreLost | irono/base/AsyncLogging.cc:82-91 | 27 lines of almost a buffer each, one exchange, one write: all accepted, two in the file |
| AsyncLogs.RunLog | irono/base/AsyncLogging.cc:27-121 | in any interleaving of appends and back-end sections no assert fails, buffers and batches are those the events prescribe, and nothing accepted is lost if and only if none of these batches lost lines |
| ThreadPools.RunHeldKeepsInv | irono/base/ThreadPool.cc:57-73 | run() from the loop test to the wait or the notify keeps the monitor invariant |
| ThreadPools.TakeHeldKeepsInv | irono/base/ThreadPool.cc:76-91 | take() likewise |
| ThreadPools.StepKeepsInv | irono/base/ThreadPool.cc:39-96 | entering, waiting, resuming, spurious wakeups and stop keep it |
| ThreadPools.RunsKeepInv | irono/base/ThreadPool.cc:39-96 | over every interleaving |
| ThreadPools.Monitor | irono/base/ThreadPool.cc:39-96 | accepted, taken and queued tasks are those of a bounded queue without threads, given the same calls; a sleeping worker next to a task, or a sleeping producer next to a free slot, has a woken companion; workers and producers never all sleep; nobody sleeps after stop |
| ThreadPools.ProducersKeepTheirTasks | irono/base/ThreadPool.cc:57-73 | in every run a waiting or woken producer still has the task of its last run() |
| ThreadPools.Served | irono/base/ThreadPool.cc:57-91 | in every run and for every step, by the history: a run() adds the task its caller came with, waits or is refused, and a take() gets the first task or waits, exactly when it should |
| ThreadPools.QueueOfRun | irono/base/ThreadPool.cc:57-91 | over every run the tasks accepted and given out are those of a bounded queue that knows nothing of sleeping and waking |
| ThreadPools.EveryoneIsServed | irono/base/ThreadPool.cc:57-91 | from every point there is a run of one worker that keeps coming, after which every queued task is taken and every waiting producer has got its task in |
| ThreadPools.WhichWorkersWake | irono/base/ThreadPool.cc:39-73 | exactly whom a notify, a stop or a spurious wakeup wakes among the workers |
| ThreadPools.WhichProducersWake | irono/base/ThreadPool.cc:39-91 | and among the producers |
| EPollers.EveryControlIsLegal | irono/net/EPoller.cc:82-151 | in every run every ADD, MOD and DEL meets the kernel in the state it needs |
| EPollers.MaskByOps | irono/net/Channel.h:31-34 | over every run a channel asks for an event iff it was last enabled and not disabled since |
| EPollers.CloseThenDestroy | irono/net/TcpConnection.cc:130-140 | the second disableAll adds the channel again with mask 0, and removal deletes it |
| EPollers.EPoller.Change | irono/net/EPoller.cc:82-116 | after any enable or disable the kernel watches the channel iff its index is kAdded, with its mask; other channels are untouched |
| EPollers.EPoller.RemoveChannel | irono/net/EPoller.cc:118-135 | the channel is gone from the map and the kernel, and new again |
| EPollers.RunPoller | irono/net/EPoller.cc:82-151 | for any interleaving of operations on any channels, which may use one descriptor one after the other, each channel and the kernel interest are where its own operations take it, by legal calls |
| Pollers.PushedSlot | irono/net/Poller.cc:59-70 | appending a slot keeps the bijection |
| Pollers.ChangedSlot | irono/net/Poller.cc:71-85 | so does changing one |
| Pollers.SwapPoppedSlot | irono/net/Poller.cc:94-117 | swapping with the last slot and popping loses that slot alone and needs one index changed |
| Pollers.Poller.UpdateChannel | irono/net/Poller.cc:56-86 | a new channel gets a slot with its fd, a silent one -fd-1, and an ignored one stays ignored |
| Pollers.Poller.RemoveChannel | irono/net/Poller.cc:87-118 | exactly that channel is gone; all other slots are found through their indexes |
| Pollers.Poller.Poll | irono/net/Poller.cc:20-54 | an errno is fatal; otherwise the active channels are exactly those that were watched and that poll found ready, each once and with the events poll found (`poll()` skips negative fds, POSIX.1-2017 System Interfaces) |
| Pollers.Poller.FillActiveChannels | irono/net/Poller.cc:36-54 | stopping after numEvents reports still finds exactly the channels with positive revents, in slot order, each with its own revents |
| Pollers.Poller.SwapAndPop | irono/net/Poller.cc:100-117 | the gap is filled by the last slot, whose channel learns its new index; no other slot or index changes |
| Pollers.RunPoller | irono/net/Poller.cc:20-118 | any sequence of updates, removals and polls of any channels, which may use one descriptor one after the other: the slots are what the operations prescribe, no assert fails, and each poll reports exactly the watched and ready descriptors |
| Pollers.WatchedExactly | irono/net/Poller.cc:77-84 | in every run the slot of a registered channel is ignored if and only if some update since its registration had an empty mask |
| Pollers.SilentIsIgnored | irono/net/Poller.cc:93-99 | a channel first registered for some event may be removed whenever its mask is empty: the removal assert holds |
| Pollers.ReenabledIsDeaf | irono/net/Poller.cc:77-84 | a run after which a channel has a non-empty mask and is never reported |
| Pollers.DescriptorsAreReused | irono/net/Poller.cc:56-118 | a run in which a new channel is registered with the descriptor of one that was removed |
| IdleSpec.SlidingWindow | irono/example/echo/echo.cc:30-71 | over every run an entry is alive iff no N ticks in a row passed without a message; its shutdown fires once iff that happened before the connection was freed, else never |
| IdleSpec.WindowFromUp | irono/example/echo/echo.cc:30-71 | from the start, by the events alone: an entry lives until N ticks in a row pass without a message after its connection came up, and fires accordingly |
| IdleSpec.DeadStaysDead | irono/example/echo/echo.cc:58-65 | a later message does not revive a dead entry or fire again |
| IdleSpec.FreedIsLeftAlone | irono/example/echo/echo.h:31-36 | over every run a freed connection is never shut down by its entry |
| IdleSpec.ApplyKeepsSound | irono/example/echo/echo.cc:30-71 | ages below N, and a shutdown fired at most once and never for a living entry |
| TimingWheels.TickedAges | irono/example/echo/echo.h:52-55 | a tick makes every entry one older and drops those only in the last bucket |
| TimingWheels.AgeWithoutLast | irono/example/echo/echo.h:52-55 | destroying a bucket does not change the age of an entry held elsewhere |
| TimingWheels.HeldIsCounted | irono/example/echo/echo.h:26-39 | an entry in a bucket has a positive use_count |
| TimingWheels.EchoServer.constructor | irono/example/echo/echo.cc:15-24 | N empty buckets |
| TimingWheels.EchoServer.OnConnectionUp | irono/example/echo/echo.cc:30-41 | the entry starts at age 0 |
| TimingWheels.EchoServer.OnMessage | irono/example/echo/echo.cc:49-65 | a living entry goes back to age 0, a dead one stays dead |
| TimingWheels.EchoServer.OnTimer | irono/example/echo/echo.cc:68-71 | the destructor runs for exactly the entries whose age reaches N |
| TimingWheels.RunServer | irono/example/echo/echo.cc:30-71 | any run of the wheel is the run of the last-activity ages |
| CopyOnWrite.StepKeepsInv | irono/example/chat/server_threaded_efficient.cc:37-71 | joins, leaves, acquisitions and unlocked releases keep: nothing dangles or leaks, held lists never change, a writer past its copy is alone |
| CopyOnWrite.RunsKeepInv | irono/example/chat/server_threaded_efficient.cc:37-71 | over every interleaving |
| CopyOnWrite.SnapshotsAreFrozen | irono/example/chat/server_threaded_efficient.cc:60-71 | a list held across any run is what it was when taken |
| CopyOnWrite.MembersOfRun | irono/example/chat/server_threaded_efficient.cc:49-54 | the current members are the fold of the completed updates |
| CopyOnWrite.LastUpdateDecides | irono/example/chat/server_threaded_efficient.cc:49-54 | a connection is a member iff its last update is a join |
| CopyOnWrite.SnapshotIsThen | irono/example/chat/server_threaded_efficient.cc:60-71 | a reader's list is the members at the time it took it, however long it keeps it |
| CopyOnWrite.EveryRun | irono/example/chat/server_threaded_efficient.cc:37-71 | the above together, with the `unique()` assert: the list holds exactly those whose last completed update is a join |
| Numerals.DigitsReadBack | irono/base/LogStream.cc:10-45 | the digits of a number, decimal or hexadecimal, read back as it and start with 0 only for 0 |
| Numerals.UsualDigits | irono/base/LogStream.cc:7-8 | digits are the usual characters, capitals from ten on |
| Numerals.DecimalRoundTrip | irono/base/LogStream.cc:11-28 | for every integer the text is canonical and parses to it |
| Numerals.CanonicalIsUnique | irono/base/LogStream.cc:11-28 | no other canonical text does |
| LogStreams.TruncatedStep | irono/base/LogStream.cc:15-19 | C's remainder, negative ones included, indexes the table at the right digit, so the minimum value needs no negation |
| LogStreams.DecimalLength | irono/base/LogStream.cc:11-28 | at most 20 characters for every 32- or 64-bit value, signed or unsigned |
| LogStreams.HexLength | irono/base/LogStream.cc:29-45 | at most 16 for every address |
| LogStreams.PutDigits | irono/base/LogStream.cc:12-19 | the do/while writes the digits of the absolute value backwards and nothing else |
| LogStreams.ReverseInPlace | irono/base/LogStream.cc:25 | reverses the range and leaves the rest |
| LogStreams.Convert | irono/base/LogStream.cc:10-28 | writes the decimal text and a NUL, 21 bytes at most, and touches nothing else |
| LogStreams.ConvertHex | irono/base/LogStream.cc:29-45 | likewise in hexadecimal, 17 bytes at most |
| LogStreams.FixedBuffer.Append | irono/base/LogStream.h:17-22 | a text is kept whole with a byte to spare, else ignored |
| LogStreams.FixedBuffer.FormatInteger | irono/base/LogStream.cc:102-108 | a number is kept whole if 32 bytes are free, else ignored |
| LogStreams.FixedBuffer.FormatPointer | irono/base/LogStream.cc:47-59 | 0x and the digits, under the same guard |
| LogStreams.NeverFull | irono/base/LogStream.h:17-25 | whatever is streamed, the buffer is never filled to its end and what is in it stays |
| LogStreams.NothingCut | irono/base/LogStream.cc:47-108 | a line that leaves 32 bytes free is kept whole |
| LogStreams.Stream | irono/base/LogStream.cc:47-108 | a chain of insertions into the buffer leaves exactly the text that the guards prescribe: never full, a line within the limit whole |
| ConnectorSpec.StepKeepsInv | irono/net/Connector.cc:34-185 | every orderly step keeps socket ownership, channel and back-off invariants, and its asserts hold |
| ConnectorSpec.RunsKeepInv | irono/net/Connector.cc:34-185 | over every orderly run |
| ConnectorSpec.EveryRun | irono/net/Connector.cc:50-185 | every socket is closed or handed over, exactly once; one socket per attempt; the k-th retry since the last restart waits min(500 * 2^k, 30000) ms; attempts, retries and whether a connection is wanted are read off the steps |
| ConnectorSpec.ReportedSocketFate | irono/net/Connector.cc:127-185 | a reported socket is handed over exactly when it is established and still wanted, else closed; a retry is pending exactly when it failed and is still wanted |
| ConnectorSpec.AttemptFate | irono/net/Connector.cc:50-87 | an attempt under way holds its socket; any other closes it, and only a hopeless one leaves no retry pending |
| ConnectorSpec.RestartFate | irono/net/Connector.cc:89-95 | the same after a restart, whose back-off starts over at 500 ms |
| ConnectorSpec.DelayGrows | irono/net/Connector.cc:177-179 | doubling with a cap is the closed form |
| ConnectorSpec.Capped | irono/net/Connector.h:34-35 | the delays are 500, 1000, 2000, 4000, 8000, 16000 and then 30000 ms |
| ConnectorSpec.StepKeepsBackoff | irono/net/Connector.cc:168-185 | every step, orderly or not, keeps the back-off law |
| ConnectorSpec.StartAsserts | irono/net/Connector.cc:39-48 | exactly when start, restart and a firing retry fail an assert at once |
| ConnectorSpec.FailsIffDisorderly | irono/net/Connector.cc:34-185 | for every call and event at any point: it fails an assert, at once or in some orderly continuation, if and only if it is a start unless disconnected, a restart while connecting, either of them with a retry pending unless the attempt is hopeless, or any attempt that gets under way before the old channel is cleared |
| ConnectorSpec.SafeWhateverTheOutcome | irono/net/Connector.cc:34-185 | a start, a restart or a firing retry is safe for every outcome of connect if and only if a condition on the state holds: disconnected (for a restart, not connecting), no retry pending, no channel being cleared; for a firing retry the last alone |
| ConnectorSpec.StopMissesOlderTimer | irono/net/Connector.cc:97-100 | after two retryable starts, stop cancels only the newer timer |
| ConnectorSpec.StoppedStaysStopped | irono/net/Connector.cc:97-100 | after stop nothing is created or handed over until the owner starts again |
| ConnectorSpec.DestructorAsserts | irono/net/Connector.cc:28-32 | exactly when the destructor meets its own |
| ConnectorSpec.RestartInsideCallbackFails | irono/net/Connector.cc:102-120 | a run from the start: a restart before resetChannel fails `assert(!channel_)` |
| ConnectorSpec.StartWhilePendingFails | irono/net/Connector.cc:34-48 | a run from the start: a start while a retry is pending makes the retry fail its assert |
| Connectors.Connector.BeginConnecting | irono/net/Connector.cc:102-112 | a new channel for the descriptor is registered with the poller for writing, and no open descriptor is left without an owner |
| Connectors.Connector.RemoveAndResetChannel | irono/net/Connector.cc:114-121 | the poller forgets the channel; the descriptor stays open and is the only one still to be disposed of |
| Connectors.Connector.Close | irono/net/Connector.cc:168-170 | closes an open descriptor that no channel watches, and accounts for its socket; a closed or handed-over one is never closed |
| Connectors.Connector.FreeDescriptor | irono/net/Connector.cc:50-51 | the kernel may reuse any descriptor that is not open: the lowest one |
| Connectors.Perform | irono/net/Connector.cc:34-185 | any orderly step of the object, with poller, timers and reused descriptors, is the step of the specification |
| Connectors.RunConnector | irono/net/Connector.cc:34-185 | any orderly run of the object is the run of the specification, no assert fails, and with no attempt under way every open descriptor was handed over |

## Left out

- System calls, errno values, addresses, signals and file writing: their answers are parameters of the steps. Timestamps are integers, an interval is an integer delta and a repeat flag.
- Buffer::shrink: it replaces the storage without moving the indexes, so it keeps contents only when the reader is at the start.
- Cross-thread send, and shutdownInLoop queued from another thread: their functors bind a raw `this`; the output path is modelled for callers on the loop thread. What a cross-thread shutdown does to the state is in the lifecycle.
- Connections.TcpConnection.SendInLoop: the write-complete callback is not modelled, here and in HandleWrite.
- Lifecycle: functors, parts of handlers and batch swaps are the atomic steps; newConnection is one step, so the window before setCloseCallback is not modelled; names of connections are numbers; a poll result that reaches the close path twice (POLLHUP without POLLIN but with POLLPRI or POLLRDHUP) is excluded; a thread that calls shutdown on another loop's connection holds a pointer to it.
- Lifecycle, EventLoop, ThreadPool and CopyOnWrite are machines over values and not classes, because their state is shared by threads that interleave.
- Callbacks of connections appear in the lifecycle only through what they call: send, shutdown, and keeping or dropping a connection pointer.
- EventLoop: starts with an empty queue; nothing is claimed about work left at quit, or an eventfd counter at its maximum.
- ThreadPool: a pool without threads runs tasks in place and is not modelled; nothing is claimed about tasks left in the queue by stop.
- AsyncLogging: a buffer is its list of lines; nothing is claimed about lines that stop leaves behind, and the wait with timeout is a back-end section that may start at any time.
- TimerQueue: the in-loop functions; cancelling from another thread a timer whose add has not run is not modelled. `now` is positive when the loop reads the timerfd, since a zero time is not a valid one.
- Poller and EPoller: poll with no descriptors, the growing event array of epoll, and the loop-thread asserts.
- TimingWheel: at least one bucket; connection teardown other than the freed object is not modelled.
- Connector: stop and start are steps of the loop thread; what the user does with a descriptor that was handed over, and cancelling the timer in the destructor, are not modelled.
- LogStreams.PutDigits: the loop of convert is a method of its own, and formatting of floating-point numbers is not modelled.
- CountDownLatch, Thread, EventLoopThread, EventLoopThreadPool, LogFile, TcpClient, Acceptor and the example mains: plumbing.
