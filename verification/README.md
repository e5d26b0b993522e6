# edencommon: verified models of its state machines and data structures

edencommon is a utility library. The parts modelled here are those that promise to behave like something
simpler than they are: a socket that sends messages over a byte stream, an event bus that walks a list
without its lock, a vector that pretends to be a map, a memory mapped file that pretends to be a vector.
Each model follows the branches, constants and error paths of the code on POSIX systems, and the theorems
relate it to the simpler thing, for all inputs, all schedules and all failures that the system may report.

Concurrent and re-entrant code is a machine: a state, an action for every stretch of code between two lock,
semaphore or system calls (or between two callbacks), and theorems over every run. Code that changes a
buffer, a list or a vector in place is a class or a method with loops, proved against a function of its
inputs. `dafny verify dfyconfig.toml` checks everything.

| component | modules |
|---|---|
| UnixSocket framing | `SocketWire`, `SocketSender`, `SocketReceiver`, `SocketChannel` |
| UnixSocket life cycle | `SocketLifecycle`, `SocketLifecycleSafety`, `SocketLifecycleTheorems`, `SocketCallbacks`, `SocketObject` |
| FutureUnixSocket | `FutureSocket`, `FutureSocketTheorems`, `FutureSocketEndings`, `FutureSocketObject` |
| TraceBus | `TraceBus`, `TraceBusSafety`, `TraceBusTheorems`, `TraceBusShutdown`, `TraceBusPromise`, `SubscriptionList`, `SubscriptionHandle` |
| PathMap, PathMapMutator | `PathOrder`, `PathMap`, `PathMapBuild`, `PathMapObject`, `PathMapMutator`, `PathMapEditing` |
| MappedDiskVector | `MappedVector`, `MappedVectorRuns`, `MappedVectorMigration` |
| ProcessInfoCache | `ProcessInfoCache`, `ProcessInfoCacheTheorems`, `ProcessInfoProgress` |
| paths | `PathText`, `PathCanonical`, `PathAlgebra` |
| BucketedLog, CoverageSet | `BucketedLog`, `CoverageSet` |
| SubprocessScribeLogger, FileDescriptor, IDGen | `ScribeLogger`, `ScribeShutdown`, `FullWrites`, `IdGen` |
| shared | `Numbering`, `Buffers` |

## Where the code does not do what it, or its documentation, says

The models follow the code. For each of these a lemma gives the exact condition under which the promise does
hold, and where that is not itself an input, a concrete run or input that breaks it. File names are those of
eden/common/utils and eden/common/telemetry.

- `TraceBus.h:251-256` promises that no event published after `unsubscribe()` is seen. It is kept in every
  continuation if and only if, when `unsubscribe()` is called, the subscriber has thrown, or the background
  thread is not in its wait and either nothing was published since its last sweep or the write buffer is full
  (`UnsubscribePromise`, `PromiseBroken`, `LaterEventIsSeen`).
- A `TraceSubscriptionHandle` that holds a subscription and is move-assigned to itself unsubscribes it and
  keeps it, so it is unsubscribed twice by the time nothing is held (`OwnedThroughout`, `UnsubscribedOnce`,
  `UnsubscribedTwice`).
- `UnixSocket.h:229-235` allows a null send callback; a refused send calls through it (`NullCallback`,
  `NullCallbackCrashes`).
- `UnixSocket.cpp:728` asserts that no files were received while the header is incomplete; after a short
  first read this holds exactly for messages without files (`DebugCheckOnShortHeader`, `DebugCheckFails`).
- The debug checks of `closeNow()` on a closed descriptor fail inside `receiveError()` when sends are pending
  (`ClosedChecks`, `ClosedChecksFail`).
- `FutureUnixSocket::receive()` on a socket that an error has closed underneath throws but leaves its entry
  in the queue; the destructor's check fails if and only if no receive timeout has come since
  (`WatchingInRuns`, `DestructorChecksHold`, `DestructorCheckFails`). And `eofReceived()`
  never gets to report the end of the connection (`EndOfFileIsNeverReported`).
- `MappedDiskVector.h:101-102` describes the conversion of the oldest type as C{B{oldA}}; the code builds
  A{B{oldC}}, as its template order suggests (`ChosenIsThrough`). A process that stops while a new file is
  initialized leaves one that `open()` refuses for ever, unless it had not even extended it, or had written
  all of the header that is not zero (`InterruptedInitialization`, `PartialHeader`, `RunFromNothing`).
- `PathFuncs.cpp:181-194` expects several leading `..`; the second one in a row has been dropped by then
  (`RelativeIsResolvedExactly`, `SecondDotDotIsLost`).
- `relativize()` from the root loses a character (`RelativizeUndoesPlus`), and `dirname()` of an absolute path
  with one component is not an absolute path (`DirnameBasename`).
- `BucketedLog::getAll(now)` shows newer samples in place of older times when the clock is past `now`
  (`BucketedLog.GetAll`, `NewerShownAsOlder`).
- `writevFull()` stops without an error at 1024 empty vectors in a row that have bytes behind them
  (`SentIsPrefix`, `BehindIsLost`, `StretchStops`).
- `CoverageSet::add()` breaks `CoverageSet.h:58-61` when an interval begins strictly inside another
  (`CoverageSet.Add`, `OverlapIsKept`), and `covers()` is then right for every query if and only if neighbours
  overlap or touch only where they end together (`CoversIsInclusion`, `OverlapMisleads`).

## Model

| member | source | states |
|---|---|---|
| `SocketWire.HeaderRoundTrip` | eden/common/utils/UnixSocket.cpp:467-486 | The deserialized header equals the serialized one if and only if both sizes fit in 32 bits; otherwise they come back reduced modulo 2^32. |
| `SocketWire.HeaderLayout` | eden/common/utils/UnixSocket.cpp:467-477 | The 16 bytes on the wire, one by one: the protocol id, the body size and the file count, each with its most significant byte first. |
| `SocketSender.AdvanceIovDrops` | eden/common/utils/UnixSocket.cpp:589-604 | Advancing over n sent bytes drops exactly the first n bytes of what the remaining vectors hold. |
| `SocketSender.NewEntryRemaining` | eden/common/utils/UnixSocket.cpp:408-426 | What a new queue entry has to send is the message's whole wire form, whatever its body chunks, empty ones included. |
| `SocketSender.AfterSendCorrect` | eden/common/utils/UnixSocket.cpp:529-674 | A sendmsg that takes n bytes transmits exactly the next n cells (bytes with their descriptor batches of at most 253), strictly less remains, and the entry counts as complete exactly when nothing remains. |
| `SocketSender.RefusalKeeps` | eden/common/utils/UnixSocket.cpp:567-587 | A refused sendmsg, which may already have turned the header vector into the one byte that carries descriptors, leaves the same cells to send, offers the same again, and ends in the same state when repeated. |
| `SocketSender.SendQueueEntry.TrySendMessage` | eden/common/utils/UnixSocket.cpp:529-613 | For every answer of sendmsg(): bytes taken, the loop over the vectors and the descriptor count reach the specified state, and it reports completion exactly when nothing remains; EAGAIN and an error leave the entry as RefusalKeeps describes, the one incomplete and the other thrown. |
| `SocketReceiver.ReassemblyStep` | eden/common/utils/UnixSocket.cpp:725-775 | For every position in a message and every short read that the receiver may make there: the read stays inside the message, meets at most one descriptor group, and brings the receiver to the state that describes the longer part; the message is whole exactly at the end of its wire form. |
| `SocketReceiver.AbortsExactly` | eden/common/utils/UnixSocket.cpp:734-755 | Each reason to abort holds exactly when its condition on the header's numbers, the limits and the descriptors received does, in the order of the checks. |
| `SocketReceiver.HeaderDecides` | eden/common/utils/UnixSocket.cpp:725-755 | Whatever 16 bytes come in place of a header, from any sender and in any pieces: reading them aborts exactly if they name another protocol or a size over the limits. |
| `SocketReceiver.MessageReceiver.ProcessReceivedFiles` | eden/common/utils/UnixSocket.cpp:819-831 | Every descriptor of every group is appended, in order. |
| `SocketReceiver.MessageReceiver.TryReceiveOne` | eden/common/utils/UnixSocket.cpp:725-942 | For every answer of recvmsg(): cells are absorbed as specified (header, limits, body, descriptors, completion and every abort reason); EAGAIN waits; the end of the stream is reported, or aborts inside a message, exactly when the header has begun; an error or a too short control message throws; and none of these changes the partial message. |
| `SocketChannel.DeliveryIsPrefix` | eden/common/utils/UnixSocket.cpp:488-613 | In every schedule of short sends, short receives and refusals the delivered packets are a prefix of the accepted messages, byte for byte and descriptor for descriptor; the messages are those whose sizes fit the header fields. |
| `SocketChannel.AcceptedAreCalls` | eden/common/utils/UnixSocket.cpp:343-378 | The accepted messages are those that send() was called with, in the order of the calls. |
| `SocketChannel.OneGroupPerRead` | eden/common/utils/UnixSocket.cpp:833-868 | No recvmsg ever meets two descriptor groups, so control data is never truncated. |
| `SocketChannel.DrainedMeansDelivered` | eden/common/utils/UnixSocket.cpp:700-775 | When nothing is queued or in flight, every accepted message has been delivered. |
| `SocketChannel.StepsMakeProgress` | eden/common/utils/UnixSocket.cpp:488-527 | Each send that the kernel does not refuse strictly shrinks what is left to send, and each read the channel. |
| `SocketChannel.NeverStuck` | eden/common/utils/UnixSocket.cpp:488-527 | While a message is on its way, a send or a receive is possible. |
| `SocketChannel.AbortAndEof` | eden/common/utils/UnixSocket.cpp:734-755 | The receiver aborts only when the next message exceeds its limits or the sender went away inside it; a clean end of file comes after everything the kernel took was delivered. |
| `SocketChannel.ClosedStreamEnds` | eden/common/utils/UnixSocket.cpp:870-893 | Once the sender is gone nothing more comes, and the receiver reads on or reports the end until it does. |
| `SocketChannel.DebugCheckOnShortHeader` | eden/common/utils/UnixSocket.cpp:726-732 | On a later read of a header the debug check for no received files holds exactly when the message has no files. |
| `SocketChannel.DebugCheckFails` | eden/common/utils/UnixSocket.cpp:726-732 | A concrete schedule on which that check fails. |
| `SocketLifecycleSafety.StepKeeps` | eden/common/utils/UnixSocket.cpp:214-272 | Whatever callbacks do, every step keeps: nothing but failing happens above failAllSends(); a closed descriptor has nothing registered; pending sends are awaited, in a loop, or being failed. |
| `SocketLifecycleTheorems.EndRunsCallback` | eden/common/utils/UnixSocket.cpp:503-510 | When a send ends, its callback runs next if and only if it has one, and hears of that send and that outcome. |
| `SocketLifecycleTheorems.EachSendEndsOnce` | eden/common/utils/UnixSocket.cpp:343-394 | In every re-entrant run each send has ended exactly once or is queued, never both; accepted sends end in the order of acceptance, and none succeeds after one has failed. |
| `SocketLifecycleTheorems.AtRest` | eden/common/utils/UnixSocket.cpp:240-272 | Outside callbacks a closed socket has no queue, no receive callback, no registration and no timer; in every socket sends are pending exactly when writability and the timer are awaited, and one that is closing has sends pending. |
| `SocketLifecycleTheorems.FailingTerminates` | eden/common/utils/UnixSocket.cpp:1010-1021 | After closing has started nothing enters the queue: what has ended since and what is still queued add up to what was queued, so failAllSends() ends. |
| `SocketLifecycleTheorems.NeverStuck` | eden/common/utils/UnixSocket.cpp:488-527 | Whatever activation is on top of the stack can go on. |
| `SocketLifecycleTheorems.NullCallback` | eden/common/utils/UnixSocket.cpp:343-367 | The process crashes exactly when a send without callback is refused. |
| `SocketLifecycleTheorems.NullCallbackCrashes` | eden/common/utils/UnixSocket.cpp:343-349 | A concrete run: an idle socket is closed, and then a send without callback crashes. |
| `SocketLifecycleTheorems.ClosedChecks` | eden/common/utils/UnixSocket.cpp:241-249 | The debug checks made on a closed descriptor hold exactly when no send is pending, and they fail only while socketError() is at work, in receiveError() or failing the sends. |
| `SocketLifecycleTheorems.ClosedChecksFail` | eden/common/utils/UnixSocket.cpp:995-1007 | A concrete run in which closeNow() is called from receiveError() and its checks fail. |
| `SocketObject.UnixSocket.UpdateIORegistration` | eden/common/utils/UnixSocket.cpp:944-977 | What the event loop has been told is always what registeredIOEvents_ remembers. |
| `SocketObject.UnixSocket.CloseNow` | eden/common/utils/UnixSocket.cpp:240-272 | An open socket ends unregistered, without timer or receive callback; what it has still to do is to fail the sends and close, below socketClosed() exactly if a receive callback was installed. A closed socket does not change. |
| `SocketObject.UnixSocket.SocketError` | eden/common/utils/UnixSocket.cpp:979-1008 | The same for an error, but the descriptor is closed before any callback, and the receive callback hears receiveError(). |
| `SocketObject.UnixSocket.Close` | eden/common/utils/UnixSocket.cpp:214-238 | The queue is never touched: with pending sends only receiving stops, below socketClosed() exactly if a receive callback was installed, and without them the socket closes. |
| `SocketObject.UnixSocket.Send` | eden/common/utils/UnixSocket.cpp:343-394 | The same for send(): refused, queued, or tried at once. |
| `SocketObject.UnixSocket.SetReceiveCallback` | eden/common/utils/UnixSocket.cpp:676-688 | It throws exactly when a callback is installed or closing has started, and otherwise installs and registers. |
| `SocketObject.UnixSocket.FinishTrySend` | eden/common/utils/UnixSocket.cpp:513-526 | On an open socket writability and timeout are awaited exactly while sends are pending; a closing one with an empty queue closes. |
| `SocketObject.UnixSocket.FailAllSends` | eden/common/utils/UnixSocket.cpp:1010-1021 | The loop fails every queued send, in order, runs the callback of exactly those that have one, and empties the queue; the callbacks return without calling in, as FailingTerminates covers those that do. |
| `SocketCallbacks.StepTells` | eden/common/utils/UnixSocket.cpp:214-272 | What each step does to closing and to the receive callback: closing starts exactly at close(), closeNow() and errors, errors close the descriptor, the callback is installed and removed exactly by set, clear and the start of closing, hears each message and end of file once, and hears socketClosed() or receiveError() exactly when closing or an error removes it. |
| `SocketCallbacks.EachReceiverIsTold` | eden/common/utils/UnixSocket.cpp:676-698 | Over every re-entrant run: each receive callback ever installed is still installed, was cleared, or was told of the end once, exactly one of these; and none is installed once closing has started. |
| `SocketCallbacks.SendIsQueued` | eden/common/utils/UnixSocket.cpp:343-378 | send() is refused exactly when closing has started or the entry cannot be allocated; otherwise it is queued behind the others. |
| `SocketCallbacks.SendsAreCalls` | eden/common/utils/UnixSocket.cpp:343-378 | Send number k is the k-th call of send(), with the callback that it was given. |
| `SocketCallbacks.ReadyMeansTried` | eden/common/utils/UnixSocket.cpp:1023-1040 | After the event loop's call the next thing tried is a receive if the socket is readable, and a send if it is only writable. |
| `SocketCallbacks.WritableMeansTried` | eden/common/utils/UnixSocket.cpp:1023-1040 | And if it is both, the handler cannot end before a send was tried, unless nothing is left to send or the socket breaks. |
| `SocketCallbacks.EachTurnCounts` | eden/common/utils/UnixSocket.cpp:488-511 | Each turn of the send or receive loop raises its count, which never passes ten, and a turn that would block is the last. |
| `FutureSocketTheorems.FulfilledOnce` | eden/common/utils/FutureUnixSocket.cpp:177-271 | In every re-entrant run each receive() has been fulfilled exactly once, or is queued, or is about to be failed: exactly one of these. |
| `FutureSocketTheorems.KthGetsKth` | eden/common/utils/FutureUnixSocket.cpp:217-235 | The k-th receive that succeeds is the k-th accepted one and gets the k-th delivered message. |
| `FutureSocketTheorems.EndOfFileIsNeverReported` | eden/common/utils/FutureUnixSocket.cpp:237-247 | No future ever fails with the end-of-connection error: socketClosed() has emptied the queue before. |
| `FutureSocketTheorems.WatchingExactly` | eden/common/utils/FutureUnixSocket.cpp:188-215 | The callback is installed exactly while receives are pending, or the destructor is between failing the sends and failing the receives. A step keeps this unless it is a receive() on a socket closed underneath; after that exactly a timeout restores it. |
| `FutureSocketTheorems.WatchingInRuns` | eden/common/utils/FutureUnixSocket.cpp:188-215 | In every run the callback is installed exactly while receives are pending, or the destructor is between failing the sends and failing the receives, if and only if no receive() has thrown since the last receive timeout. |
| `FutureSocketTheorems.DestructorChecksHold` | eden/common/utils/FutureUnixSocket.cpp:127-134 | The destructor never finds the callback installed, and finds its queue empty if and only if no receive() has thrown since the last receive timeout. |
| `FutureSocketTheorems.DestructorCheckFails` | eden/common/utils/FutureUnixSocket.cpp:127-134 | A concrete run in which the destructor's check fails. |
| `FutureSocketEndings.EndingFailsPending` | eden/common/utils/FutureUnixSocket.cpp:202-253 | closeNow(), the end of the connection, a receive timeout and an error let go of the socket; every receive that was pending with the callback installed has left the queue and is about to fail with the error that names the event, and so has, at a timeout, every other. |
| `FutureSocketEndings.SendsFailToo` | eden/common/utils/FutureUnixSocket.cpp:162-164 | Whenever the socket is let go of or breaks its sends are failed, after the receives that the callback fails; for the destructor, before them. |
| `FutureSocketEndings.DestroyEnds` | eden/common/utils/FutureUnixSocket.cpp:127-134 | The destructor leaves no open socket and has its sends, its pending receives and its checks still to do, in this order. |
| `FutureSocketEndings.ErrorTellsEvent` | eden/common/utils/FutureUnixSocket.cpp:202-271 | In every run the error of a failed receive names what failed it: there was no socket at its receive(), or while it was pending the socket was closed, its connection ended, it broke, a timeout expired, or it was destroyed. |
| `FutureSocketEndings.OnlyTheDestructor` | eden/common/utils/FutureUnixSocket.cpp:127-134 | The failing of receives after the sends is the destructor's. |
| `FutureSocketEndings.EachIsCounted` | eden/common/utils/FutureUnixSocket.cpp:177-235 | Every receive() is numbered and every message delivered; by KthGetsKth each message goes to a receive. |
| `FutureSocketEndings.ClosedMeansFulfilled` | eden/common/utils/FutureUnixSocket.cpp:255-271 | Outside every callback, once the socket is gone or broken, every receive() ever made has been fulfilled, once, unless one has thrown since the last receive timeout. |
| `FutureSocketEndings.CallbacksMayCallIn` | eden/common/utils/FutureUnixSocket.cpp:217-235 | Whoever hears of a message, an error or a failed send may call receive() and closeNow() at once. |
| `FutureSocketObject.FutureUnixSocket.Receive` | eden/common/utils/FutureUnixSocket.cpp:177-200 | The linked queue with its tail pointer gets the new receive at its end, and the rest of the state changes as in the machine; it throws exactly on a socket closed underneath with nothing pending. |
| `FutureSocketObject.FutureUnixSocket.MessageReceived` | eden/common/utils/FutureUnixSocket.cpp:217-235 | The first pending receive gets the message, and the callback is removed with the last one. |
| `FutureSocketObject.FutureUnixSocket.FailReceiveQueue` | eden/common/utils/FutureUnixSocket.cpp:263-271 | Every future of the list is failed, in order, each once. |
| `FutureSocketObject.FutureUnixSocket.FailAllPromises` | eden/common/utils/FutureUnixSocket.cpp:255-261 | The queue is emptied and all its futures are failed. |
| `FutureSocketObject.FutureUnixSocket.CloseNow` | eden/common/utils/FutureUnixSocket.cpp:162-164 | The socket is gone; with the callback installed all that was pending has failed with the local close, in order, and otherwise nothing changes in the queue. |
| `FutureSocketObject.FutureUnixSocket.EofReceived` | eden/common/utils/FutureUnixSocket.cpp:237-241 | The socket is gone and all that was pending has failed with the local close. |
| `FutureSocketObject.FutureUnixSocket.ReceiveError` | eden/common/utils/FutureUnixSocket.cpp:249-253 | The socket is gone and all that was pending has failed with the socket's error. |
| `FutureSocketObject.FutureUnixSocket.ReceiveTimeout` | eden/common/utils/FutureUnixSocket.cpp:202-215 | The socket is gone and all that was pending, callback installed or not, has failed with the timeout. |
| `FutureSocketObject.FailLoopIsFailed` | eden/common/utils/FutureUnixSocket.cpp:263-271 | The machine's failing steps, without user code between them, do what the loop over the list does. |
| `TraceBusSafety.StepKeeps` | eden/common/telemetry/TraceBus-inl.h:63-111 | Every atomic step of publishers, subscribers, background thread and destructor keeps the buffers, the list, what each subscription has seen, reclamation and pending notifications consistent. |
| `TraceBusTheorems.DeliveredInOrder` | eden/common/telemetry/TraceBus-inl.h:137-224 | In every interleaving a subscription has seen a contiguous stretch of the published events, in order and once each, from no later than its subscribe(): all of it up to its unsubscribe() when it is freed, and everything when the thread has exited. |
| `TraceBusTheorems.SilentAfterThrow` | eden/common/telemetry/TraceBus-inl.h:204-219 | What a subscription has seen only grows, and one that has thrown sees nothing more. |
| `TraceBusTheorems.WakeupsPending` | eden/common/telemetry/TraceBus-inl.h:66-85 | A publisher that waits although there is room, or the background thread that waits although there is work or the end, has a notification on its way. |
| `TraceBusTheorems.NoDeadlock` | eden/common/telemetry/TraceBus-inl.h:187-202 | Publishers and background thread never all wait for each other. |
| `TraceBusTheorems.WalkIsSafe` | eden/common/telemetry/TraceBus-inl.h:155-177 | The walk without the lock visits only linked subscriptions; only the sweep unlinks, only finished ones, and nothing is linked again. |
| `TraceBusTheorems.KeptInOrder` | eden/common/telemetry/TraceBus-inl.h:155-177 | The sweep keeps the other subscriptions in their order. |
| `TraceBusTheorems.AtMostTwoBatches` | eden/common/telemetry/TraceBus-inl.h:181-196 | After unsubscribe() at most two more batches are swapped out before the subscription is unlinked. |
| `TraceBusTheorems.FlagFollowsList` | eden/common/telemetry/TraceBus-inl.h:181-185 | hasSubscription() is true while anything is linked, and right after each sweep only then. |
| `TraceBusTheorems.LaterEventIsSeen` | eden/common/telemetry/TraceBus-inl.h:156-196 | A concrete run in which an event published after unsubscribe() is seen. |
| `TraceBusShutdown.DestructorFinishes` | eden/common/telemetry/TraceBus-inl.h:47-50 | Once the destructor has started, done stays set and nothing more is published; at most StepsLeft more steps are taken, spurious wake-ups included; nothing more can happen exactly when the thread has exited and was notified; and then every linked subscription that has not thrown has seen everything from its start. |
| `TraceBusShutdown.ThreadExits` | eden/common/telemetry/TraceBus-inl.h:47-50 | A concrete run with one event and one subscriber in which the thread exits. |
| `TraceBusShutdown.EachEventIsPublished` | eden/common/telemetry/TraceBus-inl.h:63-86 | In every interleaving, what each thread has called publish() with is, in the order of its calls, what its steps have added to the published events and then what still waits for room; and nothing is added outside publish(). |
| `TraceBusPromise.UnsubscribePromise` | eden/common/telemetry/TraceBus.h:251-257 | If PromiseKept holds when unsubscribe() is called, no later event is ever seen. |
| `TraceBusPromise.PromiseBroken` | eden/common/telemetry/TraceBus-inl.h:156-196 | If it does not hold, some continuation delivers a later event: the condition is exact. |
| `SubscriptionList.List.Insert` | eden/common/telemetry/TraceBus-inl.h:93-96 | A new subscription becomes the head; no existing link changes. |
| `SubscriptionList.List.Unlink` | eden/common/telemetry/TraceBus-inl.h:161-165 | Unlinking through the pointer to the link removes exactly that node. |
| `SubscriptionList.List.Sweep` | eden/common/telemetry/TraceBus-inl.h:155-177 | The pointer-to-pointer loop leaves exactly the subscriptions that are not finished, in order. |
| `SubscriptionHandle.OwnershipKept` | eden/common/telemetry/TraceBus.h:90-137 | Over constructions, moves, resets and destructions each subscription is held by one handle or was unsubscribed once; a step breaks this if and only if it move-assigns a holding handle to itself. |
| `SubscriptionHandle.HoldersAfter` | eden/common/telemetry/TraceBus.h:90-137 | Who holds what after each operation, and that what a reset, a drop or an assignment lets go of is unsubscribed then and there. |
| `SubscriptionHandle.OwnedThroughout` | eden/common/telemetry/TraceBus.h:90-137 | In a run from no handles at all, every subscription is at every moment held by one handle or unsubscribed once if and only if no holding handle is move-assigned to itself; and then none is unsubscribed twice. |
| `SubscriptionHandle.UnsubscribedOnce` | eden/common/telemetry/TraceBus.h:90-137 | In any run at whose end no handle holds anything, no subscription has been unsubscribed twice if and only if no holding handle was move-assigned to itself. |
| `SubscriptionHandle.UnsubscribedTwice` | eden/common/telemetry/TraceBus.h:102-107 | A concrete run in which a self move leads to a second unsubscribe(). |
| `SubscriptionHandle.Handle.Assign` | eden/common/telemetry/TraceBus.h:102-107 | For any two handles, empty, of one bus or of two: what was held is unsubscribed at its own bus, the other's subscription and bus are taken over; a self move keeps both. |
| `PathOrder.EqualIffIncomparable` | eden/common/utils/PathFuncs.h:257-270 | Two names are equal, with or without case, exactly when neither is less than the other. |
| `PathOrder.StrictWeakOrder` | eden/common/utils/PathFuncs.h:322-370 | The order is transitive and equal names are interchangeable in it. |
| `PathOrder.LessAtFirstDifference` | eden/common/utils/PathFuncs.h:257-270 | A name is less than another exactly when it is a proper first part of it or has the smaller byte where they first differ: unsigned, or without case lowered and signed. |
| `PathOrder.EqualIsFold` | eden/common/utils/PathFuncs.h:392-440 | isPathPieceEqual(), which decides from bits, is equality of folded names. |
| `PathMap.SearchFinds` | eden/common/utils/PathMap.h:216-246 | Binary search finds the entry with an equal name if there is one, and otherwise the only place to insert it. |
| `PathMap.InsertedIs` | eden/common/utils/PathMap.h:252-283 | insert() keeps the vector strictly sorted and adds the entry unless its name is present. |
| `PathMap.RemovedIs` | eden/common/utils/PathMap.h:332-339 | erase() keeps the vector strictly sorted and removes exactly that name. |
| `PathMap.Canonical` | eden/common/utils/PathMap.h:25-35 | Two sorted vectors with the same contents are the same vector. |
| `PathMapBuild.SortUniqueIsInsertAll` | eden/common/utils/PathMap.h:156-168 | For whatever stable sort, sorting and then dropping neighbours with equal names gives what inserting one by one gives. |
| `PathMapBuild.InsertAllHoldsFirst` | eden/common/utils/PathMap.h:119-133 | Inserting one by one keeps for each name the entry that comes first. |
| `PathMapBuild.StableSortWorks` | eden/common/utils/PathMap.h:160 | A stable sort exists: inserting each entry before those that are not less. |
| `PathMapBuild.Build` | eden/common/utils/PathMap.h:137-169 | The vector constructor, fast path or slow, equals inserting the entries one by one. |
| `PathMapObject.Map.Find` | eden/common/utils/PathMap.h:227-246 | find() agrees with the plain map. |
| `PathMapObject.Map.Emplace` | eden/common/utils/PathMap.h:252-283 | The vector is edited in place as the plain map is, and the returned position and flag are right. |
| `PathMapObject.Map.Erase` | eden/common/utils/PathMap.h:332-339 | The entry is removed and counted. |
| `PathMapObject.Collate` | eden/common/utils/PathMap.h:390-428 | For maps of one case sensitivity the result is the sorted key-wise full outer join; for two it still has exactly the names of both, sorted without case. |
| `PathMapMutator.FindImplFinds` | eden/common/utils/PathMapMutator.h:195-209 | The search of prefix and suffix finds the slot of a name if there is one, erased or not, and the plain map has the name exactly when the slot is live. |
| `PathMapMutator.CompactKeeps` | eden/common/utils/PathMapMutator.h:212-235 | Dropping marked entries and merging gives one strictly sorted vector with the same contents. |
| `PathMapMutator.Refill` | eden/common/utils/PathMapMutator.h:105-115 | Reviving or overwriting a slot changes exactly that name, spelled anew or not. |
| `PathMapEditing.Mutator.Compact` | eden/common/utils/PathMapMutator.h:212-235 | The one-pass loop with its count of erased prefix entries finds the border between the two parts. |
| `PathMapEditing.Mutator.Find` | eden/common/utils/PathMapMutator.h:71-79 | find() agrees with the plain map, erased slots included. |
| `PathMapEditing.Mutator.EraseAt` | eden/common/utils/PathMapMutator.h:89-91 | erase(iterator) removes the name of that slot from the plain map, and nothing if it was erased already. |
| `PathMapEditing.Mutator.Erase` | eden/common/utils/PathMapMutator.h:93-100 | erase() removes the name from the plain map and returns whether it was there. |
| `PathMapEditing.Mutator.Emplace` | eden/common/utils/PathMapMutator.h:103-131 | emplace() inserts unless present; flag and iterator are those of the plain map. |
| `PathMapEditing.Mutator.InsertOrAssign` | eden/common/utils/PathMapMutator.h:143-169 | insert_or_assign() overwrites the value under the stored name, or inserts. |
| `PathMapEditing.Mutator.Finalize` | eden/common/utils/PathMapMutator.h:171-174 | finalize() returns a strictly sorted vector with exactly the contents. |
| `PathMapEditing.MutatorRefinesMap` | eden/common/utils/PathMapMutator.h:71-174 | Any run of edits on any PathMap, in any order of names, is answered as a plain map would answer it, and finalize() returns the one sorted vector with its contents. |
| `MappedVector.DecideMeansDecodable` | eden/common/utils/MappedDiskVector.h:148-234 | open() uses a file exactly when it decodes as the current type, and migrates it exactly when it decodes as an old one, given distinct versions. |
| `MappedVector.RefusedBecause` | eden/common/utils/MappedDiskVector.h:148-234 | Each error of open(), exactly: too short for a header, no good header, a VERSION twice, another record size under the current VERSION or under the first old one that matches, or an unknown VERSION. |
| `MappedVector.RoundUpToNonzeroPageSize` | eden/common/utils/MappedDiskVector.h:39-43 | The least nonzero multiple of the page size that is large enough, also for zero. |
| `MappedVectorRuns.EmplaceBackIs` | eden/common/utils/MappedDiskVector.h:313-372 | emplace_back() appends, or fails and leaves the contents unchanged; it fails exactly when the constructor or populating the slot does, or when it has to grow and extending, remapping or populating fails. The result is consistent either way. |
| `MappedVectorRuns.PopBackIs` | eden/common/utils/MappedDiskVector.h:374-380 | pop_back() removes the last record. |
| `MappedVectorRuns.MappedIs` | eden/common/utils/MappedDiskVector.h:502-562 | A file that decodes is opened with the same contents, and the final check that the records lie in the mapping holds; opening fails exactly when mapping, populating, or extending to whole pages does. |
| `MappedVectorRuns.FreshIsEmpty` | eden/common/utils/MappedDiskVector.h:475-500 | An empty file becomes an empty vector. |
| `MappedVectorRuns.PartialHeader` | eden/common/utils/MappedDiskVector.h:484-497 | The file left by a header write that stopped after n bytes: a complete empty vector if nothing but zeros is missing (14 bytes, or 13 for records of less than 256 bytes), and otherwise one that open() refuses. |
| `MappedVectorRuns.InterruptedInitialization` | eden/common/utils/MappedDiskVector.h:475-500 | What open() answers to a file left by a process that stopped before writing any of the header, for every length it may have reached. |
| `MappedVectorRuns.RunIsList` | eden/common/utils/MappedDiskVector.h:313-380 | From any file that decodes, through any run of appends, removals and reopenings, each failing or stopped at any of its points, the file decodes to the list that the successful operations describe. |
| `MappedVectorRuns.RunFromNothing` | eden/common/utils/MappedDiskVector.h:475-500 | In a run that starts with no file, the first attempt that changes it decides: if the header, or all of it that is not zero, is written, the file decodes from then on to the list of what succeeded; otherwise every later open() refuses it. |
| `MappedVectorRuns.ZerosStay` | eden/common/utils/MappedDiskVector.h:148-184 | A nonempty file of zeros is refused by every later open() and never changes. |
| `MappedVectorRuns.MappedDiskVector.Emplace` | eden/common/utils/MappedDiskVector.h:313-372 | The method's branches reach the specified state at every failure point. |
| `MappedVectorRuns.MappedDiskVector.Pop` | eden/common/utils/MappedDiskVector.h:374-380 | The last record is dropped from view and count. |
| `MappedVectorMigration.ChosenIsThrough` | eden/common/utils/MappedDiskVector.h:614-677 | The conversion that the template recursion builds for old type k is the chain of constructors of all the types since. |
| `MappedVectorMigration.Migrate` | eden/common/utils/MappedDiskVector.h:642-667 | At every step before the rename the path holds the complete old vector, also when migration fails; after it, every record converted, in order. It succeeds if and only if the old file opens, the new one is created and opens, every conversion and append gets through and the rename does; and once begun it leaves no temporary file. |
| `MappedVectorMigration.NextOpen` | eden/common/utils/MappedDiskVector.h:186-222 | Whichever of the two the path holds, the next open() migrates the one and uses the other. |
| `ProcessInfoCache.StepKeeps` | eden/common/utils/ProcessInfoCache.cpp:300-394 | Every step keeps promises in order, the semaphore covering the queues, answers complete and the water level accounted for. |
| `ProcessInfoCacheTheorems.NothingStranded` | eden/common/utils/ProcessInfoCache.cpp:169-190 | While the worker waits with something queued it can wake or a caller has still to post; otherwise every promise has been fulfilled and every question answered. |
| `ProcessInfoCacheTheorems.FulfilledOnceInOrder` | eden/common/utils/ProcessInfoCache.cpp:357-359 | Each promise is fulfilled exactly once, in the order of the lookups, even if its node expires first. |
| `ProcessInfoCacheTheorems.OneNodePerPid` | eden/common/utils/Synchronized.h:24-46 | A lookup is queued only for a pid without cached node, checked again under the writer lock; the cached node of a pid is its newest. |
| `ProcessInfoCacheTheorems.OnlyExpiredLeave` | eden/common/utils/ProcessInfoCache.cpp:283-298 | A node leaves the cache only at a prune or an answer, and only when the worker's `now` is at least its time stamp plus the expiry time. |
| `ProcessInfoCacheTheorems.ExpiredDoLeave` | eden/common/utils/ProcessInfoCache.cpp:363-393 | And after every prune and every answer each node that is still cached has a time stamp plus expiry time later than that `now`. |
| `ProcessInfoCacheTheorems.StampIsLatest` | eden/common/utils/ProcessInfoCache.cpp:169-258 | The time stamp of a node is the `now` of the latest access to it, by add(), a handle or its creation; it may be older than the one before. |
| `ProcessInfoCacheTheorems.GetAllSeesEarlierLookups` | eden/common/utils/ProcessInfoCache.cpp:348-393 | Each answer holds every cached pid looked up before the question whose reading did not fail, and only cached ones that were read without failure. |
| `ProcessInfoCacheTheorems.ShutdownCheckHolds` | eden/common/utils/ProcessInfoCache.cpp:325-331 | Assuming, as the destructor of any object does, that no caller is inside when it starts: no getAllProcessInfos() is pending when the worker stops, whatever it was doing meanwhile. |
| `ProcessInfoCacheTheorems.PrunesInTime` | eden/common/utils/ProcessInfoCache.cpp:363-372 | Between batches the lookups processed since the last prune are no more than the names it left, and the name counts at prunes add up to less than twice the lookups processed. |
| `ProcessInfoCacheTheorems.ClearExpired` | eden/common/utils/ProcessInfoCache.cpp:283-298 | The erasing loop leaves each node with stamp plus expiry later than now, as it was, and erases each other one. |
| `ProcessInfoProgress.EveryCallIsServed` | eden/common/utils/ProcessInfoCache.cpp:300-394 | Without new calls the worker comes to rest after at most WorkLeft steps, and then every promise made is fulfilled and every question answered, unless the destructor has started. |
| `ProcessInfoProgress.DestructorFinishes` | eden/common/utils/ProcessInfoCache.cpp:163-167 | After the destructor's request the worker takes at most WorkLeft more steps and can only come to rest by returning. |
| `ProcessInfoProgress.LookupHasNode` | eden/common/utils/ProcessInfoCache.cpp:169-190 | lookup() and the update of add() end with a cached node of that pid: the one cached before, or else a new one. |
| `ProcessInfoProgress.EachQuestionIsAsked` | eden/common/utils/ProcessInfoCache.cpp:260-268 | Every getAllProcessInfos() is queued as a question, with the number of lookups before it. |
| `ProcessInfoProgress.FailedToRead` | eden/common/utils/ProcessInfoCache.cpp:357-359 | A promise holds an exception exactly if its reading failed. |
| `ProcessInfoProgress.BatchTakesItsCounts` | eden/common/utils/ProcessInfoCache.cpp:340-346 | For a batch of n requests the worker consumes n semaphore counts, or all that were posted. |
| `PathText.SplitJoined` | eden/common/utils/PathFuncs.h:1463-1470 | Joining components and splitting again gives them back. |
| `PathCanonical.UpsMeansAbove` | eden/common/utils/PathFuncs.cpp:72-128 | The walk has risen n levels above its start exactly when some first part of it has n more `..` than names. |
| `PathCanonical.CanonicalPathData` | eden/common/utils/PathFuncs.cpp:72-128 | The one-pass loop finds the names of the step-by-step walk, with one `..` in front if a relative path rose above its start. |
| `PathCanonical.CanonicalPath` | eden/common/utils/PathFuncs.cpp:130-197 | The loop over the components and the base computes the specified names. |
| `PathCanonical.AbsoluteIsResolved` | eden/common/utils/PathFuncs.cpp:161-164 | An absolute path is canonicalized to its resolution one step at a time, staying at the root. |
| `PathCanonical.RelativeIsResolvedExactly` | eden/common/utils/PathFuncs.cpp:181-194 | A relative path is canonicalized to its resolution at the base if and only if it rises at most one level above its start or the base is at most one level deep. |
| `PathCanonical.SecondDotDotIsLost` | eden/common/utils/PathFuncs.cpp:97-105 | A concrete path for which the two differ. |
| `PathCanonical.CanonicalIsIdempotent` | eden/common/utils/PathFuncs.cpp:200-208 | The result consists of names, and canonicalizing it again changes nothing. |
| `PathCanonical.JoinAndNormalize` | eden/common/utils/PathFuncs.cpp:210-227 | EPERM exactly for a leading slash; EXDEV exactly when resolving base then path ever goes above the start; otherwise that resolution. |
| `PathAlgebra.PathComponentSanityCheck` | eden/common/utils/PathFuncs.h:706-744 | It passes exactly the valid components: no separator, no NUL, not empty, `.` or `..`, and valid UTF-8 by the given test. |
| `PathAlgebra.ComposedPathSanityCheck` | eden/common/utils/PathFuncs.h:1231-1268 | It passes exactly when every stretch between slashes is a valid component. |
| `PathAlgebra.RelativePathSanityCheck` | eden/common/utils/PathFuncs.h:1271-1289 | It accepts exactly the texts of lists of valid components. |
| `PathAlgebra.AbsolutePlusIs` | eden/common/utils/PathFuncs.h:1737-1758 | operator+ of an absolute and a relative path concatenates the lists of names. |
| `PathAlgebra.RelativePlusIs` | eden/common/utils/PathFuncs.h:2041-2057 | operator+ of two relative paths concatenates the lists of names. |
| `PathAlgebra.SubDirIsProperPrefix` | eden/common/utils/PathFuncs.h:1435-1452 | isSubDirOf() holds exactly when the other's names are a proper prefix, and findParent() stands right behind them. |
| `PathAlgebra.PathIterator.Advance` | eden/common/utils/PathFuncs.h:908-927 | Advancing moves from one prefix of the path to the next, and to the end after the last. |
| `PathAlgebra.Relativize` | eden/common/utils/PathFuncs.h:1687-1715 | The loop over two iterators succeeds as specified on the names. |
| `PathAlgebra.RelativizeUndoesPlus` | eden/common/utils/PathFuncs.h:2068-2078 | relativize() succeeds exactly when the base is a prefix, and a.relativize(a + r) is r if and only if a is not the root or r is empty. |
| `PathAlgebra.Components` | eden/common/utils/PathFuncs.h:981-1113 | Iterating forwards yields the names of the path. |
| `PathAlgebra.ReverseComponents` | eden/common/utils/PathFuncs.h:1116-1128 | Iterating backwards yields them in reverse. |
| `PathAlgebra.DirnameBasename` | eden/common/utils/PathFuncs.cpp:29-45 | dirname() and basename() take a path apart at its last name; of an absolute path dirname() is the parent exactly when it has two names or more. |
| `PathAlgebra.SplitFirstIs` | eden/common/utils/PathFuncs.cpp:273-286 | splitFirst() takes a path apart behind its first name. |
| `BucketedLog.WindowHoldsSamples` | eden/common/utils/BucketedLog.h:36-82 | After any run of add, getAll, merge (of any other run's log, or of itself) and clear, the window is the last Size times up to the newest named, and holds for each exactly the samples added or merged at it since the last clear, in order. |
| `BucketedLog.MovedIs` | eden/common/utils/BucketedLog.h:94-109 | Clearing the slots that the window leaves is dropping the buckets before the new window. |
| `BucketedLog.BucketedLog.AdvanceWindow` | eden/common/utils/BucketedLog.h:94-109 | The clearing loop moves the ring's window. |
| `BucketedLog.BucketedLog.Add` | eden/common/utils/BucketedLog.h:44-51 | The sample is added at its time in the time-indexed map, or ignored when older than the window. |
| `BucketedLog.BucketedLog.GetAll` | eden/common/utils/BucketedLog.h:58-68 | The result is the buckets of the last Size times up to now if and only if no sample in the window is newer. |
| `BucketedLog.ListingExact` | eden/common/utils/BucketedLog.h:58-68 | The same about the slots: they list the last times if and only if nothing is newer. |
| `BucketedLog.NewerShownAsOlder` | eden/common/utils/BucketedLog.h:58-68 | A concrete log for which getAll(now) is not the list of the last times. |
| `BucketedLog.BucketedLog.Merge` | eden/common/utils/BucketedLog.h:74-82 | The merge of the logs at each time of the new window, also of a log with itself. |
| `BucketedLog.BucketedLog.Clear` | eden/common/utils/BucketedLog.h:87-91 | Every bucket is emptied and the window stays. |
| `CoverageSet.CoverageSet.Add` | eden/common/utils/CoverageSet.cpp:21-80 | For any stored intervals, overlapping or not: exactly the points of the new interval are added. Disjoint and not adjacent intervals stay so if and only if none reaches across the new beginning; and an interval that no other ends or begins at is put in as it is. |
| `CoverageSet.CoversIsInclusion` | eden/common/utils/CoverageSet.cpp:82-95 | For any nonempty intervals in order, overlapping or not: covers() answers every query as inclusion in the set of points if and only if neighbours overlap or touch only where they end together (Answerable); intervals that are disjoint and not adjacent satisfy it. |
| `CoverageSet.OverlapIsKept` | eden/common/utils/CoverageSet.cpp:59-62 | Adding [3, 5) to [1, 10) leaves both. |
| `CoverageSet.OverlapMisleads` | eden/common/utils/CoverageSet.cpp:82-95 | And then covers(4, 7) is false although every point is covered. |
| `FullWrites.Advance` | eden/common/utils/FileDescriptor.cpp:432-442 | The inner loop takes exactly r bytes off the front of the vectors. |
| `FullWrites.SentIsPrefix` | eden/common/utils/FileDescriptor.cpp:407-446 | For every pattern of short writes and EINTR the bytes that go out are a first part, and all of them when the loop finishes; it reports the end of the file with bytes left only if the kernel took nothing or bytes lie behind 1024 empty vectors in a row. |
| `FullWrites.SentGoesOn` | eden/common/utils/FileDescriptor.cpp:407-446 | The loop blocks only when every answer so far was EINTR or a transfer of a byte at least, and fails only at the first error. |
| `FullWrites.NothingBehind` | eden/common/utils/FileDescriptor.cpp:416-430 | Whatever the kernel answers, no byte behind 1024 empty vectors in a row is ever sent, and the loop does not finish. |
| `FullWrites.BehindIsLost` | eden/common/utils/FileDescriptor.cpp:416-430 | The other half: if bytes lie behind 1024 empty vectors in a row, then whatever the kernel answers not everything is sent and the loop does not finish. |
| `FullWrites.StretchStops` | eden/common/utils/FileDescriptor.cpp:416-430 | 1025 vectors of which only the last is not empty: nothing is sent, and no error is reported. |
| `FullWrites.WritevFull` | eden/common/utils/FileDescriptor.cpp:407-446 | The loop sends what the specification of SentIsPrefix sends, and counts it exactly. |
| `FullWrites.ReadFull` | eden/common/utils/FileDescriptor.cpp:370-405 | What is read is a first part of the stream, and as much as asked for unless the stream ends or the kernel gives nothing; the loop blocks only after answers that let it go on, and fails only at an error. |
| `ScribeLogger.CleanShutdown` | eden/common/telemetry/SubprocessScribeLogger.cpp:125-180 | When the writer has stopped without a failed write the child has received exactly the accepted messages, each with a newline, in order, if and only if writev() never took nothing of something; until then always a first part of that. |
| `ScribeLogger.QueueBounded` | eden/common/telemetry/SubprocessScribeLogger.cpp:136-150 | totalBytes is the size of what is queued, at most 128 KiB, the writer's two checks hold, and nothing is queued once it has stopped. |
| `ScribeLogger.DroppedExactly` | eden/common/telemetry/SubprocessScribeLogger.cpp:103-123 | A message is dropped exactly when the writer has stopped or the limit would be exceeded, and otherwise accepted behind the others. |
| `ScribeLogger.WriterWakes` | eden/common/telemetry/SubprocessScribeLogger.cpp:122-135 | The writer never sleeps on work or the request to stop without a notification on its way. |
| `ScribeShutdown.WriterReturns` | eden/common/telemetry/SubprocessScribeLogger.cpp:76-92 | After the request to stop at most StepsLeft more steps are taken, nothing more can happen exactly when the writer has returned and all notifications were made, and then, unless a write failed, the child has what was accepted if and only if nothing was given up. |
| `ScribeShutdown.RestMeansWritten` | eden/common/telemetry/SubprocessScribeLogger.cpp:125-180 | The writer waits without a notification on its way only when everything accepted has been written. |
| `ScribeLogger.LinesRoundTrip` | eden/common/telemetry/SubprocessScribeLogger.h:45-50 | Messages without newlines are read back from the bytes as they were accepted. |
| `ScribeLogger.WriteMessage` | eden/common/telemetry/SubprocessScribeLogger.cpp:157-163 | One writevFull() writes the message and its newline. |
| `IdGen.IdsAreUnique` | eden/common/utils/IDGen.cpp:44-52 | In any interleaving of threads no id is repeated or zero until the shared counter wraps. |
| `IdGen.EachIdIs` | eden/common/utils/IDGen.cpp:44-52 | A thread counts up in its range of 2048 ids and draws the next range exactly when that is used up. |
| `IdGen.ZeroAtTheEnd` | eden/common/utils/IDGen.cpp:44-52 | Zero is returned exactly when a thread uses up the last range before the wrap. |

## Left out

- Windows branches (UNC prefixes, drive letters, `\`, HANDLE code): only the POSIX branches are modelled.
- System calls, mmap, event loop, timers, folly futures, locks and condition variables: they are steps chosen by the schedule, oracles of replies, or plain state; memory ordering is sequentially consistent.
- Integer widths: the 32-bit header fields of UnixSocket and the 64-bit counter of IDGen wrap in the model; other counters (sequence numbers, times, file sizes, byte counts) are unbounded, so BucketedLog near 2^64 is not covered.
- DelayedDestruction, connect(), getRemoteUID(), attach/detach of the event base: not modelled; `destroy()` of a UnixSocket acts as `closeNow()`.
- Exceptions of setReceiveCallback(), clearReceiveCallback() and close() reach their caller without changing the socket; SocketLifecycle models them as calls without effect, and the kernel's answer to shutdown(SHUT_RD) is not looked at.
- Moving a FutureUnixSocket with pending receives, and destroying one from inside a callback: neither is supported by the code.
- Exceptions other than std::exception from a TraceBus subscriber end the process and are not modelled; neither is logFullOnce().
- `SubscriptionHandle.OwnershipKept`: is about the handles of one living bus; a handle whose bus is gone is one with a null bus (`Handle`), which requests nothing. A std::weak_ptr that is moved to itself keeps its value, as the C++ standard has it.
- `PathOrder.Less`: `char` is signed, as on x86; folly::AsciiCaseInsensitive, used by isPathPieceEqual(), is not part of the repository and is modelled by its bit test.
- std::stable_sort, std::unique, std::lower_bound, std::inplace_merge, std::set: library calls, modelled by functions; the sort by everything that its contract allows.
- isValidUtf8(): a given predicate in the sanity checks, which do reject NUL. Elsewhere a name is any text that is not empty, not `.` or `..` and has no slash, so the exceptions of canonicalPath() and joinAndNormalize() for a component with a NUL or with invalid UTF-8 are not modelled.
- `SocketReceiver.MessageReceiver.ProcessReceivedFiles`: the loop over one control message; that one too short for a descriptor is refused is the ShortControl answer of `TryReceiveOne`.
- getcwd(), realpath(), expandUser(), suffix iterators, stem(), hashing and formatting of paths.
- Thread-local caches of ProcessInfoCache: a hit is either nothing at all (`add()`) or an access to any existing node (`lookup()`), which covers every cache content; reading /proc is an oracle that may fail.
- MappedDiskVector: file locks, page-cache behaviour after a power failure, and the alignment of populateForWrite() are not modelled; a record is its bytes.
- SubprocessScribeLogger: std::bad_alloc in log() is not modelled, and killing the child after the timeouts only as a failed write.
- `FullWrites.ReadFull`: the writing and the only-once forms of wrapFull() are not modelled.
- `SocketChannel.DeliveryIsPrefix`: is about messages of less than 2^32 bytes and files; for others `SocketWire.HeaderRoundTrip` says what their header turns into.
- `SocketLifecycle.Step`: a function on values, because callbacks call back in at any point and the activations must be part of the state; `SocketObject.UnixSocket` has the methods that update the fields in place, up to their first callback.
- `TraceBus.Step`: a function on values, because its atomic steps interleave; the list alone is also an object with links (`SubscriptionList.List`), the two buffers are not.
- `ProcessInfoCache.Step`: a function on values for the same reason; so are `ScribeLogger.Step` and `IdGen.Generate`.
- `MappedVectorMigration.Migrate`: works on values of vectors and directories, since the file of the new vector outlives the object that wrote it.
- LazyInitialize, Utf8, ImmediateFuture, RefPtr, FaultInjector, LeaseCache, OptionSet, TimeUtil, Tracing, loggers for Scuba and structured events, session and user information, pipes and process spawning: smaller claims, or plumbing.
