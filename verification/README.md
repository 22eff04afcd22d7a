# Timers and session lifetimes of EasyServer

EasyServer's client thread keeps its sessions alive by hand. Every timer in the scheduler's
priority queue, every outstanding receive and every outstanding send holds one reference to its
session; once a second a collector deletes the listed sessions that are disconnected and whose
count is zero. Timers re-arm themselves *while they run*, into the queue they are being taken
from, and due ticks are 32-bit sums. This project models that machinery and proves what it keeps
over whole runs, and exactly where it stops working.

`dafny verify dfyconfig.toml` checks everything.

## How the model is laid out

| file | module | what it holds |
|---|---|---|
| `Ticks.dfy` | `Ticks` | the 32-bit clock and the wrapping due-tick sum |
| `JobQueue.dfy` | `JobQueue` | the binary heap: sift-up and sift-down, and the class whose loops compute them |
| `Tally.dfy` | `Tally` | totals and element-wise replacement over multisets |
| `TaskLoop.dfy` | `TaskLoop` | the loop of `DoTasks` for tasks that push any finite list of requests |
| `SchedulerHistory.dfy` | `SchedulerHistory` | any sequence of `PushTask` and `DoTasks` calls |
| `SessionTimers.dfy` | `SessionTimers` | the loop for the real tasks, `OnTick` and `OnDbUpdate`; when it terminates |
| `ServerModel.dfy` | `ServerModel` | the client thread as a state machine, ten kinds of step |
| `Lifetimes.dfy` | `Lifetimes` | the invariant of all reachable states; what the collector frees |
| `Reclaim.dfy` | `Reclaim` | a disconnected session loses its references |
| `TimerChains.dfy` | `TimerChains` | how many timers a session has |
| `Heartbeat.dfy` | `Heartbeat` | when the runs of a timer happen |
| `ServerHistory.dfy` | `ServerHistory` | every run of the server is a history of its scheduler |
| `Witnesses.dfy` | `Witnesses` | runs from start-up that reach the failures below |
| `CircularBuffer.dfy` | `CircularBuffers` | the two-region send buffer over an array |
| `OutgoingStream.dfy` | `OutgoingStream` | what becomes of the bytes a session sends |
| `ClientSession.dfy` | `Sessions` | `ClientSession` and `Scheduler` as objects updated in place |
| `ClientThread.dfy` | `ClientThreads` | the thread's objects together: every entry point is one step of the state machine |

The proofs are tied together from the bottom up. The objects' methods compute functions on
values: the heap's loops compute `Pushed` and `Popped`, one iteration of `Scheduler.DoTasks`
computes `TimerBody`, any number of them `TimerLoop`, and the whole loop `AfterTasks`, which
replaces every due timer by its successor in one go. `ClientThread.View` reads a `World` off the
objects, and each entry point's contract is `View() == Step(old(View()), event)`. The lemmas about
runs of `Step` therefore speak about the objects.

Outcomes of the operating system (whether `WSARecv`, `WSASend` and the linger `setsockopt`
succeed, and what the clock reads) are parameters. What the system still holds is ghost state:
multisets of outstanding receives and sends, and per session the bytes on the wire.

## What was found

Four things the code does that a caller might not expect. Each is an exact condition together
with a concrete or fully general witness.

1. **`DoTasks` can run for ever.** It returns if and only if no due timer of a connected session
   satisfies `now + interval >= 2^32` (`SessionTimers.DoTasksReturnsIffWrapFree`). Past that point
   the new due tick wraps to a small number, is due at once, and one of them is always found
   again. `Witnesses.HeartbeatStuckBeforeWrap` gives a run from start-up in which nothing has
   wrapped before: one session logged in, and its heartbeat is due one second before the 32-bit
   millisecond clock wraps. `DoTasks` at that tick runs the heartbeat in every iteration; the
   `pop` removes the element the heartbeat has just pushed, and the timers stay as they were.
   `Witnesses.AfterLoginReturnsIff` says exactly when the first call after a login returns.
   The reference counts stay right even then: `Lifetimes.LoopBoundariesAreSafe` holds at every
   loop boundary, wrapped or not, returning or not.
2. **A second flush repeats bytes.** `SendFlush` hands out the oldest buffered bytes and leaves
   them buffered until the send completes, and nothing stops the periodic flush of
   `ClientManager` from calling it again in between. Over every run the wire carries a prefix of
   the accepted stream in order if and only if never two sends that were outstanding together
   both completed while connected (`OutgoingStream.WireInOrderIffNoOverlapDelivers`). A caller can
   tell at the flush: every continuation that flushes one at a time stays in order if and only if
   no send is outstanding now (`OutgoingStream.FlushIsSafeIffNoneOutstanding`). For a run that ends
   connected, with nothing outstanding and no failed send, the wire is in order if and only if
   no flush at all was made while a send was outstanding
   (`OutgoingStream.WireInOrderIffOneSendAtATime`). Bytes can be lost as well: the second
   completion removes bytes accepted in the meantime that were never sent
   (`OutgoingStream.SecondFlushDropsNext`), and `OutgoingStream.BytesAreLostIff` says exactly when.
3. **A reused socket number leaks a session.** `CreateClient` inserts into a map, which keeps an
   older entry. A disconnected session stays listed until the collector comes round, but its
   socket is closed. A session accepted with the same number in the meantime is not listed
   (`Lifetimes.AcceptListsIffSocketIsFree`), and an unlisted session is never freed, whatever
   happens later (`Lifetimes.UnlistedIsNeverFreed`). `Witnesses.SocketReuseLeaks` is the run of
   three calls that gets there.
4. **A failed disconnect goes unnoticed.** When `setsockopt` fails, `Disconnect` returns early and
   the session stays connected. The accepted stream is the packets offered before the first
   overflow or disconnect, and nothing else, if and only if no packet is accepted afterwards
   (`OutgoingStream.AcceptedUpToClosingIff`); and after an overflow nothing is accepted on any
   continuation if and only if its disconnect succeeds (`OutgoingStream.OverflowIsFinalIff`).
   Otherwise a shorter packet leaves a gap (`Sessions.ClientSession.DropThenAccept`, on the real
   buffer), and a login whose own answer overflowed arms both timers all the same
   (`TimerChains.LoginStartsTimersIff`).

## Model

| member | source | states |
|---|---|---|
| Ticks.DueTick | EasyServer/EasyServer/Scheduler.cpp:13 | the due tick is not before the cached tick exactly when the 32-bit sum does not wrap, and then is later by the whole delay |
| JobQueue.PushedHeap | EasyServer/EasyServer/Scheduler.cpp:16 | a push keeps heap order, adds exactly one element, and changes the root only for a strictly earlier element |
| JobQueue.PoppedHeap | EasyServer/EasyServer/Scheduler.cpp:37 | a pop keeps heap order and removes exactly one occurrence of the root |
| JobQueue.RootRunsFirst | EasyServer/EasyServer/Scheduler.h:21-30 | the comparator makes it a min-queue: nothing queued runs before the top |
| JobQueue.SiftUpRoot | EasyServer/EasyServer/Scheduler.h:21-30 | sifting up displaces the root only when strictly earlier, so a tie leaves it in place |
| JobQueue.TaskPriorityQueue.constructor | EasyServer/EasyServer/Scheduler.h:43 | the queue starts empty |
| JobQueue.TaskPriorityQueue.Push | EasyServer/EasyServer/Scheduler.cpp:16 | the in-place sift-up loop computes the push whose properties the lemmas state, keeps heap order and adds one element |
| JobQueue.TaskPriorityQueue.Top | EasyServer/EasyServer/Scheduler.cpp:27 | the element read is a minimum of the queue |
| JobQueue.TaskPriorityQueue.Pop | EasyServer/EasyServer/Scheduler.cpp:37 | the in-place sift-down loop computes the pop whose properties the lemmas state and removes exactly the old top |
| TaskLoop.PushAllRoot | EasyServer/EasyServer/Scheduler.cpp:33 | whatever a running task pushes, the root stays the same element unless one push is due strictly before it, and otherwise becomes strictly earlier |
| TaskLoop.PopRemovesExecuted | EasyServer/EasyServer/Scheduler.cpp:25-38 | re-entrant pop, tight bound: for any heap and any list of pushes the pop after the task removes the executed element if and only if no push is due strictly before it |
| TaskLoop.PopRemovesExecutedUnwrapped | EasyServer/EasyServer/Scheduler.cpp:13-38 | in particular always for a due element when no 32-bit sum wraps, and the pushes are not due before the cached tick |
| TaskLoop.GuardIffDue | EasyServer/EasyServer/Scheduler.cpp:25-30 | the loop goes on exactly when some queued element, not only the top, is due |
| TaskLoop.LoopKeepsHeap | EasyServer/EasyServer/Scheduler.cpp:25-38 | heap order survives any run of the loop even when ticks wrap |
| TaskLoop.LoopConserves | EasyServer/EasyServer/Scheduler.cpp:25-38 | without wrap-around executed plus remaining equals queued at entry plus pushed, for finished and unfinished runs |
| TaskLoop.LoopRunsInOrder | EasyServer/EasyServer/Scheduler.cpp:25-38 | one call executes its elements in nondecreasing tick order |
| TaskLoop.BodyRunsOneDueJob | EasyServer/EasyServer/Scheduler.cpp:25-38 | with positive delays that do not wrap one iteration lowers the number of due elements by exactly one even if the queue grows |
| TaskLoop.LoopIsBounded | EasyServer/EasyServer/Scheduler.cpp:25-38 | hence the number of iterations is the drop in due elements, so the loop terminates |
| TaskLoop.DoTasksRefinesSpec | EasyServer/EasyServer/Scheduler.cpp:20-39 | a finished call executed each element due at entry exactly once and nothing else, and left the not-yet-due elements plus everything the tasks pushed |
| SchedulerHistory.EveryPushRunsExactlyOnce | EasyServer/EasyServer/Scheduler.cpp:11-39 | over any history of calls everything ever pushed is executed or still queued, with multiplicity |
| SchedulerHistory.HistoryRunsInOrder | EasyServer/EasyServer/Scheduler.cpp:11-39 | under a monotone clock the execution ticks over all calls of a history form one nondecreasing sequence |
| SchedulerHistory.NothingFiresEarly | EasyServer/EasyServer/Scheduler.cpp:13-30 | every executed element stems from a push and ran at a cached tick at least that push's cached tick plus its delay |
| SchedulerHistory.NothingDueIsLeft | EasyServer/EasyServer/Scheduler.cpp:23-30 | when DoTasks returns, wrapped or not, everything queued is strictly later than the cached tick |
| SessionTimers.TimerBodySwapsTop | EasyServer/EasyServer/ClientSession.cpp:150-176 | one iteration over a session timer exchanges it for its re-armed successor, or for nothing when the owner is disconnected |
| SessionTimers.TimerBodyRemoves | EasyServer/EasyServer/Scheduler.cpp:27-37 | one iteration on a session timer, wrapped or not: the pop removes the executed timer, or the one just pushed if that is due strictly earlier |
| SessionTimers.TimerLoopIsLoop | EasyServer/EasyServer/Scheduler.cpp:25-38 | the loop over session timers is a run of the general loop whose tasks request exactly what their elements call for |
| SessionTimers.TimerLoopRefinesSpec | EasyServer/EasyServer/Scheduler.cpp:20-39 | without wrap-around the loop over session timers stops after as many iterations as there were due timers and has replaced each due timer by its successor |
| SessionTimers.DoTasksReturnsIffWrapFree | EasyServer/EasyServer/Scheduler.cpp:13-38 | DoTasks returns if and only if no due timer of a connected session is re-armed past 32 bits |
| SessionTimers.RelapsePersists | EasyServer/EasyServer/Scheduler.cpp:27-37 | such a timer leaves another such timer in the queue whichever element the pop removes |
| ServerModel.TimerBodyOwned | EasyServer/EasyServer/Scheduler.cpp:27-37 | one iteration, wrapped or not, takes one queued timer from a disconnected owner and none from anybody else |
| ServerModel.ConnectedKeepsTimers | EasyServer/EasyServer/ClientSession.cpp:150-176 | DoTasks leaves a connected session with as many timers of each kind as it had |
| ServerModel.DisconnectedLosesDue | EasyServer/EasyServer/ClientSession.cpp:150-176 | DoTasks takes from a disconnected session exactly its due timers |
| ServerModel.QueuedAfterTasks | EasyServer/EasyServer/Scheduler.cpp:20-39 | everything queued after DoTasks is an old element that was not due or the successor of one that was |
| ServerModel.CallOnlyLetsGo | EasyServer/EasyServer/ClientSession.cpp:29-135 | every call but LoginDone touches one session only, arms no timer, connects nobody and never counts a disconnected session up |
| Lifetimes.StepKeepsInv | EasyServer/EasyServer/ClientSession.cpp:29-231 | every step keeps each count equal to timers plus outstanding receives plus outstanding sends, and keeps timers, I/O and list entries from naming freed sessions |
| Lifetimes.DoTasksKeeps | EasyServer/EasyServer/Scheduler.cpp:33-37 | DoTasks keeps it although each task pushes before its own reference is given back |
| Lifetimes.ReachableStatesAreSafe | EasyServer/EasyServer/ClientSession.cpp:10-231 | so it holds in every state reachable from start-up, over any run |
| Lifetimes.LoopBoundariesAreSafe | EasyServer/EasyServer/Scheduler.cpp:25-38 | at every loop boundary of DoTasks, wrapped or not and returning or not, each count is its timers plus outstanding I/O, every owner is live, and the owner of the task about to run is counted at least once |
| Lifetimes.CollectFreesExactlyUnreferenced | EasyServer/EasyServer/RefCountable.h:10-12 | the collector frees a session if and only if it is listed, disconnected and named by no timer and no outstanding I/O |
| Reclaim.StepShrinks | EasyServer/EasyServer/ClientSession.cpp:29-176 | no step counts a disconnected session up, reconnects it or adds a timer for it, and only the collector removes it |
| Reclaim.RunShrinks | EasyServer/EasyServer/ClientSession.cpp:29-176 | the same over whole runs |
| Reclaim.ReclaimAfterDisconnect | EasyServer/EasyServer/Scheduler.cpp:20-39 | after one DoTasks at or past its latest timer no timer names a disconnected session, its count is its outstanding I/O, and it is collectable if and only if it is listed and that I/O is done |
| TimerChains.LoginStartsTimersIff | EasyServer/EasyServer/ClientSession.cpp:212-231 | a login starts one timer of each kind exactly when its answer fits or the disconnect the overflow causes fails |
| TimerChains.StepKeepsChain | EasyServer/EasyServer/ClientSession.cpp:150-176 | a step keeps the number of timers at the number of logins that started them, as a bound once disconnected |
| TimerChains.RunKeepsChains | EasyServer/EasyServer/ClientSession.cpp:150-231 | over any run a connected session started by k logins has exactly k timers of each kind, a disconnected one at most k |
| Heartbeat.StepKeepsChainQueued | EasyServer/EasyServer/ClientSession.cpp:159-174 | a connected session's timer stays queued or runs and is followed by one due an interval after the cached tick |
| Heartbeat.ChainIsNeverBroken | EasyServer/EasyServer/ClientSession.cpp:150-176 | while its owner stays connected a timer chain is queued at every point of the run |
| Heartbeat.ChainRunsAreSpaced | EasyServer/EasyServer/Scheduler.cpp:20-39 | with DoTasks at gaps of at most G consecutive runs are at least H and at most H + G - 1 apart, the first is within G - 1 of its due tick, and the chain never falls behind |
| Heartbeat.ChainRunCount | EasyServer/EasyServer/Scheduler.cpp:20-39 | run k is at least k intervals after the first, and the number of runs by tick T is bounded from both sides |
| ServerHistory.RunIsHistory | EasyServer/EasyServer/Scheduler.cpp:11-39 | every run of the server, over any heap of its timers, is a history of PushTask and DoTasks calls that ends with a heap of the timers then queued |
| ServerHistory.TimersRunOnceInOrderAndOnTime | EasyServer/EasyServer/Scheduler.cpp:11-39 | over any run from start-up with a clock that does not go back and logins that do not wrap, every timer armed is run once or still queued, in tick order, never before its interval has passed |
| Witnesses.AfterLoginReturnsIff | EasyServer/EasyServer/ClientSession.cpp:212-231 | the first DoTasks after a login returns exactly when neither of its two timers is due and armed again past 32 bits |
| Witnesses.HeartbeatStuckBeforeWrap | EasyServer/EasyServer/ClientSession.cpp:150-160 | concrete failing run from start-up, with nothing wrapped before: DoTasks one second before the clock wraps does not return, every iteration runs the heartbeat and leaves the timers as they were |
| CircularBuffers.CircularBuffer.GetContiguiousBytes | EasyServer/EasyServer/ClientSession.cpp:105-113 | how much a flush sends: everything stored unless the data wraps, and then everything before the part that wrapped; zero only when nothing is stored |
| CircularBuffers.CircularBuffer.GetBufferStart | EasyServer/EasyServer/ClientSession.cpp:112-114 | start and length given to the socket cover the oldest stored bytes in order |
| CircularBuffers.CircularBuffer.Write | EasyServer/EasyServer/ClientSession.cpp:88-94 | all or nothing: the bytes are appended if and only if they fit the write space, and what that space is after an accepted and after a refused packet |
| CircularBuffers.CircularBuffer.WriteSpaceIsLargerSide | EasyServer/EasyServer/ClientSession.cpp:88-94 | unless data has wrapped, the write space is the larger free side, hence at least half of all that is free |
| CircularBuffers.CircularBuffer.Remove | EasyServer/EasyServer/ClientSession.cpp:131-135 | exactly the oldest bytes go, across both regions, and what the write space is afterwards: all free space once the first stretch is gone |
| OutgoingStream.RunKeepsAccount | EasyServer/EasyServer/ClientSession.cpp:83-135 | over any run the accepted bytes are the acknowledged ones followed by exactly the buffered ones |
| OutgoingStream.WireInOrderIffNoOverlapDelivers | EasyServer/EasyServer/ClientSession.cpp:100-135 | over every run, the wire carries a prefix of the accepted stream in order if and only if never two sends outstanding together both completed while connected |
| OutgoingStream.FlushIsSafeIffNoneOutstanding | EasyServer/EasyServer/ClientSession.cpp:100-129 | seen from the flush: every continuation that flushes one at a time keeps the wire in order if and only if no send is outstanding now |
| OutgoingStream.WireInOrderIffOneSendAtATime | EasyServer/EasyServer/ClientSession.cpp:100-135 | for runs that end connected, with nothing outstanding and no failed send, the wire is in order if and only if no flush was made while a send was outstanding |
| OutgoingStream.OneSendAtATimeKeepsWireInOrder | EasyServer/EasyServer/ClientSession.cpp:100-135 | with one send at a time the wire is at every point the acknowledged prefix, failures and disconnects included |
| OutgoingStream.SecondFlushRepeats | EasyServer/EasyServer/ClientSession.cpp:100-129 | concrete failing input: two flushes before the first completion deliver a packet twice |
| OutgoingStream.CompletionRemoves | EasyServer/EasyServer/ClientSession.cpp:131-135 | a completion of n bytes leaves exactly the buffered bytes after the first n, none when there are fewer |
| OutgoingStream.LosesIff | EasyServer/EasyServer/ClientSession.cpp:131-135 | a completion removes an accepted byte that was never on the wire exactly when its send was overtaken by one it overlapped and falls short of what is buffered |
| OutgoingStream.BytesAreLostIff | EasyServer/EasyServer/ClientSession.cpp:100-135 | over every run, bytes are removed unsent if and only if such a completion occurs, and never while the wire stays in order |
| OutgoingStream.SecondFlushDropsNext | EasyServer/EasyServer/ClientSession.cpp:131-135 | concrete failing input: after a packet flushed twice, a byte accepted between the two completions is dropped unsent |
| OutgoingStream.ClosedStaysClosed | EasyServer/EasyServer/ClientSession.cpp:83-135 | after a disconnect nothing is accepted, flushed, delivered or acknowledged any more; outstanding sends are only taken off from the front |
| OutgoingStream.AcceptedUpToClosingIff | EasyServer/EasyServer/ClientSession.cpp:83-98 | the accepted stream is the packets offered before the first overflow or disconnect, whole, in order and nothing else, if and only if no packet is accepted after it |
| OutgoingStream.AcceptedUpToClosing | EasyServer/EasyServer/ClientSession.cpp:83-98 | in particular whenever every overflow does disconnect |
| OutgoingStream.OverflowIsFinalIff | EasyServer/EasyServer/ClientSession.cpp:88-94 | after an overflow nothing is accepted on any continuation if and only if the disconnect it causes succeeds |
| OutgoingStream.FailedDisconnectLeavesGap | EasyServer/EasyServer/ClientSession.cpp:69-98 | when it fails, a packet larger than the free space followed by one that fits leaves a gap |
| Sessions.ClientSession.constructor | EasyServer/EasyServer/RefCountable.h:5-6 | a new session is unreferenced, unconnected, not logged on, without a player, has sent nothing and can take 10240 bytes |
| Sessions.ClientSession.IncRefCount | EasyServer/EasyServer/RefCountable.h:10 | one reference more and nothing else changed |
| Sessions.ClientSession.DecRefCount | EasyServer/EasyServer/RefCountable.h:11 | one reference less and nothing else changed |
| Sessions.ClientSession.OnConnect | EasyServer/EasyServer/ClientSession.cpp:10-27 | connects, and posts one receive for one reference or neither |
| Sessions.ClientSession.PostRecv | EasyServer/EasyServer/ClientSession.cpp:29-53 | a receive becomes outstanding together with one reference exactly when connected and the request succeeds |
| Sessions.ClientSession.Disconnect | EasyServer/EasyServer/ClientSession.cpp:55-78 | disconnects unless the linger option fails, and is the stream's Close |
| Sessions.ClientSession.SendRequest | EasyServer/EasyServer/ClientSession.cpp:83-98 | the packet joins the stream whole if connected and it fits, otherwise the session is disconnected unless that fails; until a byte is removed it fits if and only if it and all accepted before come to at most 10240 bytes |
| Sessions.ClientSession.WholeBufferIsFree | EasyServer/EasyServer/ClientSession.cpp:88-94 | until a byte is removed the write space is 10240 less what was accepted |
| Sessions.ClientSession.DropThenAccept | EasyServer/EasyServer/ClientSession.cpp:69-98 | the gap on the real buffer, by two SendRequest calls of which the first overflows and fails to disconnect |
| Sessions.ClientSession.SendFlush | EasyServer/EasyServer/ClientSession.cpp:100-129 | a send of the whole first stretch, starting with the oldest byte, becomes outstanding together with one reference exactly when connected, nonempty and accepted; the answer is false exactly when not connected or refused |
| Sessions.ClientSession.FlushedBytesAreNextAccepted | EasyServer/EasyServer/ClientSession.cpp:112-120 | the bytes in the array that a flush points the socket at are the accepted bytes next in line |
| Sessions.ClientSession.OnWriteComplete | EasyServer/EasyServer/ClientSession.cpp:131-135 | leaves the buffered bytes after the completed ones, none when there are fewer, and a single stretch when the first one is completed |
| Sessions.ClientSession.TwoRoundsEmptyBuffer | EasyServer/EasyServer/ClientSession.cpp:100-135 | two rounds of flushing and completing send everything, however the stored bytes wrap |
| Sessions.ClientSession.OnTick | EasyServer/EasyServer/ClientSession.cpp:150-160 | a connected session pushes itself again with one reference, a disconnected one does nothing |
| Sessions.ClientSession.OnDbUpdate | EasyServer/EasyServer/ClientSession.cpp:162-176 | the same at the database interval |
| Sessions.ClientSession.LoginDone | EasyServer/EasyServer/ClientSession.cpp:212-231 | stores the player, sends the answer, and starts both timers with two references exactly when still connected afterwards |
| Sessions.Scheduler.constructor | EasyServer/EasyServer/Scheduler.cpp:5-8 | the scheduler starts with the clock's tick and an empty queue |
| Sessions.Scheduler.PushTask | EasyServer/EasyServer/Scheduler.cpp:11-17 | one reference for the owner and one element at the 32-bit due tick |
| Sessions.Scheduler.RunTask | EasyServer/EasyServer/Scheduler.cpp:33 | the owner's count is at least one before and after its task runs |
| Sessions.Scheduler.RunTop | EasyServer/EasyServer/Scheduler.cpp:27-37 | one iteration, wrapped or not, computes the loop body of the model and costs a disconnected owner one reference, a connected one none |
| Sessions.Scheduler.RunCountedTop | EasyServer/EasyServer/Scheduler.cpp:27-37 | an iteration, wrapped or not, leaves every session the references it has besides its timers and the queue naming only live, counted sessions |
| Sessions.Scheduler.RunFirst | EasyServer/EasyServer/Scheduler.cpp:25-38 | the same for the first n iterations of any call, even one that never returns, which compute the model of the loop |
| Sessions.Scheduler.DoTasks | EasyServer/EasyServer/Scheduler.cpp:20-39 | under the exact condition for it to return, the loop terminates, computes the model of the loop, does to the queue what the one-step specification says, leaves nothing due, and changes no session's other references |
| ClientThreads.ClientThread.PostRecv | EasyServer/EasyServer/ClientSession.cpp:29-53 | on the objects, exactly the PostRecv step; the answer is true if and only if connected and accepted |
| ClientThreads.ClientThread.Disconnect | EasyServer/EasyServer/ClientSession.cpp:55-78 | on the objects, exactly the Disconnect step, and on the session's stream its own step; only a failing linger option keeps it connected |
| ClientThreads.ClientThread.SendRequest | EasyServer/EasyServer/ClientSession.cpp:83-98 | on the objects, exactly the SendRequest step, fitting when the real buffer has the space, and on the session's stream its own step; the answer is true if and only if connected and fitting |
| ClientThreads.ClientThread.SendFlush | EasyServer/EasyServer/ClientSession.cpp:100-129 | on the objects, exactly the SendFlush step, and on the session's stream its own step; the answer is true if and only if connected and nothing to send or accepted |
| ClientThreads.ClientThread.LoginDone | EasyServer/EasyServer/ClientSession.cpp:212-231 | on the objects and the real heap, exactly the LoginDone step, and on the session's stream its own step; the player's number and position are stored |
| ClientThreads.ClientThread.DoTasks | EasyServer/EasyServer/Scheduler.cpp:20-39 | in any reachable state the real loop over the real heap is exactly the one-step DoTasks of the state machine |

## Members for files in a legacy encoding

These model code in files of `EasyServer/EasyServer/` that are not UTF-8.

| file and lines | member | states |
|---|---|---|
| `ClientManager.cpp`, 12-20 | `Lifetimes.AcceptListsIffSocketIsFree` | an accepted session is listed exactly when no entry with its socket number was left |
| `ClientManager.cpp`, 12-76 | `Lifetimes.StepKeepsListing` | no step changes whether a live session is listed |
| `ClientManager.cpp`, 52-76 | `Lifetimes.UnlistedIsNeverFreed` | hence an unlisted session is never freed over any run |
| `CircularBuffer.h`, 8-13 | `CircularBuffers.CircularBuffer.constructor` | a new buffer is empty and can take its whole capacity |
| `CircularBuffer.h`, 45-48 | `CircularBuffers.CircularBuffer.GetStoredSize` | the number of stored bytes |
| `CircularBuffer.h`, 91-94 | `CircularBuffers.CircularBuffer.AllocateB` | opening region B changes no stored byte |
| `CircularBuffer.h`, 28-43 | `CircularBuffers.CircularBuffer.WriteSpaceIsAllFreeIff` | the write space is all the free space if and only if nothing was removed from the front or region A reaches the end |
| `ClientManager.cpp`, 12-20 | `Witnesses.SocketReuseLeaks` | a run of three calls from start-up after which a connected session is unlisted while a disconnected one holds its entry, and is never freed whatever follows |
| `PacketHandling.cpp`, 42-67 | `Sessions.ClientSession.RecvCompletion` | gives one reference back, then posts the next receive with a reference, or disconnects |
| `PacketHandling.cpp`, 58-66 | `ServerModel.HandlingBeforeCompletion` | handling packets inside the completion, after the reference is given back, has the same effect as handling them before the RecvCompletion step |
| `PacketHandling.cpp`, 70-88 | `Sessions.ClientSession.SendCompletion` | gives one reference back, then the stream's Complete, or its Fail with a disconnect |
| `EasyServer.cpp`, 101-104 | `ClientThreads.ClientThread.constructor` | the thread starts in the state machine's initial state |
| `ClientManager.cpp`, 12-20 | `ClientThreads.ClientThread.CreateClient` | a new session with a buffer of its own of 10240 bytes, inserted in the list unless its socket number is taken |
| `EasyServer.cpp`, 120-141 | `ClientThreads.ClientThread.Accept` | accepting a socket on the objects is exactly the Accept step, fresh session included, and the session can take 10240 bytes |
| `PacketHandling.cpp`, 42-67 | `ClientThreads.ClientThread.RecvCompletion` | the receive completion on the objects is exactly the RecvCompletion step |
| `PacketHandling.cpp`, 70-88 | `ClientThreads.ClientThread.SendCompletion` | the send completion on the objects is exactly the SendCompletion step and the stream's step |
| `ClientManager.cpp`, 118-128 | `ClientThreads.ClientThread.FlushOrDisconnect` | a session whose flush answers false is disconnected, and stays connected only if its linger option fails |
| `ClientManager.cpp`, 118-128 | `ClientThreads.ClientThread.FlushClientSend` | the loop over the list is a run of the state machine in which each listed session gets one send more or is disconnected as its own flush went, and no other session changes |
| `ClientManager.cpp`, 54-65 | `ClientThreads.ClientThread.DisconnectedSessions` | the pass over the list finds exactly the garbage, each session once |
| `ClientManager.cpp`, 68-74 | `ClientThreads.ClientThread.DeleteSessions` | no session is deleted twice and each takes its own list entry along |
| `ClientManager.cpp`, 52-76 | `ClientThreads.ClientThread.CollectGarbageSessions` | the two passes together are exactly the CollectGarbage step |

## Left out

- Received bytes: the receive buffer, `Peek`, `Read`, `Commit` and the packet parser. What packet handlers do to sessions is `SendRequest` and `Disconnect`, which are steps of their own; `ServerModel.HandlingBeforeCompletion` shows that they may be placed before the `RecvCompletion` step.
- `Broadcast` and `BroadcastPacket`: calls of `SendRequest` on the session itself and then on every other listed one; as runs of the state machine they are sequences of that step.
- The database queues and their thread: `OnDbUpdate` hands its job to a queue that is not part of this model, and a finished load appears as a `LoginDone` step on any session at any time. That is more than the server allows, which looks the session up by socket number and requires it to be connected.
- Sessions.ClientSession.OnConnect: the non-blocking and Nagle options, whose results the server ignores, are not modelled.
- ClientThreads.ClientThread.DoTasks: states the effect of a call that returns, because the loop otherwise never does; `SessionTimers.DoTasksReturnsIffWrapFree` states both directions.
- OutgoingStream.WireInOrderIffOneSendAtATime: for runs that end connected, with nothing outstanding and no failed send, because otherwise the repeated bytes may not have been delivered yet; `OutgoingStream.WireInOrderIffNoOverlapDelivers` is for all runs.
- Sends: a session's sends are taken to be delivered and completed in the order they were posted, and a completion to report the bytes delivered. That the system reads the buffer's memory while the send is in flight, and the single overlapped structure two sends would share, are not modelled.
- The heap's exact layout after a pop: one standard pop (last element to the root, then sift down), of which the results use only heap order and the multiset of elements. The order among equal ticks is unspecified and nothing is claimed about it.
- The width of `mRefCount`: the count is an unbounded integer.
- Calls on a freed session: undefined in the server, no effect in the model. Completions and timers never make one, since they only name live sessions; that callers do not is assumed.
- Threads: the scheduler is reached through a thread-local pointer and the sessions only from the client thread, so steps are sequential.
- Text fields (player name), addresses, printing, the object pool and crash handling.
