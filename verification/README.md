# A model of condy's concurrency core

condy is a coroutine runtime over io_uring. Its system calls are thin; what is
hard is the user-space protocol code that keeps state across threads and across
the kernel boundary. This project models that code in Dafny and proves what it
keeps over every run, for any number of callers, threads, runtimes, buffers and
operations.

`dafny verify dfyconfig.toml` checks all of it.

| file | models |
|---|---|
| `IntrusiveList.dfy` | the pointer-linked lists every wait queue is made of |
| `RingBuffer.dfy`, `Channel.dfy` | the channel as a class: masked ring buffer, two waiter lists, hand-off, cancel, close |
| `ChannelSpec.dfy`, `ChannelRuns.dfy`, `ChannelAnswers.dfy` | one channel operation on values, whole runs of them, and what callers are told |
| `TaskLifecycle.dfy` | the promise state machine: who destroys the frame, who is woken |
| `Runtime.dfy`, `RuntimeRuns.dfy`, `RuntimeProgress.dfy` | several event loops, foreign threads and the kernel's side of the rings |
| `RuntimeExit.dfy`, `RuntimeCancels.dfy`, `RuntimeOrder.dfy`, `RuntimePolling.dfy`, `RuntimeRings.dfy` | over the same runs: exit requests, cancels, the order of work, the event interval, completions and submissions |
| `WorkType.dfy`, `Completion.dfy` | completion tags, and the finish handles that consume completions |
| `Combinators.dfy`, `CombinatorResults.dfy`, `LinkChain.dfy` | trees of when_all, when_any and link; link chains over the submission queue |
| `BufferPool.dfy`, `BufferPoolRuns.dfy`, `BufferPoolBytes.dfy`, `BufferQueue.dfy` | provided buffers, with the kernel's consumption as the other party |
| `Futex.dfy` | the user-space futex as a class |
| `FutexRuns.dfy`, `FutexLinks.dfy`, `FutexCancels.dfy` | whole runs of it with notify_all draining outside the mutex: on lists, on the links themselves, and which cancels keep the two in step |
| `FutexMutex.dfy`, `CondQueue.dfy`, `CondQueueProgress.dfy`, `CondQueueOrder.dfy` | the mutex, the condition variable and the queue built on that futex |
| `BoundedQueue.dfy` | the queue built on kernel-futex semaphores |
| `PrimeFs.dfy` | directory paging and trial division of the FUSE example |
| `Bits.dfy`, `Common.dfy` | masks, powers of two and wrap-around arithmetic; optional values, error codes and counting |

How it is built. Code that a mutex protects, or that one thread owns, is a class
whose methods are proved to follow functions on values; runs are sequences of
those functions. Code that races is a datatype state with a step function: every
atomic load, store and compare-exchange, every mutex section, every access to a
waiter's links outside the mutex and every kernel action is one step, and steps
of different threads interleave freely. Atomics
are sequentially consistent throughout; the weaker C++ memory orders are not
modelled. A main theorem starts from an initial state and speaks about every
run; progress theorems bound the length of every run that makes no new requests
and say what the state is when nothing more can happen.

What is assumed of the kernel: without SQPOLL a submission empties the
submission queue; a message to an enabled ring arrives and is acknowledged; a
buffer ring is consumed in order and its completions are handled in that order,
with a result no larger than the bytes provided; an operation's completions
follow the MORE and NOTIF contract.

Where the code does not keep a property on all inputs, the model follows the code
and gives the exact condition:

- A link goes out as one chain exactly when no operation of it is already
  stopped and the submit batch does not fill up on the way
  (`LinkChain.Ring.StartLink`).
- Reserving entries ends exactly when the queue is large enough; for more, no
  number of rounds ends it (`LinkChain.Ring.ReserveWithin`).
- A tree calls its receiver exactly when all leaves are done and it contains no
  empty link; an empty link never does (`Combinators.EveryNodeFiresOnce`,
  `Combinators.EmptyLinkNeverFires`).
- An exit request is still there at the loop's next exit test exactly when it
  was not stored between the loop's last test and the reset of the flag
  (`RuntimeExit.RequestSurvivesExactly`, `RuntimeExit.LateRequestIsAbsorbed`,
  `RuntimeExit.LateRequestIsReachable`).
- `remove` on an entry of another list does what was asked exactly when the entry
  is alone there or has neighbours on both sides
  (`IntrusiveList.DoubleLinkList.RemoveElsewhere`).
- notify_all pops the waiters it has moved out without the mutex, and a cancel
  calls `remove` on the futex's list meanwhile. The cancel goes wrong when the
  waiter is still linked to another one and is the first or last of those yet to
  be popped, or is itself being popped (`FutexRuns.Fails`). On every run without
  such a cancel no wait ends twice and none is lost
  (`FutexLinks.EveryWaitHasOneFate`). After such a cancel some run of ordinary
  calls ends a wait twice or loses one, and after any other cancel none does
  (`FutexCancels.CancelIsHarmlessExactly`, `FutexCancels.RunIsHarmlessExactly`).
  So a notify_all may be cancelled into at any moment exactly if it moved out at
  most one waiter (`FutexCancels.NotifyAllIsSafeExactly`). Three runs show it:
  `FutexCancels.CancelledDuringAPop`, `CancelledAtTheHead` and
  `CancelledAtTheTail`.
- Repeated directory reads list everything exactly when the longest record fits
  into the reply (`PrimeFs.PagingIsComplete`). A reply holds an entry below 2
  exactly when the offset is 2^64 - 2 or more, where the sum wraps, and that
  entry is below the bound and fits (`PrimeFs.LowEntriesExactly`,
  `PrimeFs.WrappedOffsetLists`).
- The finish handles call the receiver once and end once on exactly the streams
  the kernel contract allows (`Completion.CleanExactly`).
- `is_prime_` is right for every 64-bit number, although `i * i` wraps for large
  `i`: a divisor would have been met before the wrap, and past it the loop still
  ends before `i` reaches the number (`PrimeFs.IsPrime`).

## Model

| member | source | states |
|---|---|---|
| IntrusiveList.DoubleLinkList.PushBack | include/condy/detail/intrusive.hpp:118-130 | all next, prev, head and tail links again describe one sequence, the old one with the entry appended |
| IntrusiveList.DoubleLinkList.PopFront | include/condy/detail/intrusive.hpp:134-148 | the head is unlinked and detached and the rest keeps its order; an empty list gives null |
| IntrusiveList.DoubleLinkList.Remove | include/condy/detail/intrusive.hpp:150-171 | true iff the entry was in this list, and then exactly that entry is gone and detached; otherwise nothing changes |
| IntrusiveList.DoubleLinkList.RemoveElsewhere | include/condy/detail/intrusive.hpp:150-171 | the same call for an entry of another list: nothing happens if it is alone there, it leaves that list if it has neighbours on both sides, and in every other case the two lists no longer describe any sequences (without assertions, which stop the program there) |
| IntrusiveList.DoubleLinkList.MoveFrom | include/condy/detail/intrusive.hpp:107-114 | move assignment takes over the whole sequence and leaves the source empty; from itself it does nothing |
| IntrusiveList.SingleLinkList.PushBack | include/condy/detail/intrusive.hpp:54-64 | appends one entry to the linked sequence |
| IntrusiveList.SingleLinkList.Splice | include/condy/detail/intrusive.hpp:66-79 | concatenates the other list's sequence and leaves it empty |
| IntrusiveList.SingleLinkList.PopFront | include/condy/detail/intrusive.hpp:83-94 | takes the first entry off, unlinked |
| RingBuffer.MaskedSucc | include/condy/channel.hpp:310-332 | the masked slot of a 64-bit index moves to the next slot of the ring, also where the index wraps at 2^64 |
| RingBuffer.TailStep | include/condy/channel.hpp:310-316 | after a push the wrapped difference of the indices is the new size, and the tail is that many slots past the head |
| RingBuffer.HeadStep | include/condy/channel.hpp:317-332 | the same for a pop, across the wrap |
| RingBuffer.HoldsPush | include/condy/channel.hpp:310-316 | constructing the slot behind the window extends the contents, and that slot was not constructed before |
| RingBuffer.HoldsPop | include/condy/channel.hpp:317-332 | destroying the first slot of the window removes the first item and no other |
| RingBuffer.Ring.Push | include/condy/channel.hpp:310-316 | the buffer's sequence grows at its end; a slot is constructed iff it is in the window |
| RingBuffer.Ring.Pop | include/condy/channel.hpp:317-332 | returns the first item and destroys its slot once |
| RingBuffer.Ring.DestructAll | include/condy/channel.hpp:355-362 | every constructed slot is destroyed once and none stays constructed |
| ChannelSpec.PushIsEnqueue | include/condy/channel.hpp:226-237 | buffer followed by parked items is one queue: a push appends to it, or hands over to the longest-waiting pop exactly when pops wait |
| ChannelSpec.PopIsDequeue | include/condy/channel.hpp:244-257 | a pop takes that queue's front, and fails iff it is empty, with EPIPE iff closed |
| ChannelSpec.RefillIsDequeue | include/condy/channel.hpp:298-306 | taking from the buffer and refilling it from the first parked push is one dequeue, also with capacity zero |
| ChannelSpec.CancelIsRemoval | include/condy/channel.hpp:239-242 | cancelling a parked push removes exactly its own item from the queue |
| Channel.Channel.TryPushInner | include/condy/channel.hpp:265-280 | hand-off, store or refuse, as on values, with its assertion met |
| Channel.Channel.Refill | include/condy/channel.hpp:298-306 | the refill of a full buffer, or the direct take at capacity zero |
| Channel.Channel.TryPopInner | include/condy/channel.hpp:282-296 | the pop on values: refill, take or nothing |
| Channel.Channel.TryPush | include/condy/channel.hpp:71-82 | result code, wake-ups and new state of a non-waiting push |
| Channel.Channel.TryPop | include/condy/channel.hpp:90-100 | result code, item, wake-ups and new state of a non-waiting pop |
| Channel.Channel.RequestPush | include/condy/channel.hpp:226-237 | a waiting push completes at once or is parked with its item unmoved |
| Channel.Channel.ForcePush | include/condy/channel.hpp:102-121 | never refused: delivered, stored or parked in a handle of its own; panics iff closed |
| Channel.Channel.RequestPop | include/condy/channel.hpp:244-257 | a waiting pop completes at once or is parked |
| Channel.Channel.UnparkPush | include/condy/channel.hpp:239-242 | unlinks the handle iff it is still parked |
| Channel.Channel.UnparkPop | include/condy/channel.hpp:259-262 | unlinks the handle iff it is still parked |
| Channel.Channel.CancelPush | include/condy/channel.hpp:441-449 | a winning cancel completes the push once with its item still in place; a losing one changes nothing |
| Channel.Channel.CancelPop | include/condy/channel.hpp:529-537 | the same for a pop |
| Channel.Channel.FailPops | include/condy/channel.hpp:334-353 | the first drain fails every parked pop once, in order; each handle holds EPIPE and no item |
| Channel.Channel.FailPushes | include/condy/channel.hpp:334-353 | the second drain fails every parked push once, in order; each handle holds EPIPE and still its item |
| Channel.Channel.PushClose | include/condy/channel.hpp:334-353 | close sets the flag, fails all waiters once, keeps the buffer, and is idempotent |
| Channel.Channel.Destroy | include/condy/channel.hpp:49-55 | the destructor closes and leaves no slot constructed |
| ChannelRuns.DoKeepsInv | include/condy/channel.hpp:226-362 | every operation keeps the queue, service-order and fate invariants, hence every internal assertion |
| ChannelRuns.DoKeepsReports | include/condy/channel.hpp:334-353 | every operation keeps the tie between reported outcomes and what was accepted, delivered or withdrawn |
| ChannelRuns.RunKeepsInv | include/condy/channel.hpp:102-121 | the invariants hold after every run of pushes, pops, forced pushes, cancels and closes |
| ChannelRuns.ChannelIsFifo | include/condy/channel.hpp:226-362 | over every run, the accepted items less those cancelled or cut off by close are, in lock order, the delivered ones followed by the buffer and the parked items; the i-th of them was received by the i-th successful pop |
| ChannelRuns.EveryCallHasOneFate | include/condy/channel.hpp:418-449 | at every moment each call is in exactly one state: push done, push parked, pop done, pop parked |
| ChannelRuns.OutcomesAreFinal | include/condy/channel.hpp:505-537 | a reported outcome never changes, whatever is called later |
| ChannelAnswers.ClosedExactly | include/condy/channel.hpp:334-353 | over every run, the channel is closed if and only if somebody has closed it, and panics if and only if a forced push comes after a close |
| ChannelAnswers.EveryPushIsAnswered | include/condy/channel.hpp:226-237 | every push of every run: EPIPE and nothing accepted once closed; 0 if a pop waits or there is room; otherwise EAGAIN for a non-waiting push, and a waiting or forced one is parked with its item |
| ChannelAnswers.EveryPopIsAnswered | include/condy/channel.hpp:244-257 | every pop of every run gets the front of the queue; with none, EPIPE once closed, and otherwise EAGAIN or it is parked |
| ChannelAnswers.EveryCancelIsAnswered | include/condy/channel.hpp:239-262 | a cancel of a parked push or pop takes it out and reports ECANCELED; any other changes nothing |
| ChannelAnswers.EveryCloseIsAnswered | include/condy/channel.hpp:334-353 | the first close leaves nobody parked, tells each of them EPIPE and keeps the buffer; a later one changes nothing |
| TaskLifecycle.StepKeepsInv | include/condy/detail/coro.hpp:178-288 | every load, store and compare-exchange, failed and spurious ones included, keeps the ownership invariant |
| TaskLifecycle.EveryRunIsSafe | include/condy/detail/coro.hpp:178-288 | for every interleaving: no panic arm, no access to a destroyed frame, at most one destruction and only after both sides are through, at most one callback and only for a join registered before completion |
| TaskLifecycle.QuiescentIsFinished | include/condy/detail/task.hpp:85-161 | when neither side can move, the frame is destroyed exactly once and the callback has been called exactly once iff a join was registered before completion |
| TaskLifecycle.StepMakesProgress | include/condy/detail/coro.hpp:178-288 | every step but an exchange marked to fail lowers a measure |
| TaskLifecycle.EveryRunEnds | include/condy/detail/coro.hpp:230-288 | without exchanges marked to fail every run ends within 34 steps in that finished state |
| RuntimeRuns.PerformKeepsOrderly | include/condy/runtime.hpp:142-194 | each loop action keeps the global queue empty once enabled, the local queue empty at the wait, and the counter exact |
| RuntimeRuns.PerformKeepsPlaces | include/condy/runtime.hpp:350-416 | start-up flush, pop, submit and reap neither lose nor duplicate a work item, a wake-up or a cancel; a reaped cancel becomes a request to the kernel |
| RuntimeRuns.SchedulePlaces | include/condy/runtime.hpp:52-58 | scheduling puts a work item in one more place and moves nothing else |
| RuntimeRuns.TakeLockKeepsInv | include/condy/runtime.hpp:66-79 | the second look at the flag under the mutex: global queue or message, never both, never neither |
| RuntimeRuns.LoopSendKeepsInv | include/condy/runtime.hpp:312-327 | a message through the sender's own ring is counted as pending from the moment it is queued |
| RuntimeRuns.DeliverKeepsInv | include/condy/runtime.hpp:386-403 | delivery moves the message to its target and owes the sender an acknowledgement |
| RuntimeRuns.StoreExitKeepsInv | include/condy/runtime.hpp:125-128 | an exit request stored by another thread has its wake-up still to come |
| RuntimeRuns.LinkKeepsInv | include/condy/futex.hpp:159-179 | a waiter that becomes visible before its wait is counted can be claimed and scheduled meanwhile without disturbing the count |
| RuntimeRuns.ClaimKeepsInv | include/condy/channel.hpp:418-438 | unlinking a waiter and scheduling it keeps it in exactly one place |
| RuntimeRuns.StepKeepsInv | include/condy/runtime.hpp:52-194 | every step of every loop, thread and kernel keeps the whole invariant |
| RuntimeRuns.WorkIsInOnePlace | include/condy/runtime.hpp:52-80 | over every run of any number of runtimes and threads, every work item is in exactly one place, has run at most once, and an enabled runtime's global queue is empty |
| RuntimeRuns.PendingIsExact | include/condy/runtime.hpp:103-111 | the pending counter is never negative and equals unfinished operations plus unacknowledged messages plus unfinished waits at every iteration; a runtime that leaves its loop has counter zero and no operation, message, acknowledgement or wait outstanding |
| RuntimeRuns.MessagesFindEnabledRings | include/condy/runtime.hpp:312-327 | a ring message, of a loop or of any other thread, is only ever on its way to an enabled ring |
| RuntimeRuns.NoExitIsSleptThrough | include/condy/runtime.hpp:330-348 | a loop at its wait with exit allowed and nothing pending has a wake-up queued, in flight, or still to be sent by the caller |
| RuntimeProgress.ServiceLowersRank | include/condy/runtime.hpp:175-193 | every step that only carries on with what was asked lowers a rank |
| RuntimeProgress.NothingIsStranded | include/condy/runtime.hpp:142-194 | from every reachable state the system comes to rest within that rank; then every work item of a runtime inside run() has run or is parked, work for others is kept for their next run, no call or message is under way and none is unread at a runtime inside run(); and no runtime waits with an exit due |
| RuntimeOrder.WorkRunsInOrder | include/condy/runtime.hpp:350-355 | of two work items in a runtime's queues, also across its start-up, the one in front runs first |
| RuntimeOrder.StartsUpOnce | include/condy/runtime.hpp:142-162 | the start-up that takes over the global queue is never repeated, and the ring stays enabled |
| RuntimePolling.RingIsPolled | include/condy/runtime.hpp:175-193 | over every run, a stretch in which a runtime does not look at its ring runs at most as many queued work items as the event interval |
| RuntimePolling.OneTickPerTurn | include/condy/runtime.hpp:175-186 | a runtime looks at its local queue once for each tick, before the next one |
| RuntimePolling.PolledEveryInterval | include/condy/runtime.hpp:170-180 | every run() starts counting at zero and looks at the ring on exactly every tick whose number is a multiple of the event interval |
| RuntimePolling.ReapsBeforeItGoesOn | include/condy/runtime.hpp:155-156 | a runtime that enters run() again or returns from its wait runs everything it had been told by then before its next turn |
| RuntimeRings.EveryCompletionIsHandled | include/condy/runtime.hpp:407-412 | over every run, every operation started is queued, with the kernel, or its last completion is queued or was handled exactly once; every other completion posted is queued or was handled exactly once |
| RuntimeRings.SubmissionsTakeEverything | include/condy/detail/ring.hpp:46-49 | a submission leaves nothing queued and hands it to the kernel in order |
| RuntimeRings.WakeUpsAreSubmitted | include/condy/runtime.hpp:330-348 | over every run, once cancel_internal or allow_exit has returned to a runtime's own thread, the wake-up or cancel it sent has been submitted |
| RuntimeCancels.StepConserves | include/condy/runtime.hpp:82-101 | every step leaves each cancel in its place, moves it on, or is its asking, its dropping or its execution |
| RuntimeCancels.EveryCancelIsAccountedFor | include/condy/runtime.hpp:386-406 | over every run, the cancels asked of a runtime for an operation are those in one place each, those its own kernel ring has carried out for that operation, and those dropped because its ring was not enabled |
| RuntimeCancels.NoCancelIsStranded | include/condy/runtime.hpp:404-406 | at rest, a cancel asked of a runtime inside run() is with the kernel, carried out, or was dropped; none is left in a call, a message or an unsubmitted entry |
| RuntimeExit.StepAndRequest | include/condy/runtime.hpp:171-174 | only leaving the loop clears an exit request, and only the exit test leads to leaving |
| RuntimeExit.RequestSurvivesExactly | include/condy/runtime.hpp:125-128 | over every run up to the loop's next exit test, a stored request is still there if and only if the loop was not already leaving when it was stored |
| RuntimeExit.LateRequestIsAbsorbed | include/condy/runtime.hpp:171-191 | the failing case: a request stored after the test is gone once the loop has left |
| RuntimeExit.LateRequestIsReachable | include/condy/runtime.hpp:125-194 | a run from a new runtime and one thread that reaches that case |
| RuntimeExit.LeavesOnlyIfAllowed | include/condy/runtime.hpp:188-191 | over every run, a runtime at its exit has an exit request |
| RuntimeExit.NeverStoredNeverLeaves | include/condy/runtime.hpp:125-128 | a runtime for which no exit request is ever stored never reaches its exit |
| RuntimeExit.NeverAskedNeverLeaves | include/condy/runtime.hpp:118-128 | a runtime whose allow_exit is never called never reaches its exit |
| WorkType.RoundTrip | include/condy/detail/work_type.hpp:29-40 | decoding gives back every aligned pointer with every tag |
| WorkType.EncodeIsInjective | include/condy/detail/work_type.hpp:17-31 | different tagged pointers are different words, so the four tags are told apart; the common tag leaves the pointer as it is |
| WorkType.DecodeIsInjective | include/condy/detail/work_type.hpp:34-40 | decoding tells any two words apart |
| WorkType.CancelCarriesTheOperation | include/condy/runtime.hpp:82-101 | a cancel message hands back exactly the word its operation was submitted with |
| WorkType.NullIsDistinct | include/condy/runtime.hpp:386-416 | a tagged null is told apart from every tagged object |
| Completion.FinishHandle.Handle | include/condy/detail/finish_handles.hpp:129-152 | calls made and end reported for one completion, and alive afterwards iff it did not delete itself |
| Completion.LegalStreamsCall | include/condy/detail/finish_handles.hpp:98-107 | on every stream the kernel allows, the calls are the earlier completions to the callback in order, then the receiver once, then for zero-copy the release once and the deletion |
| Completion.Drive | include/condy/detail/finish_handles.hpp:54-74 | handling such a stream never touches a deleted handle and reports the end exactly once, on the last completion |
| Completion.CleanExactly | include/condy/detail/finish_handles.hpp:129-152 | one receiver call, one release and one end on the last completion happen if and only if the stream is one the contract allows |
| Completion.FailureIsClean | include/condy/detail/op_states.hpp:59-64 | the hand-made completion of a failed start is accepted by all three handles |
| Combinators.StopKeeps | include/condy/detail/op_states.hpp:86-112 | a stop request reaches every nested any-node and leaf, and changes neither what has completed nor any result |
| Combinators.ReceiveKeeps | include/condy/detail/op_states.hpp:167-177 | a child's report keeps order, results, stop state and receiver count in step with the children |
| Combinators.ParallelState.ReceiveResult | include/condy/detail/op_states.hpp:311-320 | the in-place report follows that function and fires exactly on the last child |
| Combinators.StartKeeps | include/condy/detail/op_states.hpp:295-304 | starting a tree keeps the invariant although children complete, or are stopped by a sibling, during the start |
| Combinators.CompleteKeeps | include/condy/detail/op_states.hpp:139-177 | a leaf's completion, bubbling up through any number of nodes, keeps it |
| Combinators.EveryNodeFiresOnce | include/condy/detail/op_states.hpp:139-177 | for every tree, every set of synchronous completions and every later order: the receiver has been called iff all leaves are done and no link is empty, and then every node has fired exactly once with order a permutation and each result at its own index |
| Combinators.EarlierComesFirst | include/condy/detail/op_states.hpp:167-177 | every node, at any depth, lists its children in completion order, and its list only ever grows |
| Combinators.StartIsInOrder | include/condy/detail/op_states.hpp:295-304 | after start every node lists the children that completed inside it in the order they were started |
| Combinators.EmptyLinkNeverFires | include/condy/detail/op_states.hpp:382-393 | a link of no operations never calls its receiver, whatever happens later |
| Combinators.StopsReachExactly | include/condy/detail/op_states.hpp:86-112 | a running leaf has been asked to stop iff an any-node above it has seen a completion or the outer token was stopped |
| CombinatorResults.StartCompletes | include/condy/detail/op_states.hpp:295-304 | a tree has completed when start returns exactly if its leaves are stopped or synchronous as the order of starting and the any-nodes' stops make them |
| CombinatorResults.EveryLeafReportsItsOwn | include/condy/detail/op_states.hpp:32-64 | for every tree and run, a leaf has completed with ECANCELED if its token was stopped when it was started, else with its synchronous result, else with the result of its one completion event, else not at all |
| CombinatorResults.EveryValueIsHandedOn | include/condy/detail/op_states.hpp:216-238 | once its receiver has been called, a tree has handed over what it stands for: a leaf its result, an any-node index and value of the first child in, any other node the values of all children, each at its own index and nothing else |
| LinkChain.Ring.MaybeSubmit | include/condy/detail/ring.hpp:51-56 | submits exactly when the batch is full, and never moves a placed entry |
| LinkChain.Ring.ReserveSpace | include/condy/detail/ring.hpp:111-120 | for no more entries than the queue has: ends with room for them and submits only if there was none |
| LinkChain.Ring.ReserveWithin | include/condy/detail/ring.hpp:111-120 | for any number of entries, after any number of rounds: ended iff there was room or one submission made it; never for more entries than the queue has, with one more submission every round |
| LinkChain.Ring.GetSqe | include/condy/detail/ring.hpp:136-153 | yields a fresh entry, submitting first exactly when the queue is full |
| LinkChain.Ring.StartOp | include/condy/detail/op_states.hpp:33-56 | an unstopped operation gets one entry with its flags, a stopped one none |
| LinkChain.Ring.StartLink | include/condy/detail/op_states.hpp:382-393 | for a link that fits the queue, the n entries are neighbours in one submission, the first n-1 linked and the last not, if and only if none is stopped and the count after reserving plus n-1 is below the submit batch |
| LinkChain.StartLinkUnsplit | include/condy/detail/op_states.hpp:251-269 | with a batch at least the queue's size, as by default, a link of unstopped operations is never split |
| LinkChain.ChainExactly | include/condy/detail/op_states.hpp:382-393 | both directions of that condition, from where the entries went |
| BufferPool.TakeFollowsKernel | include/condy/provided_buffers.hpp:313-354 | the pool's walk over a completion ends at the head and remaining length the kernel has |
| BufferPool.TakeOwnsFinished | include/condy/provided_buffers.hpp:313-354 | the pieces that own a buffer are exactly the finished buffers, in order |
| BufferPool.TakeCoversBytes | include/condy/provided_buffers.hpp:313-354 | the pieces' lengths add up to the completion's result in incremental mode, and to the fewest whole buffers covering it otherwise |
| BufferPool.InteriorPointer | include/condy/provided_buffers.hpp:356-376 | an interior pointer maps back to its own buffer id |
| BufferPool.SlotsDiffer | include/condy/provided_buffers.hpp:284-289 | two positions of one window never share a slot, across the 16-bit wrap |
| BufferPool.WindowAppend | include/condy/provided_buffers.hpp:356-365 | storing at the tail extends the window by that id and disturbs no other |
| BufferPool.MaskedSlot | include/condy/provided_buffers.hpp:356-365 | the masked 16-bit tail is the slot of the unbounded position |
| BufferPool.Pool.constructor | include/condy/provided_buffers.hpp:256-292 | all ids 0 to n-1 start in the ring window, in order |
| BufferPool.Pool.TakeOne | include/condy/provided_buffers.hpp:313-354 | one turn of the loop: where the piece starts in its buffer, how long it is, and when the head moves on |
| BufferPool.Pool.TakeBytes | include/condy/provided_buffers.hpp:313-354 | the loop follows the value-level walk and takes exactly the used ids off the window |
| BufferPool.Pool.HandleFinish | include/condy/provided_buffers.hpp:313-354 | the cursor becomes the kernel's, and old window equals owned ids followed by new window |
| BufferPool.Pool.AddBufferBack | include/condy/provided_buffers.hpp:356-365 | the returned buffer's own id joins the window at its end |
| BufferPool.ManagedBuffer.Reset | include/condy/detail/buffers.hpp:58-65 | an owned buffer goes back to its pool once, and the object is empty afterwards |
| BufferPool.ManagedBuffer.MoveAssign | include/condy/detail/buffers.hpp:26-40 | ownership moves, the target's old buffer is returned, and self-assignment changes nothing |
| BufferPoolRuns.MirrorAgrees | include/condy/provided_buffers.hpp:313-354 | at the next completion the pool's head, remaining length and buffer id are the kernel's |
| BufferPoolRuns.HandleKeeps | include/condy/provided_buffers.hpp:313-354 | handling a completion keeps the mirror and the one-owner rule |
| BufferPoolRuns.GiveBackKeeps | include/condy/provided_buffers.hpp:356-376 | giving a buffer back never overfills the ring and keeps both |
| BufferPoolRuns.PoolMirrorsKernel | include/condy/provided_buffers.hpp:284-289 | over every run in plain, bundle and incremental mode, mirror plus unhandled completions gives the kernel's cursor, and every id is in exactly one of window and owners |
| BufferPoolBytes.TakeSpreads | include/condy/provided_buffers.hpp:328-351 | the pieces of one completion are exactly the bytes between the pool's cursor before and after it |
| BufferPoolBytes.EveryByteOnceInOrder | include/condy/provided_buffers.hpp:313-354 | over every run and in every mode, the pieces handed out, laid end to end, are the buffers in ring order, each from its first byte to its last, up to the pool's cursor |
| BufferPoolBytes.HandledWhereWritten | include/condy/provided_buffers.hpp:334-350 | a completion's first piece starts where the kernel began to write, in the buffer it named; a piece is owned iff it ends at the end of a buffer |
| BufferQueue.UseWholeBuffers | include/condy/provided_buffers.hpp:122-164 | without incremental use, the number used up is the least number of buffers covering the bytes |
| BufferQueue.UseIncrementally | include/condy/provided_buffers.hpp:122-164 | with it, exactly the fully consumed buffers are used up and the next is shortened by the rest |
| BufferQueue.UseIsConsumption | include/condy/provided_buffers.hpp:122-164 | in both modes the loop's outcome is the one consumption that the sums of the buffer lengths allow the kernel, and no other |
| BufferQueue.UseSingle | include/condy/provided_buffers.hpp:227-232 | a completion within one buffer uses up that buffer, or none if incremental and not exhausted |
| BufferQueue.UseLeavesBytes | include/condy/provided_buffers.hpp:122-164 | incremental use takes exactly the reported bytes off the outstanding total |
| BufferQueue.Queue.Push | include/condy/provided_buffers.hpp:105-117 | fails exactly when full, else fills the slot behind the window and returns its id |
| BufferQueue.Queue.UseBytes | include/condy/provided_buffers.hpp:122-164 | the loop ends and follows the value-level walk over the live window |
| BufferQueue.Queue.HandleFinish | include/condy/provided_buffers.hpp:122-164 | size drops by the number of buffers used up, and the rest stays live in order |
| BufferQueue.QueueTracksKernel | include/condy/provided_buffers.hpp:105-164 | over every run with a kernel that consumes by sums alone, pushes equal used-up buffers plus size, queue and kernel agree once all completions are handled, the next completion names the first live slot, and a push never reuses a live slot |
| BufferQueue.NothingPushedIsLost | include/condy/provided_buffers.hpp:105-164 | over every run, the queue's view and the kernel's are the buffers pushed less the finished ones, the first possibly shortened; in incremental mode bytes filled and bytes left add up to the bytes pushed |
| Futex.Futex.RequestWait | include/condy/futex.hpp:97-105 | parks at the end iff the word still has the expected value |
| Futex.Futex.NotifyOne | include/condy/futex.hpp:70-80 | wakes the longest-parked waiter once with result 0, if there is one |
| Futex.Futex.CancelWait | include/condy/futex.hpp:182-189 | reports ECANCELED iff it unlinked the waiter; a losing cancel changes nothing |
| Futex.Futex.NotifyAll | include/condy/futex.hpp:108-118 | when nothing comes in between, every parked waiter is reported once, in order, and none stays |
| Futex.Futex.TakeAll | include/condy/futex.hpp:109-113 | the mutex section of notify_all moves the whole list out |
| Futex.Futex.DrainOne | include/condy/futex.hpp:114-117 | one turn of the drain, with nothing between its accesses, reports the first waiter left |
| Futex.Futex.Destroy | include/condy/futex.hpp:41-41 | the destructor reports EIDRM to every waiter still parked |
| Futex.Futex.CancelDrained | include/condy/futex.hpp:182-189 | between two pops, a cancel of a waiter being drained loses if it is the last one left, wins properly if it has neighbours on both sides, and otherwise tears the two lists; at the head it is reported and still next to be drained |
| FutexRuns.DoKeeps | include/condy/futex.hpp:70-118 | on lists, every call and every access of a drain keeps every wait in exactly one place or outcome |
| FutexRuns.NotifiedInOrder | include/condy/futex.hpp:70-80 | without notify_all, uncancelled waiters are scheduled in parking order, over every run |
| FutexRuns.FirstToUnlinkWins | include/condy/futex.hpp:182-189 | notify, drain and cancel race: once a waiter is scheduled, a later cancel finds it nowhere and changes nothing |
| FutexRuns.WaitsReturnExactly | include/condy/futex.hpp:97-105 | over every run, a wait returns at once if and only if the value stored last differs from the one it expects |
| FutexRuns.EveryAnswerIsEarned | include/condy/futex.hpp:70-118 | over every run, a waiter is told 0 by notify_one, the result of a notify_all, or ECANCELED by its own cancel, and nothing else |
| FutexLinks.TurnAgrees | include/condy/detail/intrusive.hpp:134-148 | each of the four accesses of a drain's pop_front leaves next, prev and head links that describe the lists after it |
| FutexLinks.TakenOutAgrees | include/condy/detail/intrusive.hpp:150-171 | removing a drained waiter that has another before it closes the drain's chain, also in the middle of a pop; at the end of the list the futex's tail becomes the waiter before it |
| FutexLinks.StepAgrees | include/condy/futex.hpp:70-118 | every call but a failing cancel acts on the links, heads and tails as it does on the lists |
| FutexLinks.EveryWaitHasOneFate | include/condy/futex.hpp:70-118 | over every run without a failing cancel, with any number of drains in progress, the links describe the lists, each wait has returned at once, is parked, is being drained or was scheduled exactly once, and at rest none is left |
| FutexCancels.HeadEndsTwice | include/condy/futex.hpp:108-118 | cancelling the next waiter of a drain: the drain still takes it for its head and reports it again |
| FutexCancels.PoppedEndsTwice | include/condy/futex.hpp:108-118 | cancelling the waiter being popped: the pop ends and reports it again |
| FutexCancels.NextEndsTwice | include/condy/detail/intrusive.hpp:118-171 | with a stranger for its tail and nobody parked: the next waiter stays the head when it is cancelled and is notified again |
| FutexCancels.NextIsLost | include/condy/detail/intrusive.hpp:118-148 | with a stranger for its tail and others parked: the next waiter is in no list, and never ends |
| FutexCancels.CancelIsHarmlessExactly | include/condy/futex.hpp:92-95 | from every state in which the links describe the lists: after the cancel, every run of ordinary calls ends no wait twice and loses none, if and only if the cancel is not a failing one |
| FutexCancels.RunIsHarmlessExactly | include/condy/futex.hpp:70-118 | throughout a run and in every continuation of it by ordinary calls no wait ends twice and none is lost, if and only if no call of the run is a failing cancel |
| FutexCancels.NotifyAllIsSafeExactly | include/condy/futex.hpp:108-118 | no moment of a drain is wrong for cancelling one of its waiters, if and only if it moved out at most one |
| FutexCancels.CancelledDuringAPop | include/condy/futex.hpp:108-118 | three waiters, the second cancelled while the first is being popped: the second ends twice and the third never |
| FutexCancels.CancelledAtTheHead | include/condy/futex.hpp:108-118 | two waiters, the first cancelled: it ends twice |
| FutexCancels.CancelledAtTheTail | include/condy/futex.hpp:108-118 | two waiters, the last cancelled: the futex's next waiter, cancelled too, is notified again |
| FutexMutex.StepKeepsInv | examples/queue-condy-futex.cpp:27-40 | every step of every coroutine keeps exclusion, queue and wake-up invariants |
| FutexMutex.MutualExclusionWithoutLostWakeups | examples/queue-condy-futex.cpp:27-40 | for any number of coroutines and every run, at most one holds the lock, and a free lock with waiters has someone on its way to notify or to retry |
| FutexMutex.StepMakesProgress | examples/queue-condy-futex.cpp:27-40 | every step that is neither an arrival nor a spurious failure lowers a lexicographic rank |
| FutexMutex.StuckIsIdle | include/condy/futex.hpp:70-105 | if nothing can move, the lock is free, nobody waits and everyone is outside |
| FutexMutex.EveryWaiterIsServed | examples/queue-condy-futex.cpp:27-40 | without new arrivals every run is bounded and ends with every waiter served |
| FutexMutex.WaitersAreServedInOrder | include/condy/futex.hpp:70-105 | over every run, those who waited and those who began to wait, in order, are those woken, in order, followed by those who still wait |
| CondQueue.StepServed | examples/queue-condy-futex.cpp:57-74 | every step keeps the wake-up count of both condition variables: raising a generation, popping a sleeper whose generation is old or current, going to sleep |
| CondQueue.StepLockServed | examples/queue-condy-futex.cpp:27-40 | every step keeps a free lock with waiters from being forgotten |
| CondQueue.StepSound | examples/queue-condy-futex.cpp:91-110 | push stays below the capacity and front meets an item |
| CondQueue.StepKeepsInv | examples/queue-condy-futex.cpp:57-110 | every step of every producer and consumer keeps the whole invariant |
| CondQueue.CondQueueIsSafe | examples/queue-condy-futex.cpp:81-118 | for any number of producers and consumers and every run, the queue stays within its capacity, front never meets an empty queue, the items taken are the first of those offered, one for each consumer's access, one worker at a time is inside the lock, and every unit a sleeper waits for has somebody who will test for it or has yet to announce it |
| CondQueueProgress.StuckIsNotStranded | examples/queue-condy-futex.cpp:91-110 | if nobody can move, whoever is left sleeps at an empty or full queue and the other side has finished; with balanced totals everybody has finished |
| CondQueueProgress.GoMakesProgress | examples/queue-condy-futex.cpp:57-110 | every step lowers a rank of three levels |
| CondQueueProgress.NobodyIsStranded | examples/queue-condy-futex.cpp:81-135 | runs without spurious failures are bounded, and one that cannot be extended has stranded nobody |
| CondQueueOrder.WaitersAreServedInOrder | include/condy/futex.hpp:70-105 | while a worker waits, for the lock or on a condition, nobody who began to wait after it is served, and nobody gets in front of it |
| BoundedQueue.AddDoesNotWrap | examples/queue-kernel-futex.cpp:40-87 | a semaphore release never wraps its 32-bit count |
| BoundedQueue.AccessFindsItem | examples/queue-kernel-futex.cpp:118-152 | a consumer at its access finds the queue non-empty |
| BoundedQueue.StepKeepsInv | examples/queue-kernel-futex.cpp:40-87 | every step of every producer and consumer keeps the permit books, the lock and the wake-up invariant |
| BoundedQueue.BoundedBufferIsSafe | examples/queue-kernel-futex.cpp:118-152 | for any number of producers and consumers and every run, permits free, ready and held sum to the capacity, the queue never exceeds it, the items taken are the first of those offered, one for each consumer's access, and one worker at a time is at the queue |
| BoundedQueue.StuckIsDone | examples/queue-kernel-futex.cpp:118-152 | if nothing can move, every item has been consumed and nobody has work left |
| BoundedQueue.EveryItemIsConsumed | examples/queue-kernel-futex.cpp:118-152 | runs without spurious returns are bounded and end with every item consumed |
| PrimeFs.IsPrime | examples/fuse-prime-fs.cpp:427-437 | true iff prime, for every 64-bit number, with the wrapping square in the loop condition |
| PrimeFs.ExitIsPrime | examples/fuse-prime-fs.cpp:427-437 | leaving the loop by the wrapped comparison still proves the number prime |
| PrimeFs.EndsEarly | examples/fuse-prime-fs.cpp:427-437 | for a number without divisors the loop ends before reaching the number, despite the wrap |
| PrimeFs.IsDir | examples/fuse-prime-fs.cpp:439-445 | directory iff root or not prime |
| PrimeFs.ReadDir | examples/fuse-prime-fs.cpp:361-402 | the reply is the stretch of entries from offset + 2, below the root's number or the directory's own, that fits the reply size; an error iff the node is prime and not the root |
| PrimeFs.PageIsListing | examples/fuse-prime-fs.cpp:384-402 | a reply is consecutive entries, cut short only for want of room |
| PrimeFs.PageTells | examples/fuse-prime-fs.cpp:391-400 | every entry of a reply has the next number, its decimal name, directory iff the root's number or not prime, and the offset at which a read resumes with the number after it |
| PrimeFs.DigitsSpell | examples/fuse-prime-fs.cpp:394-394 | the name spells the number in decimal without leading zeros |
| PrimeFs.RecordIsPadded | examples/fuse-prime-fs.cpp:376-376 | a record holds its name and is padded to the next multiple of eight bytes |
| PrimeFs.ReadsAreConsecutive | examples/fuse-prime-fs.cpp:361-402 | reads that resume from the last offset list consecutive entries without gap or repeat, from any entry on and whatever the sizes |
| PrimeFs.PagingIsComplete | examples/fuse-prime-fs.cpp:361-402 | repeated reads list every number from 2 up to the bound exactly once in order if and only if there is none or the longest record fits |
| PrimeFs.LowEntriesExactly | examples/fuse-prime-fs.cpp:391-400 | a reply holds an entry below 2 if and only if the offset is 2^64 - 2 or more and the wrapped entry is below the bound and fits |
| PrimeFs.WrappedOffsetLists | examples/fuse-prime-fs.cpp:391-400 | the replies to the last two offsets, which list 0 and 1 |

## Left out

- Weak memory: every atomic is sequentially consistent, so the relaxed and acquire/release orders are not justified here.
- The kernel: its behaviour is an assumption, listed above.
- Futex.Futex.NotifyAll: for a drain that nothing interrupts; FutexLinks has the interrupted one.
- Futex.Futex.DrainOne: the pop as one step, for the same reason.
- Futex.Futex.CancelDrained: a cancel between two pops; FutexLinks has the one in the middle of a pop.
- FutexLinks.EveryWaitHasOneFate: a remove is one step. A drain's access that falls inside one, a data race on plain fields that C++ leaves undefined, is not modelled.
- FutexCancels.RunIsHarmlessExactly: at that granularity. Ordinary calls are all but notify_all and the cancels of waiters already there; a waiter's links stay readable after it has ended.
- IntrusiveList.DoubleLinkList.Remove: for an entry in this list or detached; RemoveElsewhere has the other case.
- Channel.Channel.constructor: capacity up to 2^63, the largest value whose rounding up to a power of two fits 64 bits.
- BufferPool.Pool.constructor: at most 2^15 buffers, the kernel's limit for a buffer ring.
- RuntimeRuns.PerformKeepsOrderly: the pending counter is an unbounded integer, and running out of completion-queue space is not modelled.
- LinkChain.Ring.ReserveSpace: at most as many entries as the queue has; beyond that the code does not return, as ReserveWithin states.
- LinkChain.Ring.StartLink: a link that fits the queue, for the same reason; no SQPOLL, no 128-byte entries, no nested links, and no stop request that arrives between an operation's stop test and its submission.
- The when_any of no operations, which the code rejects when it is built.
- Combinators.EveryNodeFiresOnce: a stop request is taken not to complete any operation before it returns.
- FutexMutex: a lock that is cancelled while it waits.
- CondQueue.CondQueueIsSafe: the generation counter is unbounded, so a waiter that sleeps through exactly 2^32 notifications is not modelled; popping a waiter and scheduling it is one step; notify_all of the condition variable, which the queue does not call.
- The awaiter that starts a sender and resumes its coroutine, which one thread owns throughout.
- Exceptions, allocators, type traits, std::execution adapters and option validation: no protocol state.
- Async operation wrappers, ring settings, fd and buffer tables, zero-copy receive, benchmarks and the server examples: thin wrappers and I/O programs.
