# io-event: a verified model

io-event lets fibers wait for descriptors, completions, timers and worker threads while one loop fiber resumes them.
Its difficulty is re-entrancy: resuming a fiber in the middle of an iteration can register, cancel, push or close
anything. This project models the parts where that matters and proves what they rely on, for every such behaviour.

A resumed fiber is a finite script of the operations it may perform; laws hold for all scripts. The kernel, the
condition variables and other threads are nondeterministic: they are actions of a transition system, or parameters
such as the replies of `read`. Each part has a model on values and, where the source rewires pointers, a second module
with classes, fields and loops like the source's whose methods are proved to compute exactly what the model says, and
say on their fields what that is. What an operation does is bounded from both sides: who is served and who is left
alone, what is asked for and that nothing else is, that nothing goes wrong and that somebody goes on.

| part | model and laws | linked structures |
|---|---|---|
| io_uring completion slots | `CompletionSlots`, `CompletionService` | `CompletionPool` |
| EPoll and KQueue dispatch | `Interest`, `Dispatch`, `DispatchInterest` | `EventList`, `EventDescriptor` |
| worker pool | `WorkerPool`, `WorkerProgress` | `WorkQueue` |
| cross-thread wakeup | `Wakeup` | |
| timers | `TimerReference`, `TimerConservation` | `PriorityHeap`, `Timers` |
| ready queue | `ReadyQueue`, `TombstoneQueue` | `LinkedQueue` |
| pure Ruby select | `SelectWaiters`, `SelectRounds` | `SelectTable` |
| read loops | `ReadLoop` | `ReadLoop` |
| element array | `EventArray` | `EventArray` |

Numbers identify waiters, entries and items in the models; they are given out in order and never reused. In the linked
modules the structures on fiber stacks are objects, and a map or sequence of "frames" stands for the stacks that hold
them.

Eight statements one might expect are false of the code; what holds instead is proved, with the exact condition:

- The kernel has the recorded mask after a handle call if and only if the final update did not take its early return
  for a descriptor that was closed after the kernel had accepted that very mask (`Dispatch.HandleCovers`, and
  `Dispatch.ClosedDescriptorIsNotCovered` for a concrete call). `Dispatch.ServedExactly` lifts that condition to whole
  runs.
- An update without a fault leaves the kernel with exactly the recorded mask if and only if it is not one for an empty
  mask and an IO other than the registered one, whose entry the kernel still has (`DispatchInterest.UpdateExactly`,
  `DispatchInterest.StaleEntryStays`).
- A flush of the ready queue is limited to what was queued at its start if and only if the newest of those entries is
  reached or nothing else is queued by then (`ReadyQueue.FlushResumesOnlyOld`, `ReadyQueue.FlushHasNoBound`).
- A resize of the element array meets the request if and only if the array was not empty or the request is at most
  128 (`EventArray.EventArray.Grow`, `EventArray.EmptyArrayFallsShort`), although its comment promises it always.
- The pool of completion slots stays within the peak of what is in use if and only if no submission finds exactly one
  free slot, which the list test takes for none (`CompletionSlots.PoolExceedsPeak`,
  `CompletionSlots.OneSlotMoreThanThePeak`); it never exceeds the peak by more than one
  (`CompletionSlots.AllocationIsBounded`).
- The pure Ruby selector loses a wakeup when it sets its flag if and only if a thread pushed after the ready check, no
  thread is still to call `wakeup`, and no byte is left in its pipe (`Wakeup.RubySelectLosesExactly`,
  `Wakeup.RubySelectCanLoseAWakeup`).
- A call of the worker pool need not return: the calls made so far still can if and only if nothing is queued, or the
  pool is not shut down and has a worker that was never interrupted (`WorkerProgress.ServedExactly`).
- The read loop of the pure Ruby selector has the outcome of the others if and only if it is not the case that a read
  without room may report an error, the buffer was filled short of the length, and an error comes next
  (`ReadLoop.SelectRead`, `ReadLoop.FilledBufferCanFail`).

What callbacks schedule waits for the next `fire` as long as no callback asks for the size or the wait interval, which
flush (`TimerReference.FireDefersNewTimers`); when one does, a `fire` follows it for as long as callbacks go on
(`TimerReference.FireFollowsFlushes`). What holds in any case is `TimerReference.FireCallsExactlyTheDue`.

`dafny verify dfyconfig.toml` checks everything.

## Model

| member | source | states |
|---|---|---|
| `CompletionSlots.RunKeepsInv` | ext/io/event/selector/uring.c:176-228 | Every state reached from a sound one by any sequence of submissions, early leaves (with or without cancel), kernel completions, processed entries and blocking waits is sound: links are mutual, every slot is in one place, requests belong to the waiter their slot points to |
| `CompletionSlots.WaitingFiberIsServed` | ext/io/event/selector/uring.c:1332-1356 | Processing a completion delivers its result to the submitter exactly if that is still waiting |
| `CompletionSlots.NotInFlight` | ext/io/event/selector/uring.c:181-188 | The slot an operation acquires points to nobody and is carried by no request and no completion |
| `CompletionSlots.EverySlotHasOnePlace` | ext/io/event/selector/uring.c:1302-1362 | In every run each slot ever allocated is in exactly one of the free list, the kernel and the completion queue, so it is not reused before its own completion was processed |
| `CompletionSlots.ResultsReachTheirSubmitter` | ext/io/event/selector/uring.c:1329-1356 | In every run a result reaches the waiter that submitted the operation or nobody, each waiter at most once, and never as -ECANCELED (the assertion at line 1346) |
| `CompletionSlots.NothingAfterLeaving` | ext/io/event/selector/uring.c:714-729 | Once a fiber has left its wait, no later step delivers anything to its waiter |
| `CompletionSlots.CancelHitsItsOwn` | ext/io/event/selector/uring.c:717-724 | A cancel request, which names only a slot, marks no request but one of the waiter that leaves |
| `CompletionSlots.AllocationIsBounded` | ext/io/event/selector/uring.c:176-195 | At every point of every run there is an earlier or present moment at which at most one of the slots allocated by now was not in use, so the allocation exceeds the peak by at most one |
| `CompletionSlots.PoolExceedsPeak` | ext/io/event/selector/uring.c:176-195 | In every run: more slots are allocated than were in use at any moment so far if and only if some submission found exactly one free slot, which the list test takes for none |
| `CompletionSlots.StepAllocates` | ext/io/event/selector/uring.c:181-188 | A step allocates a slot exactly for a submission that finds fewer than two free ones, and once a slot is free one stays free |
| `CompletionSlots.OneSlotMoreThanThePeak` | ext/io/event/selector/uring.c:181-188 | A concrete such run: two operations one after the other allocate two slots although one is in use at a time |
| `CompletionSlots.StepKeepsInv` | ext/io/event/selector/uring.c:176-228 | Each step by itself keeps the ownership invariant |
| `CompletionSlots.SubmitKeepsInv` | ext/io/event/selector/uring.c:176-195 | Acquiring a slot and submitting with it keeps the invariant, whether the slot is new or comes from the free list |
| `CompletionSlots.CancelKeeps` | ext/io/event/selector/uring.c:714-729 | Leaving with a cancel request keeps it: what the request marks no longer belongs to anybody |
| `CompletionSlots.DetachKeeps` | ext/io/event/selector/uring.c:604-614 | Leaving without a cancel request (process waiting) keeps it |
| `CompletionSlots.ProcessKeepsInv` | ext/io/event/selector/uring.c:1313-1357 | Processing the entry at the head of the completion queue keeps it, including entries of waiters that left |
| `CompletionSlots.BlockKeepsInv` | ext/io/event/selector/uring.c:1275-1280 | At most one interrupt read is outstanding, so its buffer has one writer |
| `CompletionService.EveryFiberIsServedUnlessItLeft` | ext/io/event/selector/uring.c:714-729 | At every moment of every run, each fiber that has submitted an operation either left while it was in progress, and was given nothing, or its operation is with the kernel or in the queue and nobody asked to cancel it, or it was given a result |
| `CompletionService.ResultArrives` | ext/io/event/selector/uring.c:1302-1362 | A waiting fiber whose operation has completed is given the result of its own entry once the loop has processed the entries before it and that one |
| `CompletionService.LeaveCancels` | ext/io/event/selector/uring.c:714-729 | What leaving changes, for every state and without the model function: one cancel request more and the marks on the operations of this fiber, exactly if it still waits and cancels; its two links; nothing else |
| `CompletionService.ProcessDelivers` | ext/io/event/selector/uring.c:1313-1357 | What processing an entry changes: the result goes to the fiber that submitted the operation, exactly if that still waits, and the slot is first on the free list |
| `CompletionService.SubmitStarts` | ext/io/event/selector/uring.c:176-195 | What a submission changes: the slot is the first free one, or a new one when fewer than two are free; nothing else carries it; the kernel holds one operation more |
| `CompletionService.FinishMoves` | ext/io/event/selector/uring.c:1302-1330 | A completed request leaves the kernel and is, with its result, the last entry of the queue |
| `CompletionService.BlockListens` | ext/io/event/selector/uring.c:1271-1280 | Before the loop blocks exactly one interrupt read is outstanding |
| `CompletionPool.Selector.Acquire` | ext/io/event/selector/uring.c:176-195 | On linked slots: pops the first free slot unless the list test calls the list empty, else allocates one; slot and record point at each other |
| `CompletionPool.Selector.Submit` | ext/io/event/selector/uring.c:752-783 | The kernel gets one request more, which names the slot and the waiter that now point at each other |
| `CompletionPool.Selector.WaitingCancel` | ext/io/event/selector/uring.c:217-228 | Slot and record forget each other and the record forgets its fiber; nothing else changes |
| `CompletionPool.Selector.Leave` | ext/io/event/selector/uring.c:714-729 | The ensure of a wait, on the ring: if the operation is still attached and `cancel` holds the kernel gets one entry more, a cancel request, and marks the operations of this fiber where they are and nothing else; otherwise it gets nothing. Slot and record forget each other |
| `CompletionPool.Selector.Release` | ext/io/event/selector/uring.c:208-215 | The slot loses its waiter and becomes the first of the free list |
| `CompletionPool.Selector.Process` | ext/io/event/selector/uring.c:1313-1357 | The head of the queue leaves it; exactly the attached fiber is resumed, with the result of that entry; the slot is then first on the free list and points to nobody; the interrupt read may be submitted again if that is what completed |
| `CompletionPool.Selector.Block` | ext/io/event/selector/uring.c:1271-1280 | The kernel gets one interrupt read, exactly if none is outstanding, and then one is |
| `CompletionPool.Selector.PopFree` | ext/io/event/selector/uring.c:181-183 | The sentinel is never popped: the node taken is that of the first free slot, and the rest stays linked in order |
| `EventList.Append` | ext/io/event/list.h:29-40 | The node is linked before the given one, for any place in the ring |
| `EventList.Prepend` | ext/io/event/list.h:42-53 | The node is linked after the given one, for any place in the ring |
| `EventList.Pop` | ext/io/event/list.h:55-67 | The node leaves from any place; its links are cleared and the others stay in order |
| `EventList.Empty` | ext/io/event/list.h:91-94 | The test holds exactly when the list has at most one item |
| `EventList.PopUndoesInsertion` | ext/io/event/list.h:29-67 | A node linked in at any place of a ring and unlinked again leaves every other node with the links it had |
| `EventList.LinkedBetween` | ext/io/event/list.h:29-53 | Setting the four links of an insertion makes the longer ring, whatever its length and the place |
| `Interest.UpdateSynchronises` | ext/io/event/selector/epoll.c:214-269 | After an update the recorded mask is the wanted one unless it failed, and the kernel has it when the descriptor is still the registered one, including the ENOENT and EEXIST retries |
| `DispatchInterest.UpdateExactly` | ext/io/event/selector/epoll.c:214-269 | An EPoll update without a fault records the mask asked for and leaves the kernel with exactly that, no entry for an empty one or for one that a close undid, if and only if it is not an empty mask for an IO other than the registered one, whose entry the kernel still has |
| `DispatchInterest.StaleEntryStays` | ext/io/event/selector/epoll.c:223-240 | A concrete such update: nothing is asked for the new IO, and the entry of the earlier one stays in the kernel |
| `DispatchInterest.UpdateOutcome` | ext/io/event/selector/epoll.c:214-269 | An update fails if and only if there is something to ask for, it is not what is registered already, and the kernel refuses it; the retries leave no other failure |
| `DispatchInterest.HandleWants` | ext/io/event/selector/epoll.c:951-980 | Before its update a handle call asks for an event if and only if a listed waiter that it kept wants it or a fiber it resumed registered for it: the interest starts from nothing |
| `DispatchInterest.PassWants` | ext/io/event/selector/epoll.c:954-980 | The same for a pass from any point: nothing is asked for but what was before, what the kept waiters want and what resumed fibers registered |
| `DispatchInterest.EPollHandleExactly` | ext/io/event/selector/epoll.c:938-983 | After an EPoll handle call in which nothing fails, and either nobody closes the descriptor or registrations name events, the kernel holds exactly that interest: no entry if it is empty, and none if the early return meets what a close undid |
| `DispatchInterest.QuietHandleExactly` | ext/io/event/selector/epoll.c:938-983 | If the resumed fibers do nothing to the descriptor, the waiters left are those that did not match, and exactly what they want is in the kernel (EPoll) or newly armed (KQueue) |
| `DispatchInterest.KQueueHandleExactly` | ext/io/event/selector/kqueue.c:934-947 | After a KQueue handle call whose update does not fail exactly the filters of that interest are newly armed |
| `DispatchInterest.KernelStaysExact` | ext/io/event/selector/epoll.c:214-286 | Over every EPoll run in which nothing fails and registrations name events, the kernel entry is exactly the recorded mask |
| `DispatchInterest.RegisterExactly` | ext/io/event/selector/epoll.c:271-286 | A registration without a fault asks for what was asked for and what the new waiter wants, no more, and the kernel has it |
| `DispatchInterest.RunCancels` | ext/io/event/selector/epoll.c:288-293 | Whoever running fibers cancel, of the waiters that were there, is not listed afterwards, on whichever side of the cursor |
| `DispatchInterest.DeliveredOnce` | ext/io/event/selector/kqueue.c:956-962 | A one-shot filter is delivered once for each time it is armed |
| `Dispatch.PassVisits` | ext/io/event/selector/epoll.c:954-980 | The placeholder loop, for every behaviour of the resumed fibers: exactly the waiters present at the start and not cancelled before their turn are visited, once, in order, and resumed exactly when their events meet the ready ones |
| `Dispatch.VisitedAtMostOnce` | ext/io/event/selector/epoll.c:954-980 | No waiter is visited twice, and none that registered during the pass |
| `Dispatch.PassKeeps` | ext/io/event/selector/epoll.c:946-980 | Throughout a pass numbers stay distinct, the interest covers every waiter behind the cursor, and the list evolves only by resumption, cancellation and registration |
| `Dispatch.HandleVisitsAndKeeps` | ext/io/event/selector/epoll.c:938-983 | One handle call: who was visited, that the remaining list is the old one without those resumed or cancelled, in order, behind newer waiters, and that the interest covers all of it |
| `Dispatch.RegisterCovers` | ext/io/event/selector/epoll.c:271-286 | After a registration that succeeds the kernel mask is the recorded one and covers the events of every listed waiter |
| `Dispatch.HandleCovers` | ext/io/event/selector/epoll.c:951-982 | After a handle call that succeeds the recorded mask covers every listed waiter. If it is not empty, the kernel has it if and only if the final update did not meet, after a close, the very mask the kernel had accepted before, for which it returns early at lines 215-219 |
| `Dispatch.OpenDescriptorsStayCovered` | ext/io/event/selector/epoll.c:938-983 | If no callback closes the descriptor the kernel watches for everything the remaining waiters want, however callbacks shrank the mask meanwhile |
| `Dispatch.ClosedDescriptorIsNotCovered` | ext/io/event/selector/epoll.c:214-221 | A concrete pass in which a callback registers and the descriptor is then closed: the update finds nothing to do and the kernel watches for nothing |
| `Dispatch.EveryRunSettles` | ext/io/event/selector/epoll.c:271-293 | From an empty descriptor, any sequence of fiber actions, handle calls and deliveries ends in a state to which the laws of one call apply |
| `Dispatch.HandleWatches` | ext/io/event/selector/epoll.c:938-983 | After a handle call that succeeds the kernel watches for everything the listed waiters want if and only if the final update does not meet, after a close, the very mask the kernel had accepted before, or nobody is left who wants anything |
| `Dispatch.CloseUnwatches` | ext/io/event/selector/epoll.c:214-269 | After a close the kernel watches for everything listed waiters want if and only if they want nothing |
| `Dispatch.KernelStaysWatching` | ext/io/event/selector/epoll.c:214-286 | Over every EPoll run in which handle calls succeed and meet that condition, and descriptors are closed outside them only while listed waiters want nothing: the kernel watches for everything the listed waiters want. Callbacks may close |
| `Dispatch.ServedExactly` | ext/io/event/selector/epoll.c:214-286 | Over every run of single actions and handle calls that succeed, EPoll or KQueue: the listed waiters are watched for (armed or delivered) at all times if and only if every step meets those conditions |
| `Dispatch.KQueueHandleVisitsAndKeeps` | ext/io/event/selector/kqueue.c:905-948 | The KQueue handle call visits and keeps in the same way for the collected events, and does nothing when there are none |
| `Dispatch.HandleArms` | ext/io/event/selector/kqueue.c:934-947 | A KQueue handle call whose kevent succeeds re-arms everything the remaining waiters want |
| `Dispatch.CloseDisarms` | ext/io/event/selector/kqueue.c:200-253 | The exact effect of closing a descriptor: what listed waiters want stays armed or delivered if and only if all they want to read and write was delivered already |
| `Dispatch.FiltersStayArmed` | ext/io/event/selector/kqueue.c:200-265 | Over every run in which handle calls succeed, and outside them a descriptor is closed only when all that listed waiters want to read and write was delivered: what they want of read, write and exit events is armed in the kernel or delivered and unhandled. Callbacks may close it freely |
| `Dispatch.DeliveriesMerge` | ext/io/event/selector/kqueue.c:956-962 | Collecting the kevents of a batch is collecting their union |
| `Dispatch.BatchVisitsOnce` | ext/io/event/selector/kqueue.c:950-975 | Several kevents for one descriptor in a batch: its waiters are visited once, with the union of the events, by the first entry; later entries resume nobody |
| `EventDescriptor.Descriptor.UpdateEPoll` | ext/io/event/selector/epoll.c:214-269 | The field-by-field update computes the specified state and result |
| `EventDescriptor.Descriptor.Changes` | ext/io/event/selector/kqueue.c:200-236 | The change list has at most three entries, one for each wanted event that has a filter |
| `EventDescriptor.Descriptor.UpdateKQueue` | ext/io/event/selector/kqueue.c:200-253 | That list is submitted once if it is not empty, and the state and result are as specified |
| `EventDescriptor.Descriptor.Register` | ext/io/event/selector/epoll.c:271-286 | On the linked list: the interest grows by the events, the kernel has all of it, and the record becomes the first of the list; unless that failed, which takes a fault |
| `EventDescriptor.Descriptor.Cancel` | ext/io/event/selector/epoll.c:288-293 | The record leaves the list from either side of the cursor |
| `EventDescriptor.Descriptor.Mark` | ext/io/event/selector/epoll.c:967-969 | The placeholder is linked before the node at the cursor |
| `EventDescriptor.Descriptor.Unmark` | ext/io/event/selector/epoll.c:975-976 | The cursor moves to whatever follows the placeholder, which leaves the list |
| `EventDescriptor.Descriptor.Resume` | ext/io/event/selector/epoll.c:971-973 | The resumed fiber unlinks its own record and then acts; the list is what the model says |
| `EventDescriptor.Descriptor.Handle` | ext/io/event/selector/epoll.c:938-983 | The pointer loop, for every sequence of scripts of resumed fibers: it terminates and refines the dispatch model; afterwards exactly those events are asked for that a kept waiter wants or a resumed fiber registered for; if nothing fails the kernel entry is exactly that; if no fiber acts it is exactly what the waiters left want |
| `EventDescriptor.Descriptor.KQueueHandle` | ext/io/event/selector/kqueue.c:905-948 | The same for KQueue, with the collected events taken first: none are left, and the filters armed are exactly those wanted; nothing happens when there are none |
| `EventDescriptor.Descriptor.Collect` | ext/io/event/selector/kqueue.c:956-962 | A delivered one-shot filter moves from armed to ready |
| `EventDescriptor.Leaves` | ext/io/event/selector/epoll.c:288-293 | Wherever a record stands, unlinking it leaves lists that stand for the model without its waiter |
| `WorkerPool.RunKeepsInv` | ext/io/event/worker_pool.c:164-221 | Over every run of calls, checks, executions, completions, wakeups, interrupts and shutdown: ownership of items is exclusive, items leave the queue first in first out, each is executed before it completes and once |
| `WorkerPool.RunKeepsWakeups` | ext/io/event/worker_pool.c:147-185 | Over every run: while a worker is parked, the queue is no longer than the number of woken, uninterrupted workers that have not looked again |
| `WorkerPool.EveryItemHasOnePlace` | ext/io/event/worker_pool.c:124-144 | Every item is in exactly one of the queue, the hands of one worker, and the completed ones |
| `WorkerPool.ExecutedAtMostOnce` | ext/io/event/worker_pool.c:164-197 | No item is executed twice, and a completed one was executed once |
| `WorkerPool.ReturnedItemsAreUnreferenced` | ext/io/event/worker_pool.c:354-383 | Once call has returned, no worker and no queue link refers to its stack item, and the item is completed |
| `WorkerPool.SomeoneTakesTheNextItem` | ext/io/event/worker_pool.c:172-183 | Whenever a worker sleeps on a non-empty queue, there is a woken worker whose next look takes its front |
| `WorkerPool.ShutdownDrains` | ext/io/event/worker_pool.c:405-430 | After shutdown no step takes a worker further from its exit, each step of its own brings it nearer, and the queue is left as it is |
| `WorkerPool.NothingHeldAfterClose` | ext/io/event/worker_pool.c:405-440 | When all workers have exited, every dequeued item is completed and none is held |
| `WorkerPool.StepKeepsWakeups` | ext/io/event/worker_pool.c:147-185 | Each step keeps the wakeup bound, including spurious wakeups, interrupts and shutdown |
| `WorkerProgress.RunKeepsCause` | ext/io/event/worker_pool.c:172-181 | Over every run a worker has left only because of shutdown or its own interruption |
| `WorkerProgress.SomebodyGoesOn` | ext/io/event/worker_pool.c:172-197 | At any moment of any run, if something is queued, the pool is not shut down and a worker is uninterrupted, whether anybody sleeps or not: some worker has an item in its hands and a step to make, or its next look takes the front |
| `WorkerProgress.ServedExactly` | ext/io/event/worker_pool.c:319-383 | At any moment of any run all calls made so far can still return if and only if nothing is queued, or the pool is not shut down and has a worker that was never interrupted |
| `WorkerProgress.CloseReturns` | ext/io/event/worker_pool.c:405-440 | Closing the pool at any moment of any run: steps of the workers themselves make all of them leave, and the queue is as it was |
| `WorkerProgress.InterruptedLeaves` | ext/io/event/worker_pool.c:147-181 | Interrupting a worker at any moment of any run: at most three steps of its own make it leave, and it takes nothing more |
| `WorkerProgress.SpuriousIsHarmless` | ext/io/event/worker_pool.c:172-176 | A worker that wakes without a reason takes the front of the queue at its next look, or parks again with everything as before |
| `WorkerProgress.UnblockReturns` | ext/io/event/worker_pool.c:361-383 | A resumed caller returns exactly if its item is completed, and no other call is touched |
| `WorkQueue.Queue.Enqueue` | ext/io/event/worker_pool.c:124-131 | Linked queue: the item is appended |
| `WorkQueue.Queue.Dequeue` | ext/io/event/worker_pool.c:134-144 | Linked queue: the front is removed and its link cleared; the end pointers are null together |
| `WorkQueue.SharedPool.Call` | ext/io/event/worker_pool.c:319-358 | worker_pool_call up to the unlock: the item is the last of the queue, exactly the signalled workers are woken, the count is one more |
| `WorkQueue.SharedPool.Check` | ext/io/event/worker_pool.c:170-185 | The critical section of a worker: it leaves exactly if the pool is shut down or it was interrupted, else it parks exactly if the queue is empty, else it holds the item that was at the front, which has left the queue; no other worker changes |
| `WorkQueue.SharedPool.Complete` | ext/io/event/worker_pool.c:212-217 | Completion refines the Complete step, and the scheduler is asked to unblock the fiber of that item, which is completed by then |
| `WorkQueue.SharedPool.Interrupt` | ext/io/event/worker_pool.c:147-155 | The locked part of the unblock function: that worker is marked and everybody parked is woken |
| `WorkQueue.SharedPool.Begin` | ext/io/event/worker_pool.c:187-190 | A worker notes its current operation before it runs it |
| `WorkQueue.SharedPool.CancelCurrent` | ext/io/event/worker_pool.c:157-160 | The rest of it asks the current operation of the worker to stop, if there is one: that is the operation of an item which this worker and no other carries, which has left the queue and is not completed |
| `WorkQueue.SharedPool.Unblock` | ext/io/event/worker_pool.c:361-383 | call returns exactly when its item is completed |
| `Wakeup.NativeSelectorsLoseNoWakeup` | ext/io/event/selector/selector.c:35-63 | Over every run: if the native loop is blocked while fibers are ready and no thread is between push and wakeup, the interrupt is signalled or its read has completed |
| `Wakeup.BlockedLoopComesBack` | ext/io/event/selector/epoll.c:1047-1059 | From such a state at most three steps of the kernel and the loop alone bring the loop back, with the entries still queued |
| `Wakeup.NoSignalWhileRunning` | ext/io/event/selector/epoll.c:1069-1081 | Signals are sent to a blocked loop only |
| `Wakeup.HandledUntilBlockedAgain` | ext/io/event/selector/epoll.c:995-999 | After a handling that takes everything, as one of an eventfd always does, no stale signal remains until the loop checks again |
| `Wakeup.HandledInPart` | lib/io/event/interrupt.rb:19-24 | After one handling something is left to handle if and only if it did not take everything: more bytes in a pipe than one read takes, or a read of the ring still outstanding |
| `Wakeup.StaleSignalsAreFoundOnce` | ext/io/event/interrupt.c:87-99 | Until the loop checks again, what it has found to handle and what is left to be found add up to what was left at the start: one for each batch of a counter or pipe, one for a read outstanding or completed, whatever anybody pushes |
| `Wakeup.OneStaleSignalAtMost` | ext/io/event/selector/uring.c:1271-1296 | For a ring and for an eventfd that is at most one |
| `Wakeup.RubySelectCanLoseAWakeup` | lib/io/event/selector/select.rb:38-46 | In the pure Ruby selector a concrete interleaving loses a wakeup between the ready check and the flag |
| `Wakeup.RubySelectLosesExactly` | lib/io/event/selector/select.rb:334-345 | With a pipe of any capacity that is read byte by byte: when the pure Ruby loop sets its flag, a wakeup is lost if and only if a thread pushed since the ready check, none is still to call wakeup, and no byte is left in the pipe |
| `Wakeup.WindowHoldsWhatWasPushed` | lib/io/event/selector/select.rb:334-345 | Between its check and its flag the Ruby loop has ready fibers if and only if a thread pushed one since the check |
| `Wakeup.RubySelectWindowIsTheOnlyGap` | lib/io/event/selector/select.rb:332-350 | It loses none in any run where no thread calls wakeup inside that window |
| `Wakeup.StepKeepsWakeups` | ext/io/event/selector/selector.c:35-63 | Each atomic step keeps the promise |
| `Wakeup.OneWakeupOneReturn` | ext/io/event/selector/selector.c:35-63 | For every selector: a thread that pushes a fiber and calls wakeup on an idle loop gets it out of its wait, with the fiber queued and the flag down; one handling takes the signal; when the fiber has been resumed the loop blocks again and nothing makes it return |
| `Wakeup.SpentStaysSpent` | ext/io/event/selector/epoll.c:1047-1059 | Once no signal is left, nothing makes a wait return as long as no thread calls wakeup, however often the loop goes round |
| `Wakeup.LoopBlocks` | ext/io/event/selector/epoll.c:1033-1059 | The loop can go on to its blocking wait exactly when nobody is ready, and that wait then returns at once exactly if a signal is left |
| `Wakeup.HandlingSpends` | ext/io/event/selector/uring.c:1271-1296 | A handling leaves no signal exactly if it takes the whole counter, or for a ring if none came after the read was done |
| `TimerReference.FireCallsExactlyTheDue` | lib/io/event/timers.rb:141-162 | On a plain set of timers, for callbacks that schedule, cancel, and flush: nobody is called twice, and of the timers pending at the start exactly those due at `now` that no earlier callback cancelled are called |
| `TimerReference.FireGoesOnExactly` | lib/io/event/timers.rb:141-162 | The same from every point of the run on: whatever is pending and due after some call, also if a callback scheduled and flushed it, is called later or cancelled |
| `TimerReference.FireIsInTimeOrder` | lib/io/event/timers.rb:141-162 | A timer that was pending when an earlier callback was called is not due before that one |
| `TimerReference.PendingFireInTimeOrder` | lib/io/event/timers.rb:141-162 | The timers pending at the start are called in non-decreasing time order, whatever callbacks do |
| `TimerReference.FireTerminates` | lib/io/event/timers.rb:146-161 | The number of calls is bounded by the timers of the collection and all those that their callbacks schedule, even when callbacks flush |
| `TimerReference.FireDefersNewTimers` | lib/io/event/timers.rb:99-105 | As long as no callback flushes, only timers pending at the start are called, what callbacks schedule stays deferred, and the calls are at most as many as those timers |
| `TimerReference.FireFollowsFlushes` | lib/io/event/timers.rb:89-93 | When callbacks flush there is no bound in the number of timers: one pending timer and any number of calls in one fire |
| `TimerReference.FiredWasPending` | lib/io/event/timers.rb:141-162 | Whoever is called was pending, due and earliest at its turn; if it was pending at the start it was not cancelled by an earlier callback |
| `TimerConservation.FireKeepsTimers` | lib/io/event/timers.rb:141-162 | During a fire exactly the called timers and those that called blocks cancelled are lost, pending and deferred ones alike; every other one is as it was scheduled |
| `TimerConservation.RunMakes` | lib/io/event/timers.rb:99-105 | Whatever a block schedules is there afterwards, each timer with its own time and block under the next number, unless cancelled |
| `TimerConservation.ScheduledIsCalled` | lib/io/event/timers.rb:99-162 | A timer that is scheduled is called by the next fire if it is due by then, and otherwise is pending after it as it was scheduled; in either case unless a called block cancels it |
| `TimerConservation.FlushKeepsAll` | lib/io/event/timers.rb:167-208 | A flush loses no timer and changes none |
| `Timers.Timers.Schedule` | lib/io/event/timers.rb:99-105 | A new handle with this time and this block is the last of those to be inserted later |
| `Timers.Timers.CancelHandle` | lib/io/event/timers.rb:64-73 | Exactly this handle loses its block, and the timer leaves the set at once; the counter stays the number of cancelled handles in the heap |
| `Timers.Timers.Flush` | lib/io/event/timers.rb:167-208 | The set is unchanged, all live timers are in the heap, and at most max(127, live) cancelled handles remain |
| `Timers.Timers.WaitInterval` | lib/io/event/timers.rb:119-131 | The least live time minus now, and none exactly if no timer is live |
| `Timers.Timers.Fire` | lib/io/event/timers.rb:141-162 | The lazy heap, for all callbacks that schedule, cancel and flush: it terminates and refines the reference run; of the timers there at the start exactly those due are called, or cancelled by a called block, and every other one is kept as it was |
| `Timers.Timers.Size` | lib/io/event/timers.rb:89-93 | The size is zero exactly if no timer is live, and counts at least the live timers |
| `Timers.Timers.LiveCount` | lib/io/event/timers.rb:89-93 | Live handles in the heap are as many as flushed timers |
| `PriorityHeap.Heap.Pop` | lib/io/event/priority_heap.rb:41-67 | A minimum is removed, the rest kept, the heap property restored |
| `PriorityHeap.Heap.Push` | lib/io/event/priority_heap.rb:72-82 | The element is added |
| `PriorityHeap.Heap.Concat` | lib/io/event/priority_heap.rb:88-100 | Both branches add exactly the given elements |
| `PriorityHeap.Heap.Heapify` | lib/io/event/priority_heap.rb:108-115 | From any contents: a heap of the same elements |
| `PriorityHeap.Heap.Delete` | lib/io/event/priority_heap.rb:128-157 | One occurrence is removed from anywhere, or nothing is changed if there is none |
| `PriorityHeap.Heap.DeleteIf` | lib/io/event/priority_heap.rb:167-182 | Exactly the matching elements go, and their number is returned |
| `PriorityHeap.Heap.HeapifyAll` | lib/io/event/priority_heap.rb:194-204 | Bottom-up repair of an arbitrary array |
| `PriorityHeap.Heap.BubbleUp` | lib/io/event/priority_heap.rb:211-222 | One element too small for its place: the heap property is restored |
| `PriorityHeap.Heap.BubbleDown` | lib/io/event/priority_heap.rb:224-260 | One element too large for its place: the heap property below is restored |
| `PriorityHeap.Heap.Peek` | lib/io/event/priority_heap.rb:24-26 | The root without removing it, which is a minimum; none exactly if the heap is empty |
| `PriorityHeap.RootIsMinimum` | lib/io/event/priority_heap.rb:24-26 | The root is a minimum |
| `PriorityHeap.PopRunIsSorted` | lib/io/event/priority_heap.rb:41-67 | Repeated pop yields non-decreasing keys |
| `PriorityHeap.PopRunConserves` | lib/io/event/priority_heap.rb:41-67 | Repeated pop yields exactly the elements |
| `PriorityHeap.SameElementsSamePopOrder` | lib/io/event/priority_heap.rb:88-100 | Two heaps of the same elements, such as those the two branches of concat build, are popped with the same keys |
| `PriorityHeap.OverwriteLeavesOneGap` | lib/io/event/priority_heap.rb:141-152 | Overwriting from the middle breaks the heap property in one direction only, the one delete repairs |
| `ReadyQueue.FlushInOrder` | ext/io/event/selector/selector.c:357-380 | Whatever the resumed fibers do, the flush is strictly oldest first and every entry is in exactly one of queued, resumed and departed |
| `ReadyQueue.OldResumesWhoStays` | ext/io/event/selector/selector.c:357-380 | The entries of the start that did not depart before their turn are resumed, each once, oldest first |
| `ReadyQueue.FlushResumesOnlyOld` | ext/io/event/selector/selector.c:357-380 | The flush resumes only entries of its start if and only if the newest of them is reached or nothing was queued once the others were processed |
| `ReadyQueue.FlushIsReference` | ext/io/event/selector/selector.c:357-380 | If nobody makes the newest entry depart, the flush processes exactly the entries of its start that stay, and at most that many |
| `ReadyQueue.FlushHasNoBound` | ext/io/event/selector/selector.c:367-377 | Otherwise it has no bound: a flush of two entries that resumes any number of fibers |
| `ReadyQueue.RunGrows` | ext/io/event/selector/selector.c:232-262 | Running fibers conserve the entries: each one leaves the queue once |
| `ReadyQueue.RunMakes` | ext/io/event/selector/selector.c:232-262 | Every fiber that running code makes ready gets one entry under the next number, which keeps that fiber for as long as it is queued |
| `ReadyQueue.DepartTakesItsOwn` | ext/io/event/selector/selector.c:255-262 | A fiber that runs again takes its own entry out, and no other |
| `ReadyQueue.FlushRuns` | ext/io/event/selector/selector.c:337-355 | Every fiber that a flush resumes runs, one script after the other, and exactly the entries those make are made |
| `ReadyQueue.UntilSplits` | ext/io/event/selector/selector.c:360-377 | The loop does what the reference does until its end mark is processed or gone |
| `LinkedQueue.Backend.Push` | ext/io/event/selector/selector.c:228-243 | On linked entries: added at the front; the end pointers are null together |
| `LinkedQueue.Backend.Pop` | ext/io/event/selector/selector.c:209-226 | Removed from anywhere; neighbours and end pointers are mended and the links cleared |
| `LinkedQueue.Backend.Depart` | ext/io/event/selector/selector.c:255-262 | The record of a fiber, and no other, is unlinked, by its own ensure, on normal and exceptional exit; nothing happens when it has left already |
| `LinkedQueue.Backend.ReadyPop` | ext/io/event/selector/selector.c:337-355 | An entry is unlinked before its fiber runs on, by the selector or by the fiber |
| `LinkedQueue.Backend.Flush` | ext/io/event/selector/selector.c:357-380 | The pointer loop refines the flush of the model and terminates: oldest first, and if nobody makes the newest entry depart exactly the entries of its start that stay |
| `TombstoneQueue.PopTimesIsReference` | lib/io/event/selector/select.rb:284-295 | The counting loop over tombstones processes exactly the entries that were there |
| `TombstoneQueue.EveryRunIsSound` | lib/io/event/selector/select.rb:61-117 | From the empty queue, after any sequence of running code and calls of pop_ready, the live entries are conserved and every slot has a number given out before |
| `TombstoneQueue.BothQueuesAgree` | lib/io/event/selector/select.rb:284-295 | In every such state pop_ready resumes the same fibers in the same order as the linked queue and leaves the same entries, unless the fiber of the newest entry departs meanwhile |
| `TombstoneQueue.WholeRunsAgree` | lib/io/event/selector/select.rb:61-117 | Over whole histories in which that proviso holds of every flush the two queues go through the same states |
| `SelectWaiters.DispatchSettles` | lib/io/event/selector/select.rb:132-151 | A dispatch under every behaviour of resumed fibers: live waiters that do not match are listed again, matching ones are transferred to with the matching events unless they returned or ended before, nobody else is transferred to, and no chain holds a waiter twice |
| `SelectWaiters.QuietMeans` | lib/io/event/selector/select.rb:173-179 | Outside a dispatch every live waiter is in the chain of its IO exactly once, and nobody was transferred to twice or after its io_wait had returned |
| `SelectWaiters.EveryRunKeepsItsWaiters` | lib/io/event/selector/select.rb:124-179 | That holds at every point of every run of fibers and rounds |
| `SelectWaiters.RoundStep` | lib/io/event/selector/select.rb:383-389 | Every IO of the ready table still has an entry when its turn comes, whatever the fibers resumed before it did |
| `SelectWaiters.ReportedArePending` | lib/io/event/selector/select.rb:311-332 | The table built from what IO.select reports names only IOs that have an entry, each once |
| `SelectWaiters.RoundServes` | lib/io/event/selector/select.rb:368-389 | After a round every waiter that asked for something reported has left: it was resumed, or had returned or ended |
| `SelectWaiters.RoundMakesProgress` | lib/io/event/selector/select.rb:311-389 | For every IO that IO.select reports there is a live waiter that asked for the reported events and is gone after the round, so select does not spin |
| `SelectWaiters.Round` | lib/io/event/selector/select.rb:383-389 | A whole round ends in a state of that kind again; what it does to each waiter is RoundSettles and RoundTransfers |
| `SelectWaiters.VisitKeeps` | lib/io/event/selector/select.rb:132-151 | One waiter of the chain being walked: dead, kept, or resumed, the invariant holds for the rest |
| `SelectRounds.RoundSettles` | lib/io/event/selector/select.rb:132-151 | After a round every waiter that was live is as the ready table says: not reported, or not with anything it wants, and it goes on waiting; else it is gone, resumed with exactly what it wants of what was reported; unless it returned or ended by itself |
| `SelectRounds.RoundTransfers` | lib/io/event/selector/select.rb:137-144 | Every transfer of a round is to a waiter on a reported IO, live unless it came during the round and not ended, with exactly what it wants of the reported events, and with something |
| `SelectRounds.SelectServes` | lib/io/event/selector/select.rb:307-391 | The same for select, told by what IO.select found |
| `SelectRounds.NoCallIsForgotten` | lib/io/event/selector/select.rb:124-179 | In every run each call of io_wait is live, or was resumed or returned, or its fiber ended |
| `SelectRounds.DispatchInOrder` | lib/io/event/selector/select.rb:132-151 | The waiters of a chain are resumed in its order, the last that began to wait first |
| `SelectRounds.WantedExactly` | lib/io/event/selector/select.rb:158-165 | A chain asks for an event exactly if a waiter in it that still refers to its fiber wants it |
| `SelectRounds.EndedIsNotResumed` | lib/io/event/selector/select.rb:136-147 | A fiber that terminated without leaving io_wait is not resumed by a round |
| `SelectRounds.RoundRuns` | lib/io/event/selector/select.rb:137-144 | Every fiber that a round resumes runs, one script after the other, and every call of io_wait that those make is there afterwards |
| `SelectTable.Selector.IoWait` | lib/io/event/selector/select.rb:173-179 | On linked waiters: the new one is live, wants its events, and is the first of its chain, before the one that was |
| `SelectTable.Selector.Reactivate` | lib/io/event/selector/select.rb:384-388 | The waiter is threaded in front of the chain that grew meanwhile; every other chain is as it was |
| `SelectTable.Selector.Dispatch` | lib/io/event/selector/select.rb:132-151 | The recursive walk over tails refines the model and ends with every chain finite |
| `SelectTable.Selector.DispatchReady` | lib/io/event/selector/select.rb:383-389 | The loop over the ready table refines a round: every transfer logged is for an entry of the table and with what it offers, and every waiter that was live is gone or goes on waiting as the table says |
| `SelectTable.Selector.Each` | lib/io/event/selector/select.rb:158-165 | The recursive walk asks about the IO for exactly the events that live waiters of the chain want |
| `SelectTable.Selector.Gather` | lib/io/event/selector/select.rb:307-332 | The arrays for IO.select hold an IO exactly if some live waiter on it wants that event |
| `SelectTable.Merge` | lib/io/event/selector/select.rb:368-382 | The ready table has every reported IO once, with the union of its events |
| `SelectTable.Selector.Select` | lib/io/event/selector/select.rb:307-391 | Gathering, IO.select, merging and dispatching together are one round: every waiter that was live is resumed with exactly what it wants of what IO.select found, if there is any, and else goes on waiting |
| `SelectTable.Selector.Return` | lib/io/event/selector/select.rb:176-179 | The ensure of io_wait clears the waiter, and no other |
| `ReadLoop.EnoughUnlessEnd` | ext/io/event/selector/epoll.c:613-638 | For every sequence of replies: a successful read has at least the smaller of length and room, unless the stream ended, and never more than there is or fits |
| `ReadLoop.WaitingIsInvisible` | ext/io/event/selector/epoll.c:629-630 | Calls that find nothing yet do not influence the result |
| `ReadLoop.IoReadExactly` | ext/io/event/selector/epoll.c:613-683 | io_read without a loop, in terms of size, length and offset: EINVAL beyond the buffer, 0 at its end, and otherwise the calls up to and including the first that stops, with what they gave or the error that stopped them |
| `ReadLoop.EnoughAndNoMore` | ext/io/event/selector/epoll.c:621-631 | A successful io_read has at least the smaller of length and room unless the stream ended, and makes no call once that much is there |
| `ReadLoop.EPollRead` | ext/io/event/selector/epoll.c:649-683 | The loop with counters that run down: the cases of the offset, and else outcome, buffer and the replies left are those of the calls up to the first that stops; nothing outside the bytes read changes |
| `ReadLoop.URingRead` | ext/io/event/selector/uring.c:879-936 | The loop with a moving offset, and the single read for length zero: the same outcome, buffer and calls |
| `ReadLoop.SelectRead` | lib/io/event/selector/select.rb:204-235 | The loop that compares the total: the same buffer, and the same outcome if and only if it is not the case that reads without room report errors, the buffer was filled short of the length, and the next reply other than EAGAIN is an error; then that error is the outcome. The calls are the same but for that last read |
| `ReadLoop.FilledBufferCanFail` | lib/io/event/selector/select.rb:214-228 | A concrete such read: four bytes fill the buffer, eight were asked for, and the error of the last read replaces them |
| `ReadLoop.EPollLoop` | ext/io/event/selector/epoll.c:613-638 | The remaining counters never underflow |
| `EventArray.EventArray.Grow` | ext/io/event/array.h:84-97 | Doubling ends within the maximum without overflow; the request is met if and only if the array was not empty or the request is at most the default; from a non-empty array the capacity is below twice the request |
| `EventArray.EventArray.Resize` | ext/io/event/array.h:74-108 | Contents are kept, new slots are null, and the request is met under that condition or refused above the maximum |
| `EventArray.EventArray.Lookup` | ext/io/event/array.h:111-137 | A partial map from number to element: an element that exists keeps its identity, a missing one is created, and no other changes. It fails exactly above the maximum; the slot lies outside the allocation exactly for the number whose successor wraps and, on an empty array, for numbers from 128 on below the maximum |
| `EventArray.EventArray.Push` | ext/io/event/array.h:162-165 | A new element right after the highest one, also on an empty array |
| `EventArray.EmptyArrayFallsShort` | ext/io/event/array.h:84-88 | A concrete call: an empty array asked for 129 elements succeeds with fewer |
| `EventArray.EventArray.Truncate` | ext/io/event/array.h:145-159 | Exactly the elements from the limit on are freed |
| `EventArray.EventArray.Free` | ext/io/event/array.h:50-71 | Every element is freed |

## Left out

- System calls and the liburing and kernel internals: their results are actions or parameters.
- Failures and yields between acquiring a completion slot and submitting with it, or between a cancel request and its
  submission: each pair is one step.
- Exceptions that leave an EPoll or KQueue handle call, and worker threads killed by Ruby.
- Allocation failure: `xmalloc`, `xcalloc` and `xrealloc2` succeed.
- Reuse of an address: entries, waiters and slots in the value models have numbers that are never reused, so a queue
  entry allocated at the address of the flush's end mark is not represented.
- Whether a fiber is still alive when the ready queue transfers to it; the Ruby queue checks it, the C queue does not.
- Work still queued when a pool is closed: workers exit without draining it.
- Process waiting beyond its use of a completion slot, and the process identifier as the IO identity of a descriptor.
- Event, poll and kevent flag conversion, time arithmetic in floating point (times are reals), idle durations.
- Garbage collection callbacks, TypedData, initialisation, debug output, statistics.
- Write loops and positioned reads: they repeat the read loop with the direction or the position changed.
- `result` of a single read as a 32-bit integer: counts are unbounded in the read loops.
- In the pure Ruby selector, IOs closed before or during `IO.select` and their waiters, which it drops, and `io_select`.
- Timers.Timers.Fire: callbacks schedule, cancel and flush; one that calls `fire` itself is not represented.
