# generic_pool, modelled in Dafny

generic_pool is a resource pool for TypeScript. A user-supplied factory creates, destroys and
(optionally) validates resources. Clients `acquire` a resource, wait in a priority queue while none
is free, and hand it back with `release` or `destroy`. The pool keeps a configured minimum alive,
is meant never to create more than its maximum (as written it can; see Findings), can test resources before lending them, and evicts resources
that have been idle too long.

This project models the core of the library, file by file, and proves properties of the model:

- `deferred.dfy`, `resource_loan.dfy`, `resource_request.dfy` model the settle-once cells (a
  `Deferred` that is PENDING until it is resolved or rejected), the loan that can only be resolved,
  and the client request with its re-armable timeout. Each is a class whose methods update the
  state in place, specified by the pure `Settle` function and proved to agree with it.
- `doubly_linked_list.dfy`, `doubly_linked_list_iterator.dfy`, `deque.dfy`, `deque_iterator.dfy`,
  `queue.dfy`, `priority_queue.dfy` model the containers as heap structures. Nodes are objects
  whose `prev`/`next` links are rewired in place. A ghost sequence of nodes is the list read from
  head to tail, and every method is proved against a function on sequences: `Shifted`, `Pushed`
  and `Popped` for the deque, `Stepped` and `RemoveAtCursor` for the iterator, `Enqueued` and
  `Dequeued` over a sequence of slots for the priority queue.
- `default_evictor.dfy` and `pool_defaults.dfy` are the eviction rule (a pure decision on the idle
  time) and the default configuration record.
- `pool_state.dfy`, `pool.dfy` model `Pool`:
  - `PoolState` is the pool's whole state as a value. It holds the draining and started flags, the
    waiting queue of request ids with each request's settlement, and the available deque of
    resources. It also holds the set of all resources, each resource's state and last idle time,
    the loans, the resources under test, the pending create, destroy and validation operations, and
    the eviction cursor.
  - Every operation of `lib/pool.ts` is a pure step function on `PoolState`, following the code as
    written. That includes the shortfall `_ensureMinimum` computes, which is not the one its authors
    evidently meant (see Findings).
  - The `Pool` class keeps the same state in mutable fields and runs the source's `for` loops; each
    method is proved to leave the fields exactly as its step function says.
- `pool_invariants.dfy`, `pool_safety.dfy` define the pool's invariant `Inv` and prove that every
  public operation and every factory answer preserves it. The invariant says:
  - the waiting queue holds exactly the pending requests, each once;
  - every resource is available, lent or under test, in one place only;
  - each resource state agrees with where the resource is;
  - every validation refers to a resource under test;
  - every operation id is fresh.
- `pool_properties.dfy` proves what the source promises of each operation. It covers rejection of
  unknown resources, the FIFO/LIFO return order, the serving order of the wait queue, the creation
  bound under `max`, how many resources `_dispense` hands out or tests, validation outcomes, the
  request timeout, the acquire guards, the creations `_ensureMinimum` starts (as written, `min`
  more whenever `min` is positive; the intended top-up is proved of a separate corrected function),
  and the bound on evictions per run.

The factory's asynchronous answers are not calls here. They are separate events on the pool,
with their outcome as a parameter: `CreateSucceeded`, `CreateFailed`, `ValidationReturned`,
`ValidationRejected`, `DestroySettled`, `RequestTimedOut`. The clock is the parameter `now`.

## Model

| member | source | states |
|---|---|---|
| Deferreds.Settle | lib/deferred.ts:31-49 | settling a PENDING cell yields the requested state; settling a settled cell leaves it as it was; the result is never PENDING |
| Deferreds.FirstSettlementWins | lib/deferred.ts:31-49 | from PENDING, any sequence of resolve/reject attempts ends in the state chosen by the first attempt |
| Deferreds.SettledStaysPut | lib/deferred.ts:32-44 | once FULFILLED or REJECTED, no sequence of further attempts changes the state, so it never returns to PENDING |
| Deferreds.Deferred.constructor | lib/deferred.ts:12-21 | a new cell is PENDING with neither value nor reason |
| Deferreds.Deferred.Reject | lib/deferred.ts:31-39 | a PENDING cell becomes REJECTED with the given reason; a settled cell is left untouched |
| Deferreds.Deferred.Resolve | lib/deferred.ts:41-49 | a PENDING cell becomes FULFILLED with the given value; a settled cell is left untouched |
| ResourceLoans.LoanNeverRejected | lib/resource_loan.ts:24-28 | from a state other than REJECTED, any sequence of resolve and reject calls never reaches REJECTED; the loan is FULFILLED exactly when some resolve occurred and unchanged otherwise |
| ResourceLoans.ResolvedLoanStaysFulfilled | lib/deferred.ts:41-49 | a FULFILLED loan stays FULFILLED whatever is called on it |
| ResourceLoans.ResourceLoan.constructor | lib/resource_loan.ts:18-22 | a new loan is PENDING, holds the resource it was built with and records its creation time |
| ResourceLoans.ResourceLoan.Resolve | lib/deferred.ts:41-49 | the inherited resolve leaves the loan FULFILLED; resolving twice keeps the first value |
| ResourceLoans.ResourceLoan.Reject | lib/resource_loan.ts:24-28 | reject is a no-op in every state: settlement and reason are unchanged |
| ResourceRequests.DelayError | lib/resource_request.ts:39-43 | a delay raises an error exactly when it is not positive, and that error is "delay must be a positive int" |
| ResourceRequests.RemainingDelay | lib/resource_request.ts:45-54 | the armed delay is max(ttl − age, 0): never negative and at least ttl − age |
| ResourceRequests.FreshRequestWaitsWholeTtl | lib/resource_request.ts:45-54 | a request armed at its creation waits its whole ttl |
| ResourceRequests.DeadlineFixed | lib/resource_request.ts:45-54 | while the request is younger than its ttl, re-arming keeps the deadline at creation time + ttl |
| ResourceRequests.ResourceRequest.constructor | lib/resource_request.ts:25-33 | a request built without ttl is PENDING, records its creation time and arms no timer |
| ResourceRequests.ResourceRequest.Create | lib/resource_request.ts:25-33 | without ttl no timer is armed; with a ttl the constructor calls setTimeout, which either throws the delay error or arms the timer for ttl |
| ResourceRequests.ResourceRequest.SetTimeout | lib/resource_request.ts:35-55 | on a settled request nothing happens; otherwise a non-positive delay throws and changes nothing, and a positive one cancels the previous timer and arms one timer for RemainingDelay |
| ResourceRequests.ResourceRequest.RemoveTimeout | lib/resource_request.ts:57-62 | afterwards no timer is armed and none is outstanding |
| ResourceRequests.ResourceRequest.FireTimeout | lib/resource_request.ts:64-66 | a PENDING request is rejected with a TimeoutError; a settled one keeps its settlement; the timer is cleared |
| ResourceRequests.ResourceRequest.Reject | lib/resource_request.ts:68-71 | clears the timer, then rejects a PENDING request with the reason; a settled one is unchanged |
| ResourceRequests.ResourceRequest.Resolve | lib/resource_request.ts:73-76 | clears the timer, then fulfils a PENDING request with the value; a settled one is unchanged |
| DoublyLinkedLists.Node.constructor | lib/doubly_linked_list.ts:17-21 | a node holds its data with both links null |
| DoublyLinkedLists.DoublyLinkedList.constructor | lib/doubly_linked_list.ts:29-33 | a new list is well formed and empty: head and tail null, length 0 |
| DoublyLinkedLists.DoublyLinkedList.InsertBeginning | lib/doubly_linked_list.ts:35-45 | the node sequence becomes [node] + old, links, head, tail and length kept consistent |
| DoublyLinkedLists.DoublyLinkedList.InsertEnd | lib/doubly_linked_list.ts:47-53 | the node sequence becomes old + [node] |
| DoublyLinkedLists.DoublyLinkedList.InsertAfter | lib/doubly_linked_list.ts:55-65 | the new node lands right after `node`, every other node keeps its place, the list stays well formed (tail moves when `node` was the tail) |
| DoublyLinkedLists.DoublyLinkedList.InsertBefore | lib/doubly_linked_list.ts:67-77 | the new node lands right before `node`, every other node keeps its place, the list stays well formed (head moves when `node` was the head) |
| DoublyLinkedLists.DoublyLinkedList.Remove | lib/doubly_linked_list.ts:79-93 | removing a member cuts exactly its position, the others keep their order, the list stays well formed and the removed node's links are null |
| DoublyLinkedLists.DoublyLinkedList.InsertedAfterValid | lib/doubly_linked_list.ts:56-64 | the four pointer writes of insertAfter restore every link, head, tail and the length count |
| DoublyLinkedLists.DoublyLinkedList.InsertedBeforeValid | lib/doubly_linked_list.ts:68-76 | the four pointer writes of insertBefore restore every link, head, tail and the length count |
| DoublyLinkedLists.DoublyLinkedList.RemovedValid | lib/doubly_linked_list.ts:80-92 | the pointer writes of remove leave a well-formed list without the node |
| DoublyLinkedLists.DoublyLinkedList.CreateNode | lib/doubly_linked_list.ts:96-102 | a fresh, detached node holding the data |
| ListIterators.StartPosition | lib/doubly_linked_list_iterator.ts:44-48 | the first `next` starts from the list end, which is absent exactly when the list is empty |
| ListIterators.Neighbour | lib/doubly_linked_list_iterator.ts:50 | the node after (or before, reversed) the cursor; a node no longer in the list has none |
| ListIterators.Advanced | lib/doubly_linked_list_iterator.ts:44-51 | the first advance takes the current list end, later ones follow the link in the iteration direction, a null cursor stays null; `done` is untouched |
| ListIterators.RemoveAtCursor | lib/doubly_linked_list_iterator.ts:59-70 | `remove` does nothing before the first `next`, after done, or on a detached cursor; otherwise exactly the cursor's node leaves the list |
| ListIterators.YieldsListNodes | lib/doubly_linked_list_iterator.ts:72-90 | every node `next` yields is in the list, and the cursor rests on it |
| ListIterators.DoneIsSticky | lib/doubly_linked_list_iterator.ts:72-75 | once done, `next` reports done and changes nothing until `reset` |
| ListIterators.FirstNextSeesCurrentList | lib/doubly_linked_list_iterator.ts:44-48 | the start node is read from the list at the first `next`, so an iterator made earlier sees nodes added since |
| ListIterators.NextAfterRemoveIsDone | lib/doubly_linked_list_iterator.ts:59-84 | after `remove` the cursor's node is detached, so the following `next` reports done |
| ListIterators.FreshIteratorYieldsInOrder | lib/doubly_linked_list_iterator.ts:72-90 | a fresh forward iterator yields every node head to tail, then done |
| ListIterators.MembersNotDetached | lib/doubly_linked_list_iterator.ts:100-106 | a node of a well-formed list never passes the detached test |
| ListIterators.DoublyLinkedListIterator.constructor | lib/doubly_linked_list_iterator.ts:29-37 | a new iterator is unstarted, not done, with no cursor |
| ListIterators.DoublyLinkedListIterator.IsCursorDetached | lib/doubly_linked_list_iterator.ts:100-107 | the pointer test (both links null, neither head nor tail) holds exactly when the cursor is set and no longer in the list |
| ListIterators.DoublyLinkedListIterator.AdvanceCursor | lib/doubly_linked_list_iterator.ts:44-51 | the cursor moves as Advanced says |
| ListIterators.DoublyLinkedListIterator.Reset | lib/doubly_linked_list_iterator.ts:53-57 | clears done, started and cursor |
| ListIterators.DoublyLinkedListIterator.Next | lib/doubly_linked_list_iterator.ts:72-90 | the new cursor state and the result are those of Stepped on the current list |
| ListIterators.DoublyLinkedListIterator.Remove | lib/doubly_linked_list_iterator.ts:59-70 | the list becomes RemoveAtCursor of the old list and the cursor state is unchanged; the result is `false` exactly when `remove` refuses (before the first `next`, once done, or on a detached cursor), and `undefined` otherwise |
| Deques.PushThenPop | lib/deque.ts:48-69 | pushing x then popping returns x and restores the contents |
| Deques.UnshiftThenShift | lib/deque.ts:20-42 | unshifting x then shifting returns x and restores the contents |
| Deques.HeadTailAgreeWithRemoval | lib/deque.ts:86-109 | head and tail are what shift and pop would return, and putting that element back restores the deque |
| Deques.PushKeepsFront | lib/deque.ts:20-52 | pushing at the back does not change what shift returns from a non-empty deque |
| Deques.FifoOrder | lib/queue.ts:12-22 | elements pushed one by one are shifted out in push order |
| Deques.Deque.constructor | lib/deque.ts:12-14 | a new deque is empty |
| Deques.Deque.Length | lib/deque.ts:111-113 | `length` is the number of elements |
| Deques.Deque.Shift | lib/deque.ts:20-32 | removes and returns the first element, or returns nothing and changes nothing when empty; the rest keep their order |
| Deques.Deque.Pop | lib/deque.ts:57-69 | removes and returns the last element, or returns nothing and changes nothing when empty |
| Deques.Deque.Unshift | lib/deque.ts:38-42 | the element becomes the new head in a fresh node |
| Deques.Deque.Push | lib/deque.ts:48-52 | the element becomes the new tail in a fresh node |
| Deques.Deque.Head | lib/deque.ts:86-95 | the first element, or nothing when empty, without removing it |
| Deques.Deque.Tail | lib/deque.ts:100-109 | the last element, or nothing when empty, without removing it |
| Deques.Deque.Iterator | lib/deque.ts:75-77 | a fresh, unstarted forward iterator over this deque's own list |
| Deques.Deque.ReverseIterator | lib/deque.ts:79-81 | a fresh, unstarted reverse iterator over this deque's own list |
| DequeIterators.Unwrap | lib/deque_iterator.ts:6-16 | a yielded node is replaced by its data; a done result passes through |
| DequeIterators.FreshDequeIteratorYieldsContents | lib/deque_iterator.ts:5-16 | a fresh deque iterator yields the deque's elements head to tail, then done |
| DequeIterators.DequeIterator.constructor | lib/deque_iterator.ts:5 | wraps an unstarted list iterator over the given list and direction |
| DequeIterators.DequeIterator.Next | lib/deque_iterator.ts:6-16 | advances the inner iterator exactly as Stepped says and returns the unwrapped step |
| DequeIterators.DequeIterator.Reset | lib/deque_iterator.ts:5 | the inherited reset: the inner iterator is unstarted again |
| DequeIterators.DequeIterator.Remove | lib/deque_iterator.ts:5 | the inherited remove: the list becomes RemoveAtCursor of the old list, with the same `false`/`undefined` result |
| Queues.Queue.constructor | lib/queue.ts:12 | a new queue is an empty deque |
| Queues.Queue.Push | lib/queue.ts:18-22 | the request is appended at the tail in a fresh node |
| Queues.Queue.TimeoutRejectionHandler | lib/queue.ts:24-30 | a TimeoutError unlinks exactly the request's node, the others keep their order; any other rejection leaves the queue unchanged |
| PriorityQueues.SlotCount | lib/priority_queue.ts:13 | the slot count is the size when it is at least 1, and 1 otherwise |
| PriorityQueues.Normalize | lib/priority_queue.ts:31-38 | an absent or zero priority goes to slot 0, an in-range one to its own slot, one out of range to the last slot |
| PriorityQueues.FirstNonEmptyFrom | lib/priority_queue.ts:43-47 | the lowest non-empty slot at or after `from`, or none when all those slots are empty |
| PriorityQueues.LastNonEmptyBelow | lib/priority_queue.ts:61-65 | the highest non-empty slot below `upto`, or none when all those slots are empty |
| PriorityQueues.SumLengthsIsSize | lib/priority_queue.ts:21-27 | the summed slot lengths are the number of queued requests |
| PriorityQueues.DequeueTakesFlatFront | lib/priority_queue.ts:42-49 | dequeue takes the first request of the slots read in order (lower slots drain first, FIFO within a slot) and leaves the rest in order |
| PriorityQueues.EnqueuePlacesAfterLowerSlots | lib/priority_queue.ts:29-40 | an enqueued request lands after every request in its slot and the lower slots, before those in higher slots |
| PriorityQueues.OnlyOneSlotChanges | lib/priority_queue.ts:29-49 | enqueue appends to one slot and leaves the others; dequeue changes at most one slot |
| PriorityQueues.HeadTailAreFlatEnds | lib/priority_queue.ts:51-67 | head and tail are the first and last request of the slots read in order |
| PriorityQueues.PriorityQueue.constructor | lib/priority_queue.ts:12-19 | SlotCount(size) empty slots |
| PriorityQueues.PriorityQueue.Length | lib/priority_queue.ts:21-27 | the accumulator loop returns the total number of queued requests |
| PriorityQueues.PriorityQueue.Enqueue | lib/priority_queue.ts:29-40 | the slots become Enqueued of the old slots |
| PriorityQueues.PriorityQueue.Dequeue | lib/priority_queue.ts:42-49 | the result and the slots are Dequeued of the old slots |
| PriorityQueues.PriorityQueue.Head | lib/priority_queue.ts:51-58 | the head of the lowest non-empty slot, without change |
| PriorityQueues.PriorityQueue.Tail | lib/priority_queue.ts:60-67 | the tail of the highest non-empty slot, without change |
| DefaultEvictor.IdleTime | lib/default_evictor.ts:13 | idle time is now minus the last idle time, counting from 0 when there is none |
| DefaultEvictor.Evict | lib/default_evictor.ts:4-28 | past the idle timeout a resource is always evicted; with the soft rule off, only then |
| DefaultEvictor.EvictExactlyByRules | lib/default_evictor.ts:15-27 | evict holds exactly when the soft rule or the hard rule holds |
| DefaultEvictor.HardRuleIgnoresMin | lib/default_evictor.ts:23-25 | the hard rule evicts whatever `min` and the available count are |
| DefaultEvictor.ExactTimeoutKept | lib/default_evictor.ts:23-27 | a resource idle exactly idleTimeoutMillis is kept unless the soft rule applies |
| DefaultEvictor.SoftRuleDisabled | lib/default_evictor.ts:16 | with a non-positive soft timeout, evict is exactly the hard rule |
| DefaultEvictor.EvictMonotone | lib/default_evictor.ts:15-25 | a resource evicted at some time is evicted at every later time |
| PoolDefaults.EvictionConfigOf | lib/pool.ts:391-395 | the evictor sees the pool's soft and hard timeouts and its `min` |
| PoolDefaults.DefaultsSingleSlot | lib/pool_defaults.ts:23-24 | by default there is one wait slot, and every priority lands in it |
| PoolDefaults.DefaultsFifoUntested | lib/pool_defaults.ts:23-29 | by default the pool is FIFO, tests neither on borrow nor on return, and starts itself |
| PoolDefaults.DefaultsNeverScheduleEviction | lib/pool_defaults.ts:31-32 | by default no eviction run is scheduled, and a run would test 3 resources |
| PoolDefaults.DefaultsEvictAfterIdleTimeout | lib/pool_defaults.ts:33-34 | under the defaults a resource is evicted exactly when idle for more than 30000 ms |
| PoolDefaults.DefaultsLeaveLimitsUnset | lib/pool_defaults.ts:37-42 | acquire and destroy timeouts, the waiting limit, `min` and `max` are unset by default |
| PoolStates.Spare | lib/pool.ts:720-725 | spare capacity exists exactly when `max` is set, and spare plus `_count` is `max` |
| PoolStates.CreateMany | lib/pool.ts:266-268 | n creations add exactly n new create operations and change nothing else |
| PoolStates.CreationsToStart | lib/pool.ts:259-265 | `_dispense` starts no more creations than the shortfall or the spare capacity, and none without `max` |
| PoolStates.MinShortfallAsWritten | lib/pool.ts:380 | the shortfall as JavaScript reads `min || 0 - count`: a non-zero `min` whole, and minus the count when `min` is unset or 0 |
| PoolStates.EnsureMinimum | lib/pool.ts:376-384 | `_ensureMinimum` as written: nothing while draining; otherwise only creations under new ids, exactly `min` of them when `min` is positive, whatever the count, and none when `min` is unset or 0 |
| PoolStates.MinShortfall | lib/pool.ts:380 | the evidently intended shortfall, used only by the corrected `EnsureMinimumIntended`: `min` (0 when unset) minus the count |
| PoolStates.DestroyResource | lib/pool.ts:162-179 | `_destroy` invalidates the resource and removes it from `_allObjects`, leaving every other resource and every request where it was; it tracks one destroy under a new id, and then `_ensureMinimum`, as written, starts its creations under the ids after that one |
| PoolStates.Empty | lib/pool.ts:77-160 | a new pool's wait queue has SlotCount(priorityRange) slots |
| PoolStates.EvictStep | lib/pool.ts:396-426 | a pass leaves the loop exactly when the available deque is empty; reaching the end with items left resets the cursor and continues, and only from a started or finished cursor; a pass that checks no resource changes nothing but the cursor |
| PoolInvariants.ResourcesBalance | lib/pool.ts:731-749 | every resource is available, borrowed or under test in exactly one place, so the counts add up to `_allObjects.size` |
| PoolInvariants.PartitionCovers | lib/pool.ts:731-749 | with nothing in hand, `_allObjects` is exactly the available, borrowed and tested resources, and those three are pairwise disjoint |
| PoolInvariants.AddToAvailableKeeps | lib/pool.ts:595-602 | returning a resource in hand to the available deque keeps the partition |
| PoolInvariants.DequeuedTracked | lib/pool.ts:304-308 | the dequeued request is the first waiting one and is PENDING; the queue keeps the rest in order |
| PoolInvariants.FulfilNextKeeps | lib/pool.ts:315-318 | fulfilling the dequeued request keeps the queue equal to the pending requests |
| PoolInvariants.DispatchToNextKeeps | lib/pool.ts:303-320 | handing a resource to the next client, or back to the available deque, keeps the queue and the partition |
| PoolInvariants.DispatchResourceKeeps | lib/pool.ts:228-238 | one `_dispatchResource` keeps the queue, the partition and the counts of resources and operations |
| PoolInvariants.DispatchManyKeeps | lib/pool.ts:286-294 | the dispatch loop keeps the same |
| PoolInvariants.TestOnBorrowKeeps | lib/pool.ts:194-203 | moving the head resource into test keeps the partition and leaves the clients alone |
| PoolInvariants.TestManyKeeps | lib/pool.ts:272-283 | the test-on-borrow loop keeps the same |
| PoolInvariants.CreateManyCount | lib/pool.ts:266-268 | n creations add n distinct create operations |
| PoolInvariants.EnsureMinimumFrame | lib/pool.ts:376-384 | `_ensureMinimum` only starts creations |
| PoolInvariants.EnsureMinimumKeeps | lib/pool.ts:376-384 | and keeps the ids fresh |
| PoolInvariants.DestroyResourceKeeps | lib/pool.ts:162-179 | destroying the resource in hand keeps the partition for all the others |
| PoolInvariants.DispenseKeeps | lib/pool.ts:246-295 | `_dispense` keeps the queue, the partition and the ids, and neither adds nor removes resources |
| PoolSafety.EmptyInv | lib/pool.ts:77-160 | a newly built pool satisfies the invariant |
| PoolSafety.StartKeeps | lib/pool.ts:446-456 | `start` preserves the invariant |
| PoolSafety.InitialInv | lib/pool.ts:156-159 | the pool after construction (autostart included) satisfies the invariant |
| PoolSafety.AddRequestKeeps | lib/pool.ts:494-497 | enqueuing a new request keeps the invariant and raises `pending` by one |
| PoolSafety.AcquireKeeps | lib/pool.ts:471-501 | `acquire` preserves the invariant on every path |
| PoolSafety.ReleaseKeeps | lib/pool.ts:544-563 | `release` preserves the invariant |
| PoolSafety.DestroyKeeps | lib/pool.ts:574-593 | `destroy` preserves the invariant |
| PoolSafety.DrainKeeps | lib/pool.ts:612-613 | `drain` preserves the invariant |
| PoolSafety.CreatedTracked | lib/pool.ts:352-356 | a created resource joins `_allObjects` and the available deque, keeping the partition |
| PoolSafety.CreateSucceededKeeps | lib/pool.ts:352-365 | a successful creation preserves the invariant |
| PoolSafety.CreateFailedKeeps | lib/pool.ts:366-370 | a failed creation preserves the invariant |
| PoolSafety.ValidationReturnedKeeps | lib/pool.ts:210-220 | a validation answer preserves the invariant, whether the resource is destroyed or dispatched |
| PoolSafety.ValidationRejectedKeeps | lib/pool.ts:207-210 | a validation that fails with an error preserves the invariant |
| PoolSafety.DestroySettledKeeps | lib/pool.ts:329-342 | the end of a destroy operation preserves the invariant |
| PoolSafety.RequestTimedOutKeeps | lib/queue.ts:24-30 | a request timing out preserves the invariant |
| PoolSafety.EvictOneKeeps | lib/pool.ts:421-425 | removing an available resource through the cursor and destroying it preserves the invariant |
| PoolSafety.EvictStepKeeps | lib/pool.ts:396-426 | one pass of the eviction loop preserves the invariant |
| PoolSafety.EvictRunKeeps | lib/pool.ts:386-427 | `_evict` preserves the invariant |
| PoolProperties.NotBorrowedRejected | lib/pool.ts:546-582 | release or destroy of a value with no loan fails with "not currently part of this pool" and changes nothing |
| PoolProperties.ReleaseWithoutWaiters | lib/pool.ts:554-561 | with nobody waiting, release ends the loan, marks the resource idle at `now` and puts it at the tail (fifo) or head of the available deque; a second release then fails |
| PoolProperties.DestroyRemoves | lib/pool.ts:584-591 | destroy ends the loan, removes the resource from `_allObjects` and starts one destroy operation |
| PoolProperties.DestroyStartsOne | lib/pool.ts:162-175 | `_destroy` adds exactly one tracked destroy operation |
| PoolProperties.DispatchServesFirst | lib/pool.ts:303-320 | with nobody waiting the resource returns to the available deque and no loan is made; otherwise the first waiting request is fulfilled with it, leaves the queue, and exactly one loan is added |
| PoolProperties.DispenseWithoutWaiters | lib/pool.ts:251-257 | `_dispense` with no waiter changes nothing |
| PoolProperties.DispenseCreates | lib/pool.ts:259-268 | `_dispense` starts exactly CreationsToStart creations and adds no resource by itself |
| PoolProperties.DispenseRespectsMax | lib/pool.ts:259-268 | `_dispense` never takes `_count` above `max` |
| PoolProperties.DispatchResourceLends | lib/pool.ts:228-238 | with a resource available and a request waiting, one dispatch makes one loan and takes one resource and one request out |
| PoolProperties.DispatchManyLends | lib/pool.ts:286-294 | n dispatches within the available resources and waiting requests make n loans |
| PoolProperties.TestOnBorrowMoves | lib/pool.ts:194-203 | one test moves one available resource into test |
| PoolProperties.TestManyMoves | lib/pool.ts:272-283 | n tests move n available resources into test |
| PoolProperties.DispenseHandsOut | lib/pool.ts:272-294 | without test-on-borrow `_dispense` lends min(available, waiting) resources; with it, it moves min(available, waiting − in test) into test |
| PoolProperties.ValidationDecides | lib/pool.ts:210-220 | the tested resource stays in the pool exactly when the validation result is not `false` |
| PoolProperties.AcquireWhileDraining | lib/pool.ts:476-480 | acquire on a draining pool fails and changes nothing |
| PoolProperties.AcquireStarted | lib/pool.ts:472-474 | the state acquire's guards see: unchanged when the pool has started or autostarts, and otherwise the state `start` leaves |
| PoolProperties.AcquireWhenFull | lib/pool.ts:482-492 | with no spare capacity, no available resource, and `maxWaitingClients` requests waiting, acquire fails with the waiting-clients error and the state is the one `start` left, so nothing is enqueued |
| PoolProperties.AcquireTimeoutNotPositive | lib/resource_request.ts:25-43 | a set `acquireTimeoutMillis` that is not positive makes the new request's `setTimeout` throw, so acquire fails with that error and enqueues nothing |
| PoolProperties.AcquireFailsOnlyOnGuards | lib/pool.ts:471-501 | acquire fails exactly when the pool drains, the waiting limit is reached, or the timeout is not positive; a failure leaves the state `start` left, and a success returns the next id |
| PoolProperties.DispatchManyFulfils | lib/pool.ts:286-294 | dispatching only ever moves requests to FULFILLED |
| PoolProperties.TestManyClients | lib/pool.ts:272-283 | moving resources into test leaves the clients alone |
| PoolProperties.DispenseFulfils | lib/pool.ts:246-295 | `_dispense` only ever moves requests to FULFILLED |
| PoolProperties.AcquireRegisters | lib/pool.ts:494-500 | a successful acquire registers a new request that is either fulfilled at once or waiting in the queue |
| PoolProperties.TimedRequestQueued | lib/resource_request.ts:64-66 | a request whose timer is armed is still waiting in the queue |
| PoolProperties.TimeoutRejects | lib/queue.ts:24-30 | a timeout rejects the request, unlinks exactly it from the queue, lowers `pending` by one and leaves the resources alone |
| PoolProperties.EnsureMinimumAddsMin | lib/pool.ts:376-384 | `_ensureMinimum` as written does nothing while draining; otherwise it starts `min` new creations when `min` is positive, whatever the count and `max`, and none when `min` is unset, zero or negative |
| PoolProperties.DestroyOvershootsMax | lib/pool.ts:162-179 | as written, destroying a counted resource with a positive `min` leaves `_count` at count − 1 + `min`; with `min` = `max` = 2 and two resources, that is 3, above `max` |
| PoolProperties.EnsureMinimumTopsUp | lib/pool.ts:376-384 | the corrected `EnsureMinimumIntended` does nothing while draining and otherwise brings `_count` up to `min` and never beyond |
| PoolProperties.DestroyIntendedWithinMax | lib/pool.ts:162-179 | with the corrected top-up, `_destroy` keeps `_count` within `max` when `min` is at most `max` |
| PoolProperties.MinShortfallAsWrittenIgnoresCount | lib/pool.ts:380 | as written, a non-zero `min` is taken as the shortfall whatever the count |
| PoolProperties.MinShortfallCounterexample | lib/pool.ts:380 | with min 2 and count 5 the code as written starts 2 creations where none are needed |
| PoolProperties.StartOnce | lib/pool.ts:446-452 | `start` on a draining or started pool changes nothing |
| PoolProperties.EvictStepEvicts | lib/pool.ts:412-425 | a checked resource that the evictor condemns leaves `_allObjects` and the available deque; otherwise the resources are unchanged |
| PoolProperties.EvictStepSpares | lib/pool.ts:396-426 | a pass removes at most one resource, and only when it checked one; loans, tests and clients are untouched |
| PoolProperties.EvictFromSpares | lib/pool.ts:396-426 | the remaining passes remove at most as many resources as checks remain |
| PoolProperties.EvictRunSpares | lib/pool.ts:386-427 | `_evict` removes at most min(numTestsPerEvictionRun, available) resources, only available ones, and leaves loans, tests and clients alone |
| Pools.Pool.constructor | lib/pool.ts:77-160 | the fields are the initial state, after `start` when autostart is on |
| Pools.Pool.CreateResource | lib/pool.ts:347-358 | registers one new create operation |
| Pools.Pool.AddToAvailable | lib/pool.ts:595-602 | the resource is idle at `now` and pushed (fifo) or unshifted onto the available deque |
| Pools.Pool.DispatchToNext | lib/pool.ts:303-320 | the fields become DispatchToNext of the old state |
| Pools.Pool.DispatchResource | lib/pool.ts:228-238 | the fields become DispatchResource of the old state |
| Pools.Pool.TestOnBorrow | lib/pool.ts:194-223 | the fields become TestOnBorrow of the old state |
| Pools.Pool.Dispense | lib/pool.ts:246-295 | the three loops leave the fields as Dispense of the old state |
| Pools.Pool.EnsureMinimum | lib/pool.ts:376-384 | the loop runs the shortfall as written and leaves the fields as EnsureMinimum of the old state |
| Pools.Pool.DestroyResource | lib/pool.ts:162-179 | the fields become DestroyResource of the old state |
| Pools.Pool.Discard | lib/pool.ts:162-176 | the resource is invalidated, leaves `_allObjects`, and one destroy operation starts |
| Pools.Pool.Start | lib/pool.ts:446-456 | the fields become Start of the old state |
| Pools.Pool.Acquire | lib/pool.ts:471-501 | the fields and the outcome are Acquire of the old state |
| Pools.Pool.IsBorrowed | lib/pool.ts:534-536 | true exactly when the resource is on loan |
| Pools.Pool.Release | lib/pool.ts:544-563 | the fields and the outcome are Release of the old state |
| Pools.Pool.Destroy | lib/pool.ts:574-593 | the fields and the outcome are Destroy of the old state |
| Pools.Pool.Drain | lib/pool.ts:612-613 | sets draining and nothing else |
| Pools.Pool.Created | lib/pool.ts:352-356 | the new resource joins `_allObjects` and the available deque |
| Pools.Pool.CreateSucceeded | lib/pool.ts:352-365 | the fields become CreateSucceeded of the old state |
| Pools.Pool.CreateFailed | lib/pool.ts:366-370 | the fields become CreateFailed of the old state |
| Pools.Pool.ValidationReturned | lib/pool.ts:210-220 | the fields become ValidationReturned of the old state |
| Pools.Pool.ValidationRejected | lib/pool.ts:207-210 | the validation operation leaves its set and nothing else changes |
| Pools.Pool.DestroySettled | lib/pool.ts:329-342 | the destroy operation leaves its set and nothing else changes |
| Pools.Pool.RequestTimedOut | lib/resource_request.ts:64-66 | the fields become RequestTimedOut of the old state |
| Pools.Pool.EvictStep | lib/pool.ts:396-426 | the fields and the pass kind are EvictStep of the old state |
| Pools.Pool.Evict | lib/pool.ts:386-427 | the loop leaves the fields as EvictRun of the old state |

## Left out

- Promises, `await` and the microtask order are not modelled. Each factory answer (create, destroy, validate) and each firing timer is a separate event method of `Pool`, applied at once and in any order the caller chooses.
- `_trackOperation` becomes insertion into and removal from a set of operation ids. The promise it returns is not modelled.
- The clock (`Date.now()`) is the parameter `now`. Timer handles become a boolean "armed" and a count of outstanding timers.
- Errors are emitted or thrown in the source; here they are the `Fail` outcome. The `new Error` objects, their stacks and lib/errors.ts are reduced to the `Error` datatype.
- The loan objects in `_resourceLoans` are a set of lent resource ids in the pool model. Nothing in the pool reads a loan after `release` or `destroy` resolves it. `ResourceLoan` itself is modelled on its own.
- lib/pooled_resource.ts is not part of this model. A pooled resource is an id with a state (IDLE, ALLOCATED, VALIDATION, INVALID) and a last idle time. `deallocate` is not modelled, because the resource is marked idle or invalid right after it.
- lib/pool_options.ts is not part of this model. The configuration is a record with the fields of lib/pool_defaults.ts, and an unset field (`None`) is read as JavaScript `undefined`: no comparison with it holds, and `x || 0` gives 0. With every field at the literal `null` of the defaults, the waiting-limit guard of `acquire` would hold in every reachable state: `null - count` is below 1, `_ensureMinimum` creates nothing because `null || 0 - count` is not positive, so no resource is ever available, `null !== undefined` holds and `0 >= null` holds. Every `acquire` would then reject with "max waitingClients count exceeded" before making a request, so the options object must normalise these fields. The other consequences of reading `null` as 0 are not modelled.
- `drain` is modelled only as setting `_draining`. Its waiting on requests and loans, `clear`, `ready`, `use` and the getters `max`/`min` (plain reads of the configuration) are left out, because they are promise sequencing.
- `_scheduleEvictorRun`, `_descheduleEvictorRun` and `_applyDestroyTimeout` are timer scheduling and `Promise.race`. Only the condition for scheduling an eviction run is modelled (`EvictionScheduled`).
- lib/factory_validator.ts, lib/utils.ts and mod.ts are left out: runtime type checks, a promise combinator and re-exports.
- `parseInt(delay.toString())`, the `+x | 0` int32 truncation of priorities and sizes, and non-numeric arguments are not modelled. Delays, priorities and sizes are integers.
- `_testOnReturnResources` is never filled in lib/pool.ts, so it is left out of `_potentiallyAllocableResourceCount`, where it would always add 0.
- A validation promise that rejects leaves the resource in `_testOnBorrowResources` in the source, because nothing handles the rejection. `ValidationRejected` models exactly that.
- A request timeout is one atomic step: the rejection and the unlinking by the queue's TimeoutError handler happen together. In the source the handler runs a microtask later.
- The containers' classes (`Deque`, `PriorityQueue`, the iterator) and the pool are connected through their specification functions: the pool's state holds the deque as a sequence of entries, the wait queue as a sequence of slots and the eviction cursor as an iterator state. The pool does not alias the heap objects, so sharing one node between two containers is not modelled.
- `Queue` extends `Deque` in the source; here a `Queue` holds a `Deque`. The source's `Queue` writes `this._list` while `Deque` keeps its list in the private `#list`, so as written `push` and the timeout handler reach a field that does not exist. The model gives them the deque's own list, as evidently intended.
- DoublyLinkedLists.DoublyLinkedList.Remove: requires the node to be a member of the list. The source does not check this; on a foreign node it would corrupt `head`, `tail` and `length`, and every caller in the library passes a member.
- Pools.Pool.Acquire: requires at least one wait slot. That always holds, because the constructor creates SlotCount(priorityRange) ≥ 1 slots.
- PoolProperties.ReleaseWithoutWaiters: states the return order only when nobody is waiting. With waiters the returned resource is handed on at once, and `DispatchServesFirst` covers that case.
- PoolProperties.DispenseHandsOut: states how many resources are lent or tested in the one `_dispense` call. The resources lent later, when a creation or a validation completes, are covered by the event methods instead.

## Findings

| source | as written | input that shows it | evidently intended | confidence | as-written member | corrected member |
|---|---|---|---|---|---|---|
| lib/pool.ts:380 | the logical-or binds looser than the subtraction, so the shortfall is `min` itself whenever `min` is non-zero, whatever the count | `min` = `max` = 2 with two resources, one of them on loan: destroying it starts 2 creations and takes `_count` to 3, above `max`; with 5 resources counted, `_ensureMinimum` still starts 2 | `min` (0 when unset) minus the count: create only what is missing up to `min` | not executed | PoolProperties.DestroyOvershootsMax | PoolProperties.EnsureMinimumTopsUp |

The pool's step functions and the `Pool` class follow the code as written: `PoolStates.EnsureMinimum`
uses `MinShortfallAsWritten`, so every step that calls `_ensureMinimum` (`start`, `_destroy`, and
through it `destroy`, a failed validation and eviction) starts `min` creations whenever `min` is
positive. `PoolProperties.EnsureMinimumAddsMin` and `PoolProperties.MinShortfallCounterexample` show
the difference. The intended rule is the separate function `PoolStates.EnsureMinimumIntended`, and
`PoolProperties.EnsureMinimumTopsUp` and `PoolProperties.DestroyIntendedWithinMax` are proved of it.
