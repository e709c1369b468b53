# Verification of the yazik concurrency core and message codec

This project models the parts of the repository whose correctness is hard to see by reading: the lock-free wait
protocols, reference counting, the executor loop, error propagation through awaiting coroutines, the generated
Protocol Buffers code of the sample, and the compile-time list functions. `dafny verify dfyconfig.toml` checks all of
it.

**Concurrent code** is modelled as a state machine. A state holds the shared words, the nodes in memory and the
program counter and locals of every call in progress; an action is one atomic access of one call, or the beginning of
a new call. A run is any sequence of enabled actions, by any number of threads, so a theorem that quantifies over runs
is about every interleaving. Atomics are sequentially consistent, and a weak compare-exchange may fail for no reason.
Fields called auxiliary record facts for the proofs and decide no step; `NeverDangling` in the stack and in the event
shows that the guards the code tests agree with them. Beside the theorems about all states there are theorems about
single calls, in the modules named `...Calls`: what a call has done when it returns, whatever the others do meanwhile.

The barrier is modelled twice. In the protocol the shared list is a sequence of waiters and a split filters it; in
`AwaiterLists` the list hangs from next pointers, and `publish` and `add_awaiter`, composed from its exchange, split,
link and compare-exchange, leave the same filtered lists. Both use the split tests of `SequenceTraits`.

**Sequential code** that works in place is modelled in place: the split loops of the barrier and the reversal of the
stack relink nodes through their next pointers, promises and messages are objects with mutable fields. Each such
method is proved against a function on values.

| files | what they model |
|---|---|
| `SequenceTraits`, `BarrierProtocol`, `BarrierInvariant`, `BarrierSteps`, `BarrierTheorems`, `BarrierCalls` | `SequenceBarrier`: modular order, protocol, invariant, its preservation, theorems, single calls |
| `AwaiterLists` | the intrusive lists of the barrier on the heap |
| `LinkedMemory`, `StackProtocol`, `StackInvariant`, `StackSteps`, `StackTheorems`, `StackAnswers`, `StackCalls` | `Stack` under any number of threads, with address reuse; what `push` answers; single calls |
| `StackObjects` | `Stack` as an object of one thread |
| `EventProtocol`, `EventInvariant`, `EventSteps`, `EventTheorems`, `EventCalls` | `CoroEvent` |
| `RwxProtocol`, `RwxTheorems`, `RwxCalls` | `RWXSpinlock` and `RWXLocker` |
| `RefCountProtocol`, `RefCountTheorems`, `RefCountCalls` | `ref_counted` and `intrusive_ptr` |
| `Executor` | `SingleThreadExecutor` |
| `Promises`, `Coroutines` | error propagation, tasks and channels |
| `Wire`, `Messages`, `Utf8`, `MessageTheorems`, `MessageRecords`, `MessageObjects`, `Cycles` | the codec of the sample messages |
| `TypeLists` | `type_list.hpp` |
| `Lists`, `Counting` | shared vocabulary |

## What the proofs take for granted

- The sequence numbers of the barrier are unbounded positions whose words are 64-bit. Every comparison is made on
  words. The callers' duty, stated as `InWindow`, is that numbers and targets still being compared are less than half
  the range apart; `PrecedesExact` shows that the comparison is right exactly then.
- `SequenceBarrier` has one producer, publishing numbers in order, as its documentation demands.
- Fewer than 2^62 lockers exist at a time, and fewer than 2^64 references. Both are what keeps the counters from
  wrapping around; the arithmetic itself wraps in the model.
- A smart pointer or a locker is used by one thread at a time.
- All coroutines of a chain use one error type, and frames do not catch.
- Messages serialize to less than 2^31 bytes.

## Where the code and its documentation disagree

- `tl_filter_type` is documented to keep the elements equal to a type; it removes them, and `tl_distinct` and
  `tl_intersect` rely on that. The two agree on the empty list only (`FilterTypeKeepsOnlyNothing`). The model follows
  the code.
- `tl_group_by` hands its predicate the structs `tl_head<In>` and `tl_back<Group>` instead of the types they select.
  It groups as intended exactly when the predicate says the same of both, type by type (`GroupsAsIntended`); for equal
  neighbours that is when there are none (`SameGroupsAsIntended`), since it then groups nothing (`SameGroupsNothing`).
- `Stack::push` answers whether the stack was empty by reading `new_node->next` after its compare-exchange. By then
  another thread may have stolen the node. The read is safe exactly when no sweep has delivered the node, and right
  exactly when, besides, no ordered sweep has relinked it, or relinked it as the newest node of its batch while the
  stack had been empty (`AnswerExact`). No steal in between is enough. `FreedBeforeAnswer` and `WrongAnswer` are runs
  in which it fails. The executor ignores the answer, but its pushes make the same read.
- A callback deferred to the executor does not always run before the loop returns: only if the action just executed
  deferred it, or one more action runs (`DeferredRunsExactly`).
- `ref_counted` is documented to start with a count of one; it starts with zero, and the first smart pointer makes it
  one.
- `MergeFrom` of the messages looks associative and is not: an empty `InsideOneOfMessage` merged over another member
  of the oneof clears it without a trace. `MergeAssociatesExactly` says for which messages it is associative,
  and `MergeNotAssociative` gives an input for which it is not.

## Model

| member | source | states |
|---|---|---|
| SequenceTraits.DifferenceExact | src/yazik/concurrency/sequence_barrier.hpp:215-217 | the signed difference of two words is the distance of the positions exactly when that lies in the signed range |
| SequenceTraits.PrecedesIsOrder | src/yazik/concurrency/sequence_barrier.hpp:219-221 | inside half the range, `precedes` on words is integer order, both ways round |
| SequenceTraits.PrecedesExact | src/yazik/concurrency/sequence_barrier.hpp:219-221 | within one range, `precedes` agrees with integer order if and only if the distance fits the signed word |
| SequenceTraits.PrecedesNotAntisymmetric | src/yazik/concurrency/sequence_barrier.hpp:219-221 | at half the range two words precede each other |
| BarrierSteps.RequeueEarliest | src/yazik/concurrency/sequence_barrier.hpp:592-612 | the target that `add_awaiter` rechecks is attained by a requeued waiter and is the earliest of them, although it is computed from a wrapped minimum difference |
| BarrierSteps.SplitIsOrder | src/yazik/concurrency/sequence_barrier.hpp:511-600 | the two different split tests of `publish` and `add_awaiter` both decide the order of positions |
| BarrierSteps.KeepInv | src/yazik/concurrency/sequence_barrier.hpp:484-626 | every atomic step of every call keeps conservation, the handshakes, the number bounds and the guard on overdue waiters |
| BarrierSteps.EveryReachableState | src/yazik/concurrency/sequence_barrier.hpp:484-626 | the invariant holds after every run |
| BarrierTheorems.NoLostWakeup | src/yazik/concurrency/sequence_barrier.hpp:484-626 | with no call in progress, the listed waiters are exactly the ones never continued and all await numbers after the last published; every other waiter was continued once |
| BarrierTheorems.OverdueIsGuarded | src/yazik/concurrency/sequence_barrier.hpp:557-614 | at any moment a listed waiter whose number is out is covered by a call that is bound to take the list |
| BarrierTheorems.ContinuedOnce | src/yazik/concurrency/sequence_barrier.hpp:349-393 | a coroutine is continued at most once, and exactly when both parties have done their exchange, or it never suspended |
| BarrierTheorems.OnePlace | src/yazik/concurrency/sequence_barrier.hpp:510-625 | a registered waiter is on the shared list, on one private list of one call, or handed over: exactly one of these, and once |
| BarrierTheorems.AnswerIsSound | src/yazik/concurrency/sequence_barrier.hpp:385-397 | the number an await returns was published and does not precede the target, on all three paths |
| BarrierTheorems.PassesArePaidFor | src/yazik/concurrency/sequence_barrier.hpp:557-614 | `add_awaiter` begins at most two passes plus one for every number stored since its first access to the barrier |
| BarrierTheorems.CallsFinish | src/yazik/concurrency/sequence_barrier.hpp:484-626 | from every reachable state the calls in progress can run to their end, and then every waiter whose number is out has been continued |
| BarrierCalls.AskedFor | src/yazik/concurrency/sequence_barrier.hpp:339-488 | after every run the numbers stored are those of the `publish` calls, in order, and the operations are the awaits made, with their targets |
| BarrierCalls.ReadyExactly | src/yazik/concurrency/sequence_barrier.hpp:366-392 | an await goes on at once if and only if its number is out already, with the last number as its answer; otherwise its call begins to list it |
| BarrierCalls.AwaitReturns | src/yazik/concurrency/sequence_barrier.hpp:349-393 | an await that has to wait is not continued before `await_suspend` is over; then it has been continued if and only if somebody handed it over, and otherwise it is listed |
| AwaiterLists.PublishSplit | src/yazik/concurrency/sequence_barrier.hpp:504-525 | the loop through two tail pointers leaves the unreached waiters and the reached ones on two null-terminated lists, each in order |
| AwaiterLists.AddSplit | src/yazik/concurrency/sequence_barrier.hpp:583-612 | the same for one pass of `add_awaiter`, behind the waiters collected before, and the nearest target put back |
| BarrierTheorems.NeverDangling | src/yazik/concurrency/sequence_barrier.hpp:349-626 | no step touches a wait operation whose coroutine was already continued |
| AwaiterLists.SharedList.Exchange | src/yazik/concurrency/sequence_barrier.hpp:496-590 | the whole list becomes private and the shared one empty |
| AwaiterLists.SharedList.CompareExchange | src/yazik/concurrency/sequence_barrier.hpp:527-569 | a successful CAS puts the private list in front of the shared one; a failed one changes nothing and reports the head |
| AwaiterLists.SharedList.PutBack | src/yazik/concurrency/sequence_barrier.hpp:527-537 | the loop of linking and weak compare-exchange puts the private list in front of the shared one, after any number of spurious failures |
| AwaiterLists.SharedList.Publish | src/yazik/concurrency/sequence_barrier.hpp:487-544 | alone on the barrier, `publish` leaves the unreached waiters on the list, in order and untouched, tells the others the number and resumes each once, which continues those whose flag was set |
| AwaiterLists.SharedList.AddAwaiter | src/yazik/concurrency/sequence_barrier.hpp:548-626 | alone on the barrier, `add_awaiter` lists the operation, or takes and splits the whole list when its number is already out, and then resumes what the number has reached, each once, and leaves the others untouched |
| AwaiterLists.ResumeAll | src/yazik/concurrency/sequence_barrier.hpp:539-544 | every waiter of the list is told the number, and continued if its flag was already set |
| LinkedMemory.OneList | src/yazik/concurrency/stack.hpp:16-26 | a null-terminated list is determined by its head and the memory |
| StackSteps.EveryStepKeeps | src/yazik/concurrency/stack.hpp:28-127 | every atomic step of every thread keeps nodes owned, lists well formed, and items accounted for |
| StackSteps.TurnThread | src/yazik/concurrency/stack.hpp:78-83 | one turn of the in-place reversal keeps both lists and the order of delivery |
| StackTheorems.PushOrder | src/yazik/concurrency/stack.hpp:28-127 | between calls, the batches in the order of the steals and then the stack, oldest first, are the pushes in order of their CAS, with freed addresses reused |
| StackTheorems.BatchesInOrder | src/yazik/concurrency/stack.hpp:74-92 | at any moment an ordered batch is the beginning of what its steal took |
| StackTheorems.NeverDangling | src/yazik/concurrency/stack.hpp:60-125 | no thread ever touches a freed node, but for the last read of `push` |
| StackAnswers.AnswerExact | src/yazik/concurrency/stack.hpp:107-127 | that read is safe if and only if no sweep has delivered the node since the push; the answer is right if and only if, besides, any reversal of the node left null exactly when the stack was empty; no steal since the push is enough for both |
| StackAnswers.AnswerFound | src/yazik/concurrency/stack.hpp:126-126 | what the read finds: nothing, what a reversal left there, or the head that the push replaced |
| StackAnswers.FreedBeforeAnswer | src/yazik/concurrency/stack.hpp:107-127 | a run in which the node is freed before its push reads it |
| StackAnswers.WrongAnswer | src/yazik/concurrency/stack.hpp:107-127 | a run in which `push` answers that the stack was empty although it held an item |
| StackAnswers.RelinkedBeforeAnswer | src/yazik/concurrency/stack.hpp:73-127 | from every state in which its two threads are idle, an ordered sweep that starts right after a push makes it answer that the stack was empty |
| StackTheorems.NoLeak | src/yazik/concurrency/stack.hpp:60-127 | between calls, exactly the nodes on the list are allocated, each there once |
| StackTheorems.CallsFinish | src/yazik/concurrency/stack.hpp:28-127 | from every reachable state the calls in progress can run to their end, one after the other |
| StackCalls.SweepReturns | src/yazik/concurrency/stack.hpp:28-92 | a call to `sweep` or `sweep_ordered`, whatever other threads do, at one moment found the list empty and delivered nothing, or took the list that hung from the head and delivered its items, newest first or oldest first as asked |
| StackCalls.PushReturns | src/yazik/concurrency/stack.hpp:107-127 | a call to `push`, whatever other threads do, at one moment put its item in front of what hung from the head; if no steal succeeded since then it answers whether that was nothing |
| StackObjects.ReverseInPlace | src/yazik/concurrency/stack.hpp:77-83 | the loop leaves the reversed list |
| StackObjects.Deliver | src/yazik/concurrency/stack.hpp:84-90 | the callbacks see the items in list order |
| StackObjects.Stack.Push | src/yazik/concurrency/stack.hpp:107-127 | the item is on top, and the answer says whether the stack was empty |
| StackObjects.Stack.Sweep | src/yazik/concurrency/stack.hpp:60-71 | everything is delivered newest first, and the answer says whether there was anything |
| StackObjects.Stack.SweepOrdered | src/yazik/concurrency/stack.hpp:73-92 | everything is delivered oldest first, and the answer says whether there was anything |
| StackObjects.Stack.Steal | src/yazik/concurrency/stack.hpp:94-105 | the oldest item is on top of the `std::stack` |
| StackObjects.Stack.FromStack | src/yazik/concurrency/stack.hpp:44-49 | the top of the `std::stack` is the oldest item |
| StackObjects.Rebuild | src/yazik/concurrency/stack.hpp:44-105 | `Stack(steal())` has the items in the same order |
| EventSteps.EveryStepKeeps | src/yazik/concurrency/event.cpp:55-109 | every atomic step keeps the list well formed and every await in one place |
| EventTheorems.ResumedByFirstSet | src/yazik/concurrency/event.cpp:55-109 | with no call in progress, every await passed, or was resumed exactly once by the first `set` after it was listed, or was listed after the last `set` |
| EventTheorems.NeverTwice | src/yazik/concurrency/event.cpp:63-71 | at no moment was an await resumed twice or by another `set` |
| EventTheorems.NobodyListedWhileSet | src/yazik/concurrency/event.cpp:87-109 | while the word is set no operation is listed; otherwise the list holds exactly the listed ones |
| EventTheorems.NeverDangling | src/yazik/concurrency/event.cpp:63-71 | no step touches an operation whose coroutine has gone on |
| EventTheorems.PassesOnlyWhenSet | src/yazik/concurrency/event.cpp:83-97 | an await goes on without suspending only in a step that finds the event set |
| EventTheorems.FreshList | src/yazik/concurrency/event.cpp:55-77 | an await not yet listed while a `set` is resuming is never resumed by that `set`, whatever is reset and set meanwhile |
| EventTheorems.ResetHolds | src/yazik/concurrency/event.cpp:74-109 | from `reset` to the next exchange of a `set`, along any run, the event is not set, nobody passes, and an await made meanwhile waits for that `set` |
| EventTheorems.ResetThenSet | src/yazik/concurrency/event.cpp:55-109 | an await listed after a `reset` is resumed by the next `set`, once |
| EventTheorems.SetHolds | src/yazik/concurrency/event.cpp:55-109 | from the exchange of a `set` to the next `reset`, along any run, the event is set, nobody is listed, and an await made meanwhile passes |
| EventTheorems.CallsFinish | src/yazik/concurrency/event.cpp:55-109 | from every reachable state the calls in progress can run to their end, and then every await listed before the last `set` has been resumed, by the first |
| EventTheorems.MadeSet | src/yazik/concurrency/event.cpp:35-37 | on an event made set, until the first `reset`, nobody is ever listed and every await passes |
| EventTheorems.MadeNotSet | src/yazik/concurrency/event.cpp:35-37 | on an event made not set, until the first exchange of a `set`, nobody passes and every await waits |
| EventCalls.DecidesExactly | src/yazik/concurrency/event.cpp:83-109 | a step of an await passes if and only if it finds the event set, and lists the operation if and only if its compare-exchange finds the head it points to |
| EventCalls.AwaitReturns | src/yazik/concurrency/event.cpp:83-109 | when an await is through with its call it has passed, or it was listed for the next exchange of a `set` |
| EventCalls.SetReturns | src/yazik/concurrency/event.cpp:55-71 | when a call to `set` returns there was an exchange meanwhile such that everybody listed for it has been resumed, once |
| RwxTheorems.EveryStepKeeps | src/yazik/concurrency/rwx_spinlock.cpp:14-194 | every step of every locker keeps the word equal to the modes held |
| RwxTheorems.WordCountsHolders | src/yazik/concurrency/rwx_spinlock.cpp:14-107 | the word is `LONG_MIN` for one exclusive locker alone, otherwise twice the readers plus the at most one writer, and never overflows |
| RwxTheorems.Exclusion | src/yazik/concurrency/rwx_spinlock.cpp:14-107 | two lockers hold a spinlock together only as readers or as one writer among readers |
| RwxTheorems.AllReleased | src/yazik/concurrency/rwx_spinlock.cpp:109-194 | the word is zero if and only if no live locker holds the spinlock |
| RwxTheorems.UpgradeAssertion | src/yazik/concurrency/rwx_spinlock.cpp:83-95 | the assertion at the start of the upgrade holds |
| RwxTheorems.NobodyEnters | src/yazik/concurrency/rwx_spinlock.cpp:34-95 | while a writer or an exclusive locker is in, along any run, the readers never become more, nobody else gets in, and exclusive means no reader is left |
| RwxTheorems.EntersOnlyWhenLetIn | src/yazik/concurrency/rwx_spinlock.cpp:14-95 | a step adds a holder of a mode only when the word let that mode in |
| RwxTheorems.UpgradeCompletes | src/yazik/concurrency/rwx_spinlock.cpp:83-95 | once the readers are gone an upgrading writer needs two steps of its own |
| RwxTheorems.TransferMoves | src/yazik/concurrency/rwx_spinlock.cpp:133-151 | assigning field by field moves the whole locker, also onto itself |
| RwxCalls.AdmittedExactly | src/yazik/concurrency/rwx_spinlock.cpp:14-74 | a locker that is acquiring is let in if and only if its compare-exchange does not fail without reason, the word is what it last saw, and no other locker holds a mode that excludes its own; otherwise a lock call looks again and a try gives up |
| RwxCalls.UpgradedExactly | src/yazik/concurrency/rwx_spinlock.cpp:76-81 | a reader becomes the writer if and only if the same holds for writing, and otherwise goes on reading |
| RwxCalls.LockCompletes | src/yazik/concurrency/rwx_spinlock.cpp:21-74 | a locker that nobody excludes is let in by two steps of its own |
| RwxCalls.LockReturns | src/yazik/concurrency/rwx_spinlock.cpp:114-131 | the constructor returns only once the locker holds the mode |
| RwxCalls.TryReturns | src/yazik/concurrency/rwx_spinlock.cpp:14-60 | a try returns holding the mode or nothing |
| RwxCalls.UpgradeReturns | src/yazik/concurrency/rwx_spinlock.cpp:182-194 | `upgrade_to_x` returns only once the locker is exclusive |
| RwxCalls.TryUpgradeReturns | src/yazik/concurrency/rwx_spinlock.cpp:170-180 | `try_upgrade_to_w` returns a reader as reader or writer and leaves any other locker as it was |
| RwxCalls.NewLockIsFree | src/yazik/concurrency/rwx_spinlock.hpp:9-9 | a new spinlock excludes nobody |
| RwxCalls.UnlockReleases | src/yazik/concurrency/rwx_spinlock.cpp:153-168 | after `unlock` the locker holds nothing, and every other one holds what it held |
| RwxCalls.DestroyReleases | src/yazik/concurrency/rwx_spinlock.cpp:140-142 | the destructor takes the locker away, and every other one holds what it held |
| RwxCalls.MoveHandsOver | src/yazik/concurrency/rwx_spinlock.cpp:133-138 | moving hands over spinlock and mode, empties the source and changes nothing else |
| RwxCalls.AssignHandsOver | src/yazik/concurrency/rwx_spinlock.cpp:144-151 | assigning gives back what the locker held and then moves; assigned to itself a locker ends up empty |
| RefCountTheorems.EveryStepKeeps | src/yazik/utility/intrusive_ptr.hpp:43-111 | every pointer operation and every step of a release keeps the counts exact |
| RefCountTheorems.AssignKeeps | src/yazik/utility/intrusive_ptr.hpp:97-101 | `reset` references the new object before it releases the old one, so both may be the same |
| RefCountTheorems.CheckKeeps | src/yazik/utility/ref_counted.hpp:33-46 | a count of one read by an owner means that it is the only owner |
| RefCountTheorems.NeverTouchedAfterDelete | src/yazik/utility/ref_counted.hpp:27-46 | the object of every pointer and of every release in progress exists, and nothing is deleted twice |
| RefCountTheorems.DeletedAfterLastOwner | src/yazik/utility/ref_counted.hpp:33-41 | a release about to delete is the only one, and nothing owns the object |
| RefCountTheorems.NothingLeaks | src/yazik/utility/intrusive_ptr.hpp:74-77 | when all pointers are gone only objects that nobody ever owned are left |
| RefCountTheorems.CountIsOwners | src/yazik/utility/ref_counted.hpp:27-50 | the count of an object not being deleted is the number of references to it |
| RefCountCalls.NewIsUnowned | src/yazik/utility/ref_counted.hpp:53-53 | a new object has no references |
| RefCountCalls.ConstructPoints | src/yazik/utility/intrusive_ptr.hpp:43-45 | a pointer made from a new object points to it |
| RefCountCalls.CopyPoints | src/yazik/utility/intrusive_ptr.hpp:52-54 | a copy points where the original does, which stays as it is |
| RefCountCalls.MovePoints | src/yazik/utility/intrusive_ptr.hpp:47-50 | moving takes the reference over and leaves the source null |
| RefCountCalls.SwapPoints | src/yazik/utility/intrusive_ptr.hpp:79-81 | swapping exchanges, and swapping back undoes it |
| RefCountCalls.DetachThenAttach | src/yazik/utility/intrusive_ptr.hpp:43-89 | a raw pointer given out and taken back is the same reference in another pointer |
| RefCountCalls.ResetPoints | src/yazik/utility/intrusive_ptr.hpp:97-101 | `reset()` leaves null and gives the old reference up |
| RefCountCalls.ResetToPoints | src/yazik/utility/intrusive_ptr.hpp:97-111 | after an assignment both point where the source did, itself included, and the old reference is given up |
| RefCountCalls.ResetFreshPoints | src/yazik/utility/intrusive_ptr.hpp:97-101 | `reset` to a new object points to it and gives the old reference up |
| RefCountCalls.ResetRawPoints | src/yazik/utility/intrusive_ptr.hpp:97-101 | `reset` without a new reference takes the raw pointer's over |
| RefCountCalls.AssignMovePoints | src/yazik/utility/intrusive_ptr.hpp:108-111 | move assignment takes the reference over and empties the source; to itself it does nothing |
| RefCountCalls.DestroyPoints | src/yazik/utility/intrusive_ptr.hpp:74-77 | the destructor gives the reference up |
| RefCountCalls.ReleaseCompletes | src/yazik/utility/ref_counted.hpp:33-41 | a release that nobody disturbs takes at most two steps, deletes the object when its reference was the only one, and otherwise takes one reference away |
| Executor.RunsInOrder | src/yazik/concurrency/executor.cpp:154-202 | dispatched actions run at most once and in dispatch order |
| Executor.DrainsBeforeReturn | src/yazik/concurrency/executor.cpp:165-173 | when `thread_loop` has returned, exactly what was dispatched before its last empty poll has run |
| Executor.SweepAfterEveryAction | src/yazik/concurrency/executor.cpp:154-163 | there is one sweep after every action |
| Executor.SweepNewestFirst | src/yazik/concurrency/executor.cpp:161-163 | a sweep runs what was on the deferred stack when it began, newest first |
| Executor.DeferredInSweeps | src/yazik/concurrency/executor.cpp:154-163 | when the last sweep is over, exactly the callbacks deferred before it began have run, once each, in batches |
| Executor.DeferredRunsExactly | src/yazik/concurrency/executor.cpp:154-173 | a deferred callback has run when the loop returns if and only if the action just executed deferred it, or one more action ran |
| Executor.DeferredRunsWithoutDispatch | src/yazik/concurrency/executor.cpp:154-173 | when nothing more is dispatched, that is if and only if an action is waiting for its sweep or still to be run |
| Executor.DeferredMayNeverRun | src/yazik/concurrency/executor.cpp:161-173 | a run in which a deferred callback is never run |
| Executor.Returns | src/yazik/concurrency/executor.cpp:165-173 | once cancelled, and when nothing more is pushed, the loop returns |
| Executor.AskedFor | src/yazik/concurrency/executor.cpp:187-210 | what counts as dispatched, deferred and cancelled is what was asked for, in that order |
| Executor.ReturnsOnlyCancelled | src/yazik/concurrency/executor.cpp:165-173 | the loop returns only once it was cancelled |
| Executor.EverythingRuns | src/yazik/concurrency/executor.cpp:154-173 | as long as the loop has not returned it gets to run everything dispatched so far, in order and nothing else |
| Executor.ReturnsOnceStopped | src/yazik/concurrency/executor.cpp:165-173 | after a stop, whenever it came, the loop returns once nothing more is pushed |
| Promises.PropagateExact | src/yazik/concurrency/task.hpp:88-102 | over a chain of any length the handle is the first plain awaiter, and only the named promises change |
| Promises.ShortCircuit | src/yazik/concurrency/channel.hpp:51-87 | the failing frame's final suspend resumes the first plain awaiter, or the channel that awaits it directly and has a plain awaiter |
| Promises.TasksShortCircuit | src/yazik/concurrency/task.hpp:68-102 | in a chain of tasks the error is stored in the outermost only, and no frame in between runs |
| Promises.RefinesRethrow | src/yazik/concurrency/task.hpp:68-102 | storing the error frame by frame along the chain ends at the same awaiter with the same result, and differs only in the frames that short-circuiting skips; for frames with bodies that run, see `Coroutines.TaskRuns` |
| Promises.Coroutine.SetContinuation | src/yazik/utility/detail/promise_base.hpp:108-122 | awaiting adds a linked promise to the chain, whose flags are those of the awaiter's kind |
| Promises.Coroutine.PropagateErrorImpl | src/yazik/concurrency/task.hpp:88-102 | the objects change as `Propagate` says, through the whole chain |
| Promises.Coroutine.UnhandledException | src/yazik/concurrency/task.hpp:68-75 | the results and the redirected continuation are those of `Unhandled` |
| Promises.Coroutine.Fail | src/yazik/concurrency/task.hpp:20-102 | a failing object stores the error where `Stored` says, and its final suspend hands control to the first plain awaiter, or to the channel that awaits it directly and has a plain awaiter |
| Coroutines.TaskEnds | src/yazik/concurrency/task.hpp:68-102 | a running task, awaited by any chain, ends with the result of evaluating it, and control goes where it should |
| Coroutines.TaskRuns | src/yazik/concurrency/task.hpp:152-198 | for every program of tasks the plain awaiter gets the result that rethrowing at every await gives |
| Coroutines.ChannelPauses | src/yazik/concurrency/channel.hpp:127-153 | a channel runs to its next item or its end |
| Coroutines.ChannelDelivers | src/yazik/concurrency/channel.hpp:155-256 | a plain consumer's loop sees exactly the items yielded, then the end; `result()` holds an error exactly when the body ended by one, and advancing again throws it |
| Coroutines.LoopEnds | src/yazik/concurrency/channel.hpp:171-248 | the loop reaches the end |
| Wire.VarintRoundTrip | examples/out/book/sample.pb.cc:1247-1252 | decoding undoes encoding of a varint, whatever follows |
| Wire.FieldRoundTrip | examples/out/book/sample.pb.cc:1241-1459 | a record is read back whole, whatever follows |
| Wire.DecodeEncode | examples/out/book/sample.pb.cc:1241-1459 | any sequence of records is read back |
| Wire.DecodeConcat | examples/out/book/sample.pb.cc:1241-1459 | bytes that decode on their own decode to the same records in front of any others |
| Wire.DecodeVarintExact | examples/out/book/sample.pb.cc:1247-1252 | a varint is read if and only if the input starts with one of at most that many bytes, and its value is that of its groups of seven bits |
| Wire.TruncatedFails | examples/out/book/sample.pb.cc:1241-1459 | a record that is cut short is not read |
| Utf8.ValidExactly | examples/out/book/sample.pb.cc:1261-1261 | the strings accepted are exactly the encodings of sequences of Unicode scalar values |
| Utf8.AsciiIsValid | examples/out/book/sample.pb.cc:1261-1261 | every ASCII string is accepted |
| MessageTheorems.ParseIsMerge | examples/out/book/sample.pb.cc:1241-1631 | parsing the bytes of a book into any book is `MergeFrom`, if and only if its strings are UTF-8; otherwise it fails |
| MessageTheorems.ConcatenationMerges | examples/out/book/sample.pb.cc:1241-1631 | parsing the bytes of two books one after the other is merging the second into the first |
| MessageTheorems.BookRoundTrip | examples/out/book/sample.pb.cc:1241-1459 | parse undoes serialize |
| MessageTheorems.SerializeInjective | examples/out/book/sample.pb.cc:1361-1459 | two books with the same bytes are the same |
| MessageRecords.LastOneWins | examples/out/book/sample.pb.cc:1241-1359 | of two records for one field, or for two members of one oneof, the last one wins, default values included |
| MessageRecords.SubmessagesJoin | examples/out/book/sample.pb.cc:1267-1345 | two records for one submessage are one record with the bytes of both |
| MessageRecords.NumbersSet | examples/out/book/sample.pb.cc:1247-1335 | a record for a number sets its field, zero included, and nothing else |
| MessageRecords.StringsSet | examples/out/book/sample.pb.cc:1257-1325 | a record for a string sets its field, the empty one included, if it is UTF-8, and fails otherwise |
| MessageTheorems.MergeIntoEmpty | examples/out/book/sample.pb.cc:1578-1645 | merging into an empty book copies |
| MessageTheorems.MergeFromEmpty | examples/out/book/sample.pb.cc:1578-1631 | merging an empty book changes nothing |
| MessageTheorems.MergeAssociatesExactly | examples/out/book/sample.pb.cc:1578-1631 | merging is associative exactly when no replaced oneof is forgotten |
| MessageTheorems.MergeNotAssociative | examples/out/book/sample.pb.cc:1615-1630 | an input for which it is not |
| MessageObjects.ParseTextMessage | examples/out/book/sample.pb.cc:473-510 | the parse loop of the one-string messages computes `Parse` |
| MessageObjects.ParsePageMessage | examples/out/book/sample.pb.cc:886-928 | the parse loop with the inner run of lines computes `Parse` |
| MessageObjects.PageByteSize | examples/out/book/sample.pb.cc:954-977 | the sum is the number of bytes written |
| MessageObjects.WritePage | examples/out/book/sample.pb.cc:930-952 | the loop appends the encoded lines |
| MessageObjects.BookMessage.Clear | examples/out/book/sample.pb.cc:1221-1239 | the book is the empty one |
| MessageObjects.BookMessage.InternalParse | examples/out/book/sample.pb.cc:1241-1359 | the loop over tags, with the inner run of pages, computes `ParseBook` from whatever the book held, or fails with it |
| MessageObjects.BookMessage.ParseAuthor | examples/out/book/sample.pb.h:2103-2110 | a second author is parsed into the first |
| MessageObjects.BookMessage.ParseMessage | examples/out/book/sample.pb.h:2555-2562 | the message member is kept if it is there, and replaces any other |
| MessageObjects.BookMessage.ByteSizeLong | examples/out/book/sample.pb.cc:1461-1561 | the sum, in its own order of fields, is the number of bytes, and every submessage has its own size cached |
| MessageObjects.BookMessage.InternalSerialize | examples/out/book/sample.pb.cc:1361-1459 | with the cached sizes as length prefixes the bytes are those of `SerializeBook` |
| MessageObjects.BookMessage.SerializeToBytes | examples/out/book/sample.pb.cc:1361-1561 | measuring and then writing gives the right bytes, as many as measured |
| MessageObjects.BookMessage.MergeFrom | examples/out/book/sample.pb.cc:1578-1631 | the fields after it are those of `Merge` |
| MessageObjects.BookMessage.CopyFrom | examples/out/book/sample.pb.cc:1640-1645 | the book is equal to the other one, which may be itself |
| Cycles.ParseIsMerge1 | examples/out/book/sample.pb.cc:2448-2505 | parsing a message nested to any depth into any other merges it |
| Cycles.ParseIsMerge2 | examples/out/book/sample.pb.cc:2663-2720 | the same for the other of the two messages |
| Cycles.CycleConcatenationMerges | examples/out/book/sample.pb.cc:2448-2505 | the bytes of two messages one after the other parse to their merge |
| Cycles.CycleRoundTrip | examples/out/book/sample.pb.cc:2448-2505 | parse undoes serialize at every depth |
| Cycles.MergeIsLonger1 | examples/out/book/sample.pb.cc:2540-2556 | merging two chains gives the deeper one |
| Cycles.SerializeIsNested1 | examples/out/book/sample.pb.cc:2485-2505 | the bytes are the nested length-delimited records of the depth |
| Cycles.CycleObject.ByteSizeLong | examples/out/book/sample.pb.cc:2507-2529 | every level has the number of its bytes cached |
| Cycles.CycleObject.InternalSerialize | examples/out/book/sample.pb.cc:2485-2505 | with the cached sizes as length prefixes the bytes of every level are right |
| TypeLists.SliceExact | src/yazik/utility/type_list.hpp:152-202 | a slice has the elements of the range and the pad type past the end |
| TypeLists.PopBackExact | src/yazik/utility/type_list.hpp:656-670 | all but the last element |
| TypeLists.DistinctExact | src/yazik/utility/type_list.hpp:823-840 | every element once, in the order of first occurrence |
| TypeLists.FilterTypeKeepsOnlyNothing | src/yazik/utility/type_list.hpp:792-804 | `tl_filter_type` gives what its documentation says if and only if the list is empty |
| TypeLists.IntersectExact | src/yazik/utility/type_list.hpp:956-983 | the elements that occur at least twice, in the order of first occurrence |
| TypeLists.IntersectMembers | src/yazik/utility/type_list.hpp:956-983 | an element is in the intersection if and only if it occurs at least twice in the lists together |
| TypeLists.IntersectOfTwo | src/yazik/utility/type_list.hpp:977-983 | of two lists without duplicates, the common elements in the order of the first |
| TypeLists.GroupsCover | src/yazik/utility/type_list.hpp:987-1028 | for every predicate the groups are not empty and concatenate back to the list |
| TypeLists.GroupsBeginExactly | src/yazik/utility/type_list.hpp:987-1028 | for every predicate the groups are the only way to cut the list such that a new group begins exactly where the predicate is false of the struct for the rest of the list and the struct for the group |
| TypeLists.GroupsAsIntended | src/yazik/utility/type_list.hpp:987-1028 | the groups are the intended ones if and only if the predicate says of the structs, along the list, what it says of the types |
| TypeLists.SameGroupsAsIntended | src/yazik/utility/type_list.hpp:1000-1009 | equal neighbours are grouped as intended if and only if there are none |
| TypeLists.SameGroupsNothing | src/yazik/utility/type_list.hpp:1000-1009 | comparing the wrappers for equality puts every type in a group of its own |

## Left out

- Weak memory orders, waiting strategies, thread creation and spurious timing: atomics are sequentially consistent steps.
- The window of the barrier's sequence numbers is a condition on runs; outside it the modular comparison has no meaning to prove.
- Construction of a wait operation of the barrier and its `await_ready` are one step, since only the construction reads shared memory.
- `SequenceBarrierWaitOperation`'s rescheduling on an executor before it continues the coroutine: the model counts the continuation.
- RwxProtocol, RefCountProtocol and Executor model their objects on values, because their methods interleave: a state is the value of all fields at one moment, and there is no aliasing beyond what the recorded pointers express.
- StackTheorems.NeverDangling: does not claim the last read of `push`, which can touch a freed node; `StackAnswers.AnswerExact` says when it does not. A read of a freed address finds nothing in the model, and the thread goes on.
- AwaiterLists.SharedList.Publish: one call alone on the barrier; that its steps, interleaved with others, are those of the protocol is not proved.
- AwaiterLists.SharedList.AddAwaiter: the same, and the last number does not change while it runs.
- The destructors of `Stack` and `CoroEvent`, `empty()` and `is_set()` by themselves: they only read or free.
- `intrusive_ptr` conversions, comparisons and casts, and copy-constructed `ref_counted` objects, whose count starts differently.
- A push and a steal of the executor's stacks are single steps; `StackTheorems.PushOrder` gives the same order between calls, but that the finer steps simulate these is not proved.
- Managed actions and cancellation tokens of the executor, its start and wait, and the back-off of its loop.
- Exceptions caught inside intermediate coroutines, `Future` and `Generator` promises, loops in coroutine bodies (a program here is finite), channels consumed by tasks, and destruction of suspended frames. A channel awaited by a propagating consumer appears in the chains of `Promises` only.
- MessageObjects.BookMessage: submessages are values owned by the book, so pointers handed out by mutable accessors, arenas and ownership transfer are not modelled; the two messages with one string share their code.
- Unknown fields and wire types that the schema does not use fail to parse in the model; the library would keep or skip them. Reflection, descriptors, the map field of `BookStore`, and the library's limit on nesting are not part of the model.
- `CoroScope`, `Event`, `CVWaiter`, `MPSCResultEvent`, gRPC, schedulers, code generation, JSON, logging and file handling.
- The list functions of `type_list.hpp` not named above: they are of the same kind and easier.
