# Verified model of sweater's protocols

sweater spreads loop iterations over threads and carries its own synchronisation primitives. This
project models the parts whose comments claim safety, in Dafny, and proves the claims for every
interleaving of any number of threads and for every input.

Six components are modelled:

- **The reader-writer locks** `futex_rw_mutex` and `reader_preferring_futex_rw_mutex`: one packed
  word with a locked bit, a waiting bit, a parked bit and a reader count, and the loops that
  compare-exchange, park and wake on it.
- **The futex semaphore**: tokens, wake credits and a sleeper count in three separate words.
- **The promise/future slot**: two owners around that semaphore.
- **The libuv spread**: caller, loop-thread queuer, pool workers and after-callbacks around one
  refcounted node, and the list through which off-loop callers hand nodes over.
- **The generic pool**: the split into caller part, parts and slices, the join, the worker loop, the
  shutdown, and the chunk arithmetic the other backends share.
- **The reentrant read registry** and the read side of `basic_rrw_mutex`.

## How it is built

Each protocol comes in two layers.

A *machine* module (`RwMutex`, `Semaphore`, `FutureSlot`, `LibuvSpread`, `HandoffList`, `SpreadJoin`,
`WorkerPool`) gives every participant a program counter and makes every atomic operation one step:
each load, compare-exchange (which may fail without cause), fetch-add, exchange, park (which may
return without cause) and wake. `Runs` says what a run of a machine is and what follows from an
invariant or a rank that every step keeps or lowers; `Reachable` collects the states of all runs of
any number of threads. The theorems about reachable states and whole runs follow from an invariant.
`LibuvHandoff` runs the hand-off list and the spreads of its nodes together, `PoolSpread` a spread
that queues and waits on the pool's workers, and `WorkerEvent` ties the pool's events to the semaphore.

A *code* module (`RwMutexCode`, `SemaphoreCode`, `FutureCode`, `LibuvCode`, `HandoffListCode`,
`SpreadJoinCode`, `WorkerPoolCode`) writes the same operations as the source does: a class with the
mutable fields and methods with the source's loops, the lock's on the packed machine word with its
own masks. A schedule argument says what the other participants do before each step and which weak
operations fail; any list of steps is allowed, and one that cannot be taken is passed over. `Valid()`
says that all steps so far form a run of the machine, so every theorem holds of the object at every
return. A method whose schedule ends first reports that it is still under way; `turns`, which counts
the turns gone by, says that one which waits does so only when at most three are left, fewer than the
steps it has to take together. The contracts say which operations never wait; what an undisturbed call
answers and leaves behind; and for calls that loop, that from any state on, once the others fall silent
for a stated number of turns, the call has ended or stands where it must wait. `Schedules` holds what
the schedules share, the effect of the others' steps included.

Sequential code (`WorkSplit`, `ChunkedSpread`, `ReadRegistry`) is modelled as methods with the
source's loops, proved against specification functions, or as functions where the source is
arithmetic on constants. `MachineWord` and `RwWord` model the lock word bit by bit, at any width of
four bits or more. `Coverage` and `GenericSpread` put splits and protocols together.

`dafny verify dfyconfig.toml` checks the whole project.

## Assumed of the environment

- Steps are sequentially consistent.
- `wait_if_equal` parks atomically and only if the word equals its argument; it may return without
  cause. `wake_all` unparks every matching waiter. `wake(n)` unparks at least min(n, parked): the
  model unparks one sleeper a step, other threads may run in between, and unparks beyond n are
  returns without cause.
- `uv_cancel` succeeds exactly for work no worker has started; a cancelled request still gets its
  after-callback. `uv_queue_work` may refuse.
- The work queue is a linearizable bag.
- Read holds stay below `reader_mask`, as the source asserts; what happens at the limit is stated by
  `RwWord.AdmitOverflows` and by the outcome `Overflow`.
- Release operations are called by a thread with a hold to release, and a promise is completed once,
  as the source asserts.

## Where code and documentation disagree

The model follows the code.

- `README.md:83-86` and `test/sweat_shop_stress_test.cpp:33-37` say the generic pool's loop drains
  its queue before it honours the shutdown. A worker that has found the queue empty and not yet
  looked at `brexit_` (`include/psi/sweater/impls/generic.cpp:203-211`) exits without another look. If every worker
  stands there when the flag is stored, an item enqueued and announced meanwhile is never run:
  `WorkerPoolTheorems.LostItem` is such a run, and `WorkerPoolTheorems.DrainsExactlyWhen` gives the exact condition.
- `include/psi/sweater/impls/generic.cpp:536` limits the slicing division to 16 so as not to overflow the
  thread-count type. With enough workers the slices of a spread outnumber that type all the same (8 bits
  on ARM, `include/psi/sweater/threading/hardware_concurrency.hpp:53-57`), and `everyone_arrived`
  (`include/psi/sweater/threading/futex_barrier.cpp:41-42`), at which the spinning caller looks, casts the
  32-bit counter to it. With a full turn of the type in other threads' hands the caller takes all for
  arrived: `SpreadJoinCast.EarlyReturn`. `SpreadJoinCast.CompleteExactlyWhen` gives the exact condition.
  One spread at a time, with slices that spread no further, always meets it: its only other hands are
  the workers, who fit the type together with the caller.
- `include/psi/sweater/threading/futex_rw_mutex.hpp:71-97` still describes two flag bits, a `wake_one` on the last
  read release and a writer that only takes a word that is exactly 0. The code has three flag bits,
  uses `wake_all` aimed at writers, and takes a word with announce bits set, keeping them.

## Model

| member | source | states |
|---|---|---|
| `MachineWord.IncrementLow` | include/psi/sweater/threading/futex_rw_mutex.hpp:221-226 | below the all-ones value of the low part, `+1` on the whole word adds one to the low part and leaves the high part alone |
| `MachineWord.IncrementCarry` | include/psi/sweater/threading/futex_rw_mutex.hpp:221-226 | at the all-ones value `+1` clears the low part and carries into the high part |
| `MachineWord.DecrementLow` | include/psi/sweater/threading/futex_rw_mutex.hpp:221-226 | above zero, `-1` on the whole word takes one from the low part and borrows nothing from the high part |
| `RwWord.UnpackBits` | include/psi/sweater/threading/futex_rw_mutex.hpp:221-226 | the masks read out exactly the three top bits and the number in the bits below them |
| `RwWord.UnpackInjective` | include/psi/sweater/threading/futex_rw_mutex.cpp:75-88 | two packed words are equal if and only if they read out alike, so a compare-exchange or a futex wait compares states |
| `RwWord.RawGuards` | include/psi/sweater/threading/futex_rw_mutex.cpp:64-80 | the bit tests of the source, on the packed word, hold exactly when the lock is takeable, announced, or free of writer bits |
| `RwWord.AdmitExact` | include/psi/sweater/threading/futex_rw_mutex.cpp:135-136 | adding 1 to the packed word adds one reader and touches no flag if and only if the count is below `reader_mask` |
| `RwWord.AdmitOverflows` | include/psi/sweater/threading/futex_rw_mutex.cpp:135-136 | at `reader_mask` the same addition restarts the count at zero and sets the reader-parked bit |
| `RwWord.DepartExact` | include/psi/sweater/threading/futex_rw_mutex.cpp:30-31 | with a live reader, `fetch_sub(1)` takes one reader off and borrows nothing from the flags |
| `RwWord.RawRefines` | include/psi/sweater/threading/futex_rw_mutex.cpp:27-163 | every operation on the packed word is the operation on the unpacked record, within the reader limit the source asserts |
| `RwMutex.InvKept` | include/psi/sweater/threading/futex_rw_mutex.cpp:27-163 | every step of every thread keeps exclusion, both wake obligations, the announce discipline and free nested reads |
| `RwMutex.ReachableInv` | include/psi/sweater/threading/futex_rw_mutex.cpp:27-163 | those hold in every state that any number of threads can reach, for both types |
| `RwMutexTheorems.MutualExclusion` | include/psi/sweater/threading/futex_rw_mutex.cpp:52-163 | in every reachable state the locked bit is one exclusive holder, the count is the number of live read holds, and the two kinds of hold never coexist |
| `RwMutexTheorems.NoLostWriterWakeup` | include/psi/sweater/threading/futex_rw_mutex.cpp:27-92 | a parked writer is announced behind somebody's live hold, or some thread is about to issue a wake that reaches writers |
| `RwMutexTheorems.NoLostReaderWakeup` | include/psi/sweater/threading/futex_rw_mutex.cpp:94-152 | a parked reader is announced behind the holder or an acquiring writer, or `release_rw`'s wake is about to be issued |
| `RwMutexTheorems.SomeoneCanMove` | include/psi/sweater/threading/futex_rw_mutex.cpp:27-152 | there is never a parked thread while nobody holds anything and nobody is under way |
| `RwMutexTheorems.NeverStuck` | include/psi/sweater/threading/futex_rw_mutex.hpp:71-112 | used without recursion (nested reads on the reader-preferring type only), whenever a thread is parked another, unparked one has something to release or to finish |
| `RwMutexTheorems.NestedReadHangs` | include/psi/sweater/threading/futex_rw_mutex.hpp:239-277 | why that usage is needed: a run of the writer-preferring type in which a nested read behind a queued writer leaves both threads parked |
| `RwMutexTheorems.SkippedWakeIsSound` | include/psi/sweater/threading/futex_rw_mutex.cpp:94-112 | when `release_rw` skips its wake, nobody is parked without another wake already owed |
| `RwMutexTheorems.QuiescentWordIsFree` | include/psi/sweater/threading/futex_rw_mutex.hpp:194 | with no holder and nobody acquiring the word is exactly 0, so `is_locked()` is false |
| `RwMutexTheorems.AnnounceBits` | include/psi/sweater/threading/futex_rw_mutex.cpp:64-90 | a set waiting bit means a holder or a writer in `acquire_rw`; a set parked bit means a bit that blocks readers of that type |
| `RwMutexTheorems.WriterPreference` | include/psi/sweater/threading/futex_rw_mutex.hpp:169-185 | over whole runs: between a state with the waiting bit set and the next reader admission, by acquire or by try, there is a `release_rw` |
| `RwMutexTheorems.ClearIsRelease` | include/psi/sweater/threading/futex_rw_mutex.cpp:94-97 | only the exclusive holder, in `release_rw`, ever clears the word |
| `RwMutexTheorems.NestedReadNeverParks` | include/psi/sweater/threading/futex_rw_mutex.hpp:278-298 | on the reader-preferring type a thread that already reads never parks in a nested acquire, whatever writers do; its undisturbed try is an admission |
| `RwMutexTheorems.PackedRunRefines` | include/psi/sweater/threading/futex_rw_mutex.cpp:27-163 | through every run within the reader limit the packed word reads out as the unpacked one, so no carry or borrow ever crosses into the flags |
| `RwMutexCode.Mutex.ValidIsReachable` | include/psi/sweater/threading/futex_rw_mutex.cpp:27-163 | the object's history is a run of the machine, so its present state is one the theorems speak of |
| `RwMutexCode.Mutex.PassRw` | include/psi/sweater/threading/futex_rw_mutex.cpp:64-89 | one pass of the loop of `acquire_rw` on the packed word: undisturbed it takes a free lock with all other bits kept, announces the writer when no announcement is there, and parks it behind one |
| `RwMutexCode.Mutex.AcquireRw` | include/psi/sweater/threading/futex_rw_mutex.cpp:52-92 | when it returns the caller is the only thread holding anything; undisturbed it takes a free lock at once, and on any other sets the waiting bit, changes nothing else, and parks; whatever came before, left alone for eight operations it has the lock or is parked |
| `RwMutexCode.Mutex.ReleaseRw` | include/psi/sweater/threading/futex_rw_mutex.cpp:94-112 | two atomic operations finish `release_rw` whatever others do, the caller's exclusive hold is gone, and if its exchange found an announcement nobody is left parked; undisturbed it leaves the word 0 |
| `RwMutexCode.Mutex.TryAcquireRw` | include/psi/sweater/threading/futex_rw_mutex.cpp:114-124 | never waits; success makes the caller the only holder; a refusal has found a reader or a writer, or a word that changed since the load, and leaves the caller as it was; undisturbed it succeeds exactly on a free lock and sets the locked bit alone |
| `RwMutexCode.Mutex.PassRo` | include/psi/sweater/threading/futex_rw_mutex.cpp:130-150 | one pass of the loop of `acquire_ro_core`: undisturbed it admits an admissible reader, fires the assertion at the mask, announces the reader, or parks it behind the announcement |
| `RwMutexCode.Mutex.AcquireRo` | include/psi/sweater/threading/futex_rw_mutex.cpp:126-152 | when it returns the caller has one read hold more and no thread writes; undisturbed an admissible read adds one to the count at once, and a blocked one sets the parked bit, changes nothing else, and parks; whatever came before, left alone for eight operations it has ended or is parked; the assertion fires only on a word at the mask |
| `RwMutexCode.Mutex.TryAcquireRo` | include/psi/sweater/threading/futex_rw_mutex.cpp:154-163 | never waits; success adds one hold with no writer about; a refusal has found a blocking bit or a changed word; undisturbed it is refused exactly when a bit blocks readers, and otherwise adds one to the count unless that is at the mask, where alone the assertion fires |
| `RwMutexCode.Mutex.ReleaseRo` | include/psi/sweater/threading/futex_rw_mutex.cpp:27-50 | two atomic operations finish `release_ro`, one hold is gone, and if its fetch_sub found the last reader and a waiting writer no writer is left parked; undisturbed the count is one less and no flag has changed |
| `RwMutexCode.Mutex.HoldIsCounted` | include/psi/sweater/threading/futex_rw_mutex.cpp:31 | the assertion that the count is not zero on release holds for every thread with a live hold |
| `RwMutexCode.CountFits` | include/psi/sweater/threading/futex_rw_mutex.cpp:135 | the source's overflow test on the mask is true exactly below the largest count |
| `Semaphore.InvKept` | include/psi/sweater/threading/futex_semaphore.cpp:130-222 | every atomic step keeps the sleeper count, the debt equation, the token equation and the wake cover |
| `Semaphore.ReachableInv` | include/psi/sweater/threading/futex_semaphore.cpp:130-222 | those hold in every reachable state of any number of threads |
| `Semaphore.Conservation` | include/psi/sweater/threading/futex_semaphore.cpp:130-222 | tokens signalled are exactly those returned by waits, held by leaving waiters, deposited, in transit or free; threads in debt are exactly the negative tokens, credits and deposits in transit; so no wait returns without a token |
| `Semaphore.NoMissedWakeup` | include/psi/sweater/threading/futex_semaphore.cpp:71-87 | while anybody sleeps, every credit is about to be found by an awake debtor or covered by a wake still to be issued |
| `Semaphore.SettledState` | include/psi/sweater/threading/futex_semaphore.cpp:71-99 | once no signaller and no awake debtor is under way, no credit is left over and the sleepers are exactly the negative tokens |
| `Semaphore.SkippedWakeIsSound` | include/psi/sweater/threading/futex_semaphore.cpp:144-148 | whenever a signaller reads `sleepers_` as 0 and skips the wake, nobody is parked |
| `Semaphore.OnlyDebtorsTakeCredits` | include/psi/sweater/threading/futex_semaphore.cpp:171-222 | a step that takes a credit is one of a thread in debt and awake, takes just one, and leaves that thread with nothing to do but return: spinners cannot steal it |
| `Semaphore.EveryReturnPaid` | include/psi/sweater/threading/futex_semaphore.cpp:141-222 | over every run the waits that have returned or are returning took exactly one credit or one free token each, and nobody else took any |
| `Semaphore.ReturnsAreCounted` | include/psi/sweater/threading/futex_semaphore.cpp:156-208 | whichever way a thread comes out of `wait()` or `wait( spin_count )`, the step is counted as a return, and no other step is |
| `Semaphore.CountsFit` | include/psi/sweater/threading/futex_semaphore.cpp:141-143 | with n threads the debt, the credits and the sleepers never exceed n, so the casts to the thread-count type are exact |
| `WorkerEvent.EventIsACounter` | include/psi/sweater/impls/generic.cpp:1042 | a worker's event, the semaphore, refines the token counter the pool is modelled with: posts add, returns take one and need one, it is never negative |
| `WorkerEvent.TokenReachesWaiter` | include/psi/sweater/impls/generic.cpp:211-217 | with one waiting thread a token is never left behind: the waiter is awake with a credit to take, or a signal is under way |
| `WorkerEvent.SignalWakesWaiter` | include/psi/sweater/threading/futex_semaphore.cpp:141-154 | a signal under way sees the sleeping waiter registered, and its wake wakes it |
| `WorkerEvent.WaiterTakesCredit` | include/psi/sweater/threading/futex_semaphore.cpp:171-184 | a waiter awake with a credit about returns in three undisturbed steps |
| `SemaphoreCode.Sem.ValidIsReachable` | include/psi/sweater/threading/futex_semaphore.cpp:130-222 | the object's history is a run of the machine |
| `SemaphoreCode.Sem.Signal` | include/psi/sweater/threading/futex_semaphore.cpp:130-154 | whatever others do, `signal` finishes within its own atomic operations and its wakes; with nobody in debt it changes the tokens alone; left alone it adds its tokens, deposits one credit for each debtor it pays, and unparks as many sleepers if it sees any |
| `SemaphoreCode.Sem.Wait` | include/psi/sweater/threading/futex_semaphore.cpp:156-184 | a completed wait has been counted and paid for; with a token to take it returns at once and touches the tokens alone; left alone it takes a credit if there is one, and with neither it registers and parks; whatever came before, left alone for ten operations it has returned or is parked |
| `SemaphoreCode.Sem.WaitSpinning` | include/psi/sweater/threading/futex_semaphore.cpp:186-208 | the same after spinning on the tokens: an undisturbed token is taken without touching the credits; with the tries used up it goes on like `wait()`, so left alone with no token and no credit it parks; whatever came before, left alone for its tries and twelve operations it has returned or is parked |
| `SemaphoreCode.Sem.TryDecrement` | include/psi/sweater/threading/futex_semaphore.cpp:210-222 | an undisturbed `try_decrement` on the value it saw takes the token; a failing one reports the value it found |
| `SemaphoreCode.Sem.LeaverIsCounted` | include/psi/sweater/threading/futex_semaphore.cpp:175 | the sleeper count covers a waiter about to leave, so its decrement cannot underflow |
| `FutureSlot.ReachableInv` | include/psi/sweater/threading/future.hpp:71-139 | ownership count, completion and wait bookkeeping agree in every reachable state, at the granularity of `signal()`'s and `wait()`'s own steps |
| `FutureSlot.NoUseAfterDelete` | include/psi/sweater/threading/future.hpp:111-118 | no step of either side, the remaining steps of `signal()` included, touches the slot after it was deleted |
| `FutureSlot.DeletedOnce` | include/psi/sweater/threading/future.hpp:111-118 | the slot is deleted at most once, and has been exactly when both sides are gone |
| `FutureSlot.WaitMeansCompleted` | include/psi/sweater/threading/future.hpp:92-109 | a wait or get is past its semaphore only when the promise is completed, by a value or by an exception and not both |
| `FutureSlot.SignalledOnce` | include/psi/sweater/threading/future.hpp:71-88 | completion is signalled at most once, and exactly once by the time the promise side is through, an abandoned promise included |
| `FutureSlot.BrokenPromise` | include/psi/sweater/threading/future.hpp:215-223 | over every run from the drop of an uncompleted promise, whatever the future does meanwhile: once the promise is gone its only outcome is the exception, and that has been signalled |
| `FutureSlot.FutureNotStranded` | include/psi/sweater/threading/future.hpp:92-99 | once the promise side has finished its signal the future is not parked |
| `FutureSlot.SignalOutlivesFuture` | include/psi/sweater/threading/future.hpp:71-139 | why the slot has two owners: a run in which the future has waited, returned and released while `signal()` still has to read the slot |
| `FutureCode.Slot.ValidIsReachable` | include/psi/sweater/threading/future.hpp:63-139 | the object's history is a run of the machine |
| `FutureCode.Slot.SetValue` | include/psi/sweater/threading/future.hpp:71-80 | completes by the value and nothing else, within a few steps whatever the future does; a throwing constructor leaves the promise uncompleted |
| `FutureCode.Slot.SetException` | include/psi/sweater/threading/future.hpp:82-88 | completes by the exception and nothing else, within a few steps |
| `FutureCode.Slot.Run` | include/psi/sweater/threading/future.hpp:183-203 | whether the work returns or throws, the promise ends up completed by exactly that |
| `FutureCode.Slot.Abandon` | include/psi/sweater/threading/future.hpp:215-223 | the promise is gone and the slot completed; an earlier outcome is kept, an uncompleted promise ends in the exception |
| `FutureCode.Slot.Wait` | include/psi/sweater/threading/future.hpp:92-99 | returns only when the promise is completed; once the completion has been signalled it does return, whatever the promise side does meanwhile; left alone for ten steps it has returned or is parked |
| `FutureCode.Slot.Get` | include/psi/sweater/threading/future.hpp:101-109 | returns only when completed, with the outcome the promise was completed by; once the completion has been signalled it does return, whatever the promise side does meanwhile |
| `FutureCode.Slot.LetGo` | include/psi/sweater/threading/future.hpp:269-277 | waits, releases the share, and leaves the slot deleted exactly when the promise is gone too; left alone for twelve steps it has returned or is parked |
| `LibuvSpread.InvKept` | include/psi/sweater/impls/libuv.cpp:162-304 | every step of caller, queuer, pool workers and after-callbacks keeps refs, latch, lock and chunk bookkeeping |
| `LibuvSpread.ReachableInv` | include/psi/sweater/impls/libuv.cpp:85-304 | those hold in every reachable state, for every number of chunks and every answer of `uv_queue_work` |
| `LibuvTheorems.RefsAreShares` | include/psi/sweater/impls/libuv.cpp:69-109 | refs is the caller's share, the queuer's share and the chunks whose after-callback is outstanding, the one being queued included |
| `LibuvTheorems.NoUseAfterDelete` | include/psi/sweater/impls/libuv.cpp:85-109 | neither a touch of the node nor a second delete happens after it was deleted |
| `LibuvTheorems.DeletedOnceAtTheEnd` | include/psi/sweater/impls/libuv.cpp:85-109 | when every participant is through the node has been deleted, exactly once |
| `LibuvTheorems.CallerFrameUnusedAfterReturn` | include/psi/sweater/impls/libuv.cpp:98-103 | once the caller is past its latch nobody calls the work body or uses the latch in its frame |
| `LibuvTheorems.EveryChunkRunsOnce` | include/psi/sweater/impls/libuv.cpp:191-304 | the latch always is the chunks not counted down yet, no body runs twice, and past the latch every body has run exactly once |
| `LibuvTheorems.NeverWaitsForASlot` | include/psi/sweater/impls/libuv.cpp:237-268 | when the caller waits, no chunk is pending or in the pool queue: each one outstanding is executing on a worker or on the loop thread |
| `LibuvTheorems.AlwaysAStepWithoutASlot` | include/psi/sweater/impls/libuv.cpp:237-268 | until the caller has returned, the caller, the queuer or a worker that already has its slot can take a step; after-callbacks and free pool slots are not counted on |
| `LibuvTheorems.EveryRunReturns` | include/psi/sweater/impls/libuv.cpp:162-304 | termination: no run of n queued chunks and the tail takes more than 19 n + 10 steps, and a run that can only go on by taking pool slots or by after-callbacks has let the caller return |
| `LibuvTheorems.QueuerLeavesNothingPending` | include/psi/sweater/impls/libuv.cpp:272-304 | when the queuer is through no chunk is left pending, although it skips those it finds claimed |
| `LibuvCode.SpreadNode.SpreadImpl` | include/psi/sweater/impls/libuv.cpp:162-270 | whatever the others do, when `spread_impl` returns every chunk has run exactly once; with no queuer, no worker and no pool slot at all it still returns, having run everything itself; whatever came before, left alone for five steps a chunk and six more it has returned, or is at a lock that is held, or at the latch with chunks to be counted down |
| `LibuvCode.SpreadNode.StealBack` | include/psi/sweater/impls/libuv.cpp:243-266 | the steal-back of one chunk: undisturbed, a pending chunk, or one `uv_cancel` still gets back, is run by the caller and counted down; any other is left as it is |
| `LibuvCode.SpreadNode.QueueChunks` | include/psi/sweater/impls/libuv.cpp:272-304 | the queuer's loop, with any answers of `uv_queue_work`: when it returns no chunk is left pending; left alone with the lock free, each pending chunk the pool accepted is in its queue, not run, with one reference more, each refused one has been run once and counted down, and nothing else has changed; whatever came before, left alone for eight steps a chunk and three more it has returned or is at a lock that is held |
| `LibuvCode.SpreadNode.LatchCovers` | include/psi/sweater/impls/libuv.cpp:230-266 | a chunk about to be counted down is in the latch, so the count cannot underflow |
| `HandoffList.ReachableInv` | include/psi/sweater/impls/libuv.cpp:221-229 | the list and the handler's batch are linked chains, every pushed node is in exactly one place, and a non-empty list is announced |
| `HandoffList.OneHandlingPerPush` | include/psi/sweater/impls/libuv.cpp:306-316 | one handling for each push: a node is passed to `queue_chunks` at most once for each time it was linked, also when its address is reused for a later call |
| `HandoffList.NextIsReadInTime` | include/psi/sweater/impls/libuv.cpp:310-315 | when the handler reads `next` the node has not been passed on since it was linked, and its pusher no longer writes it |
| `HandoffList.NonEmptyListIsAnnounced` | include/psi/sweater/impls/libuv.cpp:221-229 | a non-empty list has a signal pending, a pusher about to send one, or the handler about to take it |
| `HandoffList.AllHandledWhenIdle` | include/psi/sweater/impls/libuv.cpp:221-229 | when no push is about to signal and the loop has nothing to do, every push was passed on exactly once |
| `LibuvHandoff.ReachableInv` | include/psi/sweater/impls/libuv.cpp:221-316 | list, handler and the spreads of the pushed nodes agree: the caller stands at its hand-off until its node is linked, and the queuer does not begin before the node is passed on |
| `LibuvHandoff.NextIsReadAlive` | include/psi/sweater/impls/libuv.cpp:306-316 | the node whose `next` the handler reads has not been freed and cannot be before it is passed on: the queuer's reference is still out and the queuer cannot move |
| `LibuvHandoff.ListedIsAlive` | include/psi/sweater/impls/libuv.cpp:221-229 | no node that is in the list, in the handler's hands or being pushed has been freed |
| `LibuvHandoff.ReuseIsSafe` | include/psi/sweater/impls/libuv.cpp:85-95 | when a node has been freed its last push and its last handling are over, so a reused address is never in two pushes at once |
| `HandoffListCode.Pending.PushNode` | include/psi/sweater/impls/libuv.cpp:221-229 | the push loop: when it is through, the node is in the list, in the handler's hands, or passed on; undisturbed it is through after one try, the first of the list, with the signal sent; whatever came before, left alone for eight steps it is through |
| `HandoffListCode.Pending.OnSpreadAsync` | include/psi/sweater/impls/libuv.cpp:306-316 | the handler: when it returns, every node that was in the list when it was called has been passed on once more, reused addresses included; undisturbed it returns, has passed on no other, and leaves the list empty |
| `WorkSplit.TilesCover` | include/psi/sweater/impls/generic.cpp:552-608 | in a tiling every iteration lies in exactly one slice and no slice is empty |
| `WorkSplit.SlicePart` | include/psi/sweater/impls/generic.cpp:576-602 | a part is cut into exactly the wanted number of slices, which tile it and are alike but that the first takes the remainder |
| `WorkSplit.DispatchWorkers` | include/psi/sweater/impls/generic.cpp:542-612 | the slices of all parts tile the rest of the iterations, every part gets exactly `slice_div` slices, the first parts one iteration more, and no more workers are used than parts asked for |
| `WorkSplit.ReslicedFits` | include/psi/sweater/impls/generic.cpp:797-817 | re-slicing keeps the total, keeps the extra iterations below the part count and leaves no part empty |
| `WorkSplit.BulkParts` | include/psi/sweater/impls/generic.cpp:839-852 | the bulk loop ends exactly at the iteration count, with slices that tile the rest and are alike but for one iteration |
| `WorkSplit.Divide` | include/psi/sweater/impls/generic.cpp:768-787 | the number of parts, the caller's counted in, is the largest that fits the threads without a part below the cost; caller part, parts and extra iterations add up to the iteration count, no part is empty, and parts differ by one iteration at most |
| `WorkSplit.SplitSpread` | include/psi/sweater/impls/generic.cpp:615-854 | for all iteration counts, pool sizes, costs and divisions 4 to 16: caller part and slices tile all iterations, there are as many parts as threads can be used without a part below the cost, so an idle pool with enough to do is used whole, and who takes part is as the source decides; no worker past the pool is indexed and the counts the split keeps in the thread-count type fit it (room for all slices is asked for only where the split multiplies into it); the slices of a spread number at most pool size times division, which that type need not hold: what follows for the join is `SpreadJoinCast.CompleteExactlyWhen` |
| `ChunkedSpread.ChunksTile` | include/psi/sweater/spread_chunked.cpp:27-54 | in 32-bit arithmetic the chunk ranges are exact, not empty, follow one another from 0 to the iteration count, and differ in size by at most one |
| `ChunkedSpread.MergedRange` | include/psi/sweater/spread_chunked.hpp:54-77 | the merging worker turns a run of chunk indices into the range from the first chunk's start to the last one's end |
| `ChunkedSpread.MergingKeepsPartition` | include/psi/sweater/spread_chunked.hpp:49-78 | however a shop partitions the chunk indices, the merged ranges partition the iterations |
| `SpreadJoin.ReachableInv` | include/psi/sweater/impls/generic.cpp:507-970 | barrier, slices and caller agree in every reachable state of a spread |
| `SpreadJoin.CounterIsUnarrived` | include/psi/sweater/threading/futex_barrier.cpp:33-74 | the barrier counts exactly the slices registered and not arrived, the caller's own included |
| `SpreadJoin.ZeroIsComplete` | include/psi/sweater/impls/generic.cpp:930-970 | a wait that lets the caller go has found the spread complete if and only if the counter is zero then: a transient zero never releases it early |
| `SpreadJoin.JoinIsComplete` | include/psi/sweater/threading/futex_barrier.cpp:41-119 | when the caller blocks, or the slices or the hands they can be in fit the thread-count type, the wait lets it go only when every slice was registered, has run exactly once and has arrived |
| `SpreadJoinCast.CompleteExactlyWhen` | include/psi/sweater/threading/futex_barrier.cpp:41-42 | and only then: the spin wait looks at the counter cast to the thread-count type, and for every larger number of slices and hands some run lets the caller go too early |
| `SpreadJoinCast.EarlyReturn` | include/psi/sweater/threading/futex_barrier.cpp:96-119 | for every such number of slices and hands, a run in which the caller returns while a slice has not even begun |
| `SpreadJoin.OutAreHeld` | include/psi/sweater/impls/generic.cpp:909-944 | while the caller spins the counter is at most the number of hands, workers and stealing callers, that can hold a slice, and at most the number of slices |
| `SpreadJoin.NeverTwice` | include/psi/sweater/impls/generic.hpp:178-196 | no slice runs twice, before or after the join |
| `SpreadJoin.NothingQueuedWhileSpinning` | include/psi/sweater/impls/generic.cpp:909-928 | on the stealing path no slice of the spread is queued when the caller starts waiting |
| `SpreadJoin.AfterReturnOnlyAWake` | include/psi/sweater/threading/futex_barrier.cpp:48-74 | where the look at the barrier is exact, after the return only a wake of a blocking join can be left, never a slice or an arrival |
| `SpreadJoin.ParkedCallerIsCovered` | include/psi/sweater/threading/futex_barrier.cpp:76-92 | with any worker at all, a parked caller always has a slice that can be taken, run or arrived for, or a wake owed; with the pool's own workers and signals this is `PoolSpread.ParkedCallerIsServed` |
| `SpreadJoin.SpinningCallerIsCovered` | include/psi/sweater/impls/generic.cpp:930-944 | while the caller spins, every slice that has not arrived is in the hands of a worker that can go on with it |
| `SpreadJoin.TransientZero` | include/psi/sweater/impls/generic.cpp:594-600 | the counter does pass through zero during an incremental dispatch: a run that shows it |
| `SpreadJoinCode.Spread.SpreadWork` | include/psi/sweater/impls/generic.cpp:615-970 | dispatch, own part, stealing and join as loops: when it returns and the look at the barrier is exact, every slice has run exactly once and has arrived; a caller that takes part needs no worker and, left alone, returns with everything run, however many slices there are; one that only waits leaves them all queued and parks; whatever came before, left alone for long enough the call has returned, is parked, or spins on slices that have not arrived |
| `SpreadJoinCode.Spread.BlockingWait` | include/psi/sweater/threading/futex_barrier.cpp:76-92 | the futex wait returns only with the spread complete; left alone it returns exactly from a counter of zero, and otherwise parks |
| `SpreadJoinCode.Spread.SpinWait` | include/psi/sweater/threading/futex_barrier.cpp:96-119 | the spin wait, which looks at the counter cast to the thread-count type, returns with the spread complete if and only if the counter is zero, and always does where the cast is exact; with nobody else at work it returns exactly when the cast reads zero |
| `SpreadJoinCode.OwnSliceIs` | include/psi/sweater/impls/generic.hpp:180-189 | a slice the caller runs or arrives for is in its hands and counted by the barrier, so `arrive` cannot underflow |
| `Coverage.TilesOnce` | include/psi/sweater/impls/generic.cpp:552-608 | pieces that tile a range and have each run once have worked on every iteration in it once and on no other |
| `Coverage.GenericSpreadRunsEachOnce` | include/psi/sweater/impls/generic.cpp:615-970 | for slices that tile the rest of the iterations: at the step that returns from the join, with the counter at zero or the look at it exact, every iteration was worked on exactly once |
| `Coverage.GenericSpreadExactlyWhen` | include/psi/sweater/impls/generic.cpp:615-970 | over all runs of such a spread every iteration was worked on exactly once at the return if and only if the look at the barrier is exact |
| `GenericSpread.SpreadWork` | include/psi/sweater/impls/generic.cpp:615-970 | the whole of `spread_work`, split, dispatch and join, on any shop and with any workers and callers meanwhile: when it returns every iteration was worked on exactly once, unless both slices and hands outnumber the thread-count type; the shared queue never makes so many slices; a caller that takes part returns without any worker's help, everything worked on once; and the iterations are divided as `WorkSplit.SplitSpread` says |
| `Coverage.LibuvSpreadRunsEachOnce` | include/psi/sweater/impls/libuv.cpp:162-304 | chunk arithmetic, steal-back and latch together: when the libuv spread returns, every iteration was worked on exactly once |
| `WorkerPool.StrandedKept` | include/psi/sweater/impls/generic.cpp:182-229 | every step keeps a token or a coming notice for each resting worker with an item enqueued on it |
| `WorkerPool.ReachableInv` | include/psi/sweater/impls/generic.cpp:182-229 | items, notices and shutdown bookkeeping hold in every reachable state of the pool |
| `WorkerPoolTheorems.NoStrandedItem` | include/psi/sweater/impls/generic.cpp:182-229 | while the worker an item is enqueued on is between its last empty dequeue and the return of its wait, its event has a token or the step that posts one can be taken |
| `WorkerPoolTheorems.SharedItemIsServed` | include/psi/sweater/impls/generic.cpp:862-878 | while an item of a bulk enqueue is queued, every worker that has not exited is awake, has a token on its event, or is about to be signalled by a step that can be taken |
| `WorkerPoolTheorems.OwnItemsFirst` | include/psi/sweater/impls/generic.cpp:185-206 | over whole runs: once a worker is in its first inner loop, as after every wake, it takes an item of another producer only after it has found its own producer empty |
| `WorkerPoolTheorems.RunsAtMostOnce` | include/psi/sweater/impls/generic.cpp:191-208 | no item runs twice, and a taken item is in one worker's hands |
| `WorkerPoolTheorems.StopNeverHangs` | include/psi/sweater/impls/generic.cpp:492-504 | the shutdown can always go on, or a worker it waits for can |
| `WorkerPoolTheorems.DrainsExactlyWhen` | include/psi/sweater/impls/generic.cpp:492-504 | the shutdown runs every item ever enqueued, those enqueued by running work included, if and only if, when it is called, the queue is empty or some worker has yet to take its last look at it |
| `WorkerPoolTheorems.EmptyQueueDrains` | include/psi/sweater/impls/generic.cpp:492-504 | the half a caller can see to: called when everything enqueued so far has been taken, the shutdown drains all, what running work still enqueues included |
| `WorkerPoolTheorems.LostItem` | include/psi/sweater/impls/generic.cpp:492-504 | so the full drain the documentation speaks of can fail: a run in which an announced item stays queued for ever |
| `WorkerPoolCode.Pool.WorkerLoop` | include/psi/sweater/impls/generic.cpp:182-229 | the worker's loop: a run of the machine whatever others do, left only with the exit flag set; left alone it runs everything queued on any worker once, whatever the flag says, and then exits if the flag is set and otherwise stands at its wait with its tokens used up; whatever came before, left alone for long enough it has exited, waits for a token, or has emptied the queue |
| `WorkerPoolCode.Pool.Enqueue` | include/psi/sweater/impls/generic.cpp:1044-1054 | an outside producer: when it returns the item has been taken or its worker's event has a token; undisturbed the item is queued and that event has one token more, nothing else |
| `WorkerPoolCode.Pool.EnqueueBulk` | include/psi/sweater/impls/generic.cpp:862-878 | the bulk path: all items into the shared queue, then a signal to every worker; when it is done no worker rests without a token while one of the items is queued, unless about to be signalled; left alone it queues exactly the batch and gives every worker one token |
| `WorkerPoolCode.Pool.StopAndDestroyPool` | include/psi/sweater/impls/generic.cpp:492-504 | when it is done every worker has exited, and the queue is drained exactly under that condition; left alone it sets the flag, wakes every worker once and waits for them; whatever came before, left alone for long enough it has ended or waits for a worker that has not exited |
| `PoolSpread.ReachableInv` | include/psi/sweater/impls/generic.cpp:862-878 | a spread that queues and waits, run on the pool: items, workers, barrier and bulk enqueue agree in every reachable state |
| `PoolSpread.QueuedSliceIsServed` | include/psi/sweater/impls/generic.cpp:182-229 | while its caller is parked and a slice is queued, every worker has a step it can take, or a step that signals it can be taken |
| `PoolSpread.ParkedCallerIsServed` | include/psi/sweater/impls/generic.cpp:947-970 | a parked caller has its wake owed, or a slice in the hands of a worker with a step to take, or every worker with a step or a signal coming |
| `PoolSpread.ReturnFindsAllDone` | include/psi/sweater/impls/generic.cpp:947-970 | when the wait lets the caller go, every slice's item has been run by a worker exactly once |
| `ReadRegistry.Registry.Enter` | include/psi/sweater/threading/read_recursion_registry.hpp:64-76 | one level deeper for this mutex only; true exactly on the first hold |
| `ReadRegistry.Registry.Leave` | include/psi/sweater/threading/read_recursion_registry.hpp:80-99 | one level up for this mutex only; true exactly on the last hold; a release without a hold changes nothing |
| `ReadRegistry.Registry.BumpIfHeld` | include/psi/sweater/threading/read_recursion_registry.hpp:103-114 | true exactly when held, and then one level deeper |
| `ReadRegistry.Registry.NoteFirst` | include/psi/sweater/threading/read_recursion_registry.hpp:123 | records a fresh hold of depth one |
| `ReadRegistry.ReentrantReads.AcquireRo` | include/psi/sweater/threading/rrw_mutex.hpp:147-154 | the OS lock is taken exactly on the first hold |
| `ReadRegistry.ReentrantReads.ReleaseRo` | include/psi/sweater/threading/rrw_mutex.hpp:155-161 | the OS lock is dropped exactly on the last release |
| `ReadRegistry.ReentrantReads.TryAcquireRo` | include/psi/sweater/threading/rrw_mutex.hpp:163-180 | succeeds when held or when the OS grants it; asks the OS only when not held |
| `ReadRegistry.ReentrantReads.Run` | include/psi/sweater/threading/rrw_mutex.hpp:147-180 | for every sequence of calls the list is one counter per mutex, OS acquires and releases alternate, and the OS lock is held exactly while the counter is positive |
| `ReadRegistry.CountsAreIndependent` | include/psi/sweater/threading/read_recursion_registry.hpp:62-123 | calls on other mutexes do not change a mutex's counter |
| `ReadRegistry.CountIsNet` | include/psi/sweater/threading/rrw_mutex.hpp:147-180 | when no release comes without a hold the counter is acquires minus releases, so a balanced sequence ends with the OS lock not held |

## Left out

- Memory orders: the steps are sequentially consistent, so the individual `memory_order` arguments are not verified.
- Fairness and bounded waiting: the code promises none; what is proved is that no state is stuck, which operations never wait, and that the others end once left alone or stand where they must wait.
- Interfere (in every code module): other participants act between the steps of a method and never inside one, because each step is one atomic operation or touches only what the acting side owns.
- WorkerPoolTheorems.NoStrandedItem: speaks of items whose producer notifies their worker; slices of a spread that `dispatch_workers` queues without a notice are not stranded because the caller steals them, which `SpreadJoin.NothingQueuedWhileSpinning` states.
- WorkerPoolTheorems.RunsAtMostOnce: the pool's items are run by its workers; callers that steal from the queue are participants of `SpreadJoin`, not of `WorkerPool`.
- SpreadJoin.OutAreHeld: a hand holds one slice at a time; a thread that calls a spread from inside a slice counts as one more hand.
- SpreadJoin.AfterReturnOnlyAWake: what late arrivals do to a barrier that an early return has destroyed is not modelled; only that there are some.
- PoolSpread.ParkedCallerIsServed: other callers that steal from the shared queue are hands of `SpreadJoin` but not workers of `WorkerPool`, so here every hand is a worker.
- WorkSplit.SplitSpread: the number of items in the shop and the slicing division are inputs, because the source reads both from counters that may be out of date.
- RwWord.AdmitExact: the reader count is the only 32-bit quantity of the lock that can wrap; the width of the word is a parameter.
- Semaphore.CountsFit: token counts are unbounded integers; the signed word wraps only beyond 2^31 outstanding tokens, which nothing in the source guards.
- ReadRegistry.Registry.Enter: recursion depths are unbounded; the 32-bit wrap after 2^32 nested holds is not modelled.
- The failed bulk enqueue, distribution over processor clusters, configuration without a participating caller thread, and devices with slow thread signals beyond the choice of the shared queue.
- `fire_and_forget` in-flight tracking and the exact item counter of the generic shop, which may run out of step by design.
- `generic_semaphore` and `generic_barrier`, the condition-variable fallbacks.
- Platform back ends of futexes, threads, mutexes and read-write locks; the other shops; the queue's and the function wrapper's own code; `outcome_future`, whose slot protocol is that of the future.
- Move operations of promise and future, and values stored in the slot beyond whether there is one.
- `verify_deadlock` and `reserve_one` of the reentrant lock: diagnostics and allocation.
- Allocation failure of a spread node, unbinding the loop, and the serial fallbacks of `spread_impl`, which run everything inline.
- Pool creation and resizing, priorities, affinities, event hooks.
