# network-poller: a verified model

`network-poller` is an event-driven TCP library. Its event loop hands tasks between threads
through a lock-free single-producer single-consumer queue (`ReaderWriterQueue`), and it
ships the multi-producer `ConcurrentQueue` with its semaphores and blocking variants. This
project models the hand-off machinery of those queues, the poller that mirrors the kernel's
interest set, and the connection's write path, and proves what each of them promises.

Check everything with `dafny verify dfyconfig.toml`.

## How it is organised

| files | component | form |
|---|---|---|
| `Bits`, `Options`, `Sequences` | word arithmetic: wrapped indices, masks, rounding to a power of two | functions, lemmas, one loop |
| `SpscBlock`, `SpscQueue`, `SpscQueueProof`, `SpscMemory`, `SpscTheorems`, `SpscCalls`, `SpscZeroSize` | `ReaderWriterQueue` | two-thread transition system |
| `SpscSemaphore`, `BlockingSpscQueue`, `CircularBuffer`, each with its `*Calls` | `spsc_sema::LightweightSemaphore`, `BlockingReaderWriterQueue`, `BlockingReaderWriterCircularBuffer` | transition systems |
| `FreeList`, `FreeListCalls`, `OptimisticDequeue`, `CallDemand`, `TwoConsumers`, `OvercommitRace`, `DequeueCalls` | free list and dequeue counters of `ConcurrentQueue` | transition systems, any number of threads |
| `Semaphore`, `BlockingQueue`, each with its `*Calls` | `LightweightSemaphore`, `BlockingConcurrentQueue` | transition systems, any number of threads |
| `BlockIndex`, `ExplicitIndex`, `ExplicitProducer` | explicit producer: block ring and circular block index | class, whole calls |
| `ImplicitIndex`, `ImplicitProducer` | implicit producer: growable block index, bulk enqueue with roll-back | class, whole calls |
| `HashTable`, `ProducerHash` | thread-id hash chain | class, whole calls |
| `ConsumerToken` | token rotation and bulk dequeue | classes, whole calls |
| `Poller` | `EventChannel`, `EpollPoller` | classes |
| `ByteBuffer`, `TcpConnection` | `Buffer`, write path of `TcpConnection` | classes |

The modules named `*Calls` state what the callers of a transition system see, in terms of the
calls they made and the results they got, without auxiliary fields.

A transition system has one step for every load, store or read-modify-write of a variable
another thread may touch. A run is any interleaving of enabled steps; the main theorems
speak about every state of every run. Fields called auxiliary in the comments record
history; the code reads none of them. One guard does: a client of the free list calls `add`
only with a node it owns, which is the client's obligation. `faulted`, `refused` and similar
fields record a failed assert of the code, a construction over a live object, a read of a
dead one or a kernel call that would have failed; the theorems say that they stay false.

## Assumptions

- Memory is sequentially consistent; the fences of the code are taken as sufficient.
- `ReaderWriterQueue`, its semaphore and the circular buffer have one producer and one
  consumer, as their documentation demands.
- The free list is used by fewer than 2^31 - 2 threads, so that the 31-bit reference count
  cannot overflow.
- In the concurrent dequeue, one producer has at most two consumers and at most half the index
  range outstanding, as the leeway test sees to; or, with any number of consumers, the sizes
  that the calls overlapping any one call ask for add up to at most half the index range
  (`CallDemand.Gentle`). Without this the result is false, see below.
- `index_t` and `size_t` have the same width; the code also allows a wider `index_t`.
- `dequeue_bulk` is called with `max > 0`.
- Buffer indices stay below 2^32.
- Allocators, the kernel semaphore, `epoll_ctl`, `write` and `readv` are parameters or small
  models with any outcome the interface allows.

## Findings

- `ReaderWriterQueue(0)` starts with a one-slot block in which nothing can ever be
  published; once it is reused as a tail block the element written there is lost and an
  assert fails. The queue is safe exactly when built for at least one element
  (`SpscZeroSize.SafeExactly`).
- `spsc_sema::LightweightSemaphore::signal(0)` on a blocked waiter creates a permit out of
  nothing; the law holds exactly when a signal brings a permit or finds nobody waiting
  (`SpscSemaphore.SignalKeepsLaw`, `ZeroSignalInventsPermit`).
- An explicit producer that reuses a drained block skips the leeway test, so its queue can
  come to hold exactly half the index range; from then on `dequeue` reports an empty queue
  and nothing can be enqueued. `Dequeue` states the exact condition, `HalfRangeSticks` reaches
  it for every block size, index width and limit not below half the range, `HalfRangeRefuses`
  says that such a queue accepts nothing, and `LimitPreventsSticking` that any limit below
  half the range excludes it. The implicit producer, which always makes the test, is not
  affected.
- The optimistic dequeue relies on `dequeueOvercommit` not moving far while one consumer is
  between loading it and deciding. A consumer that sleeps there while two others give back
  more than half the index range of reservations takes an index that was never published
  (`OvercommitRace.SleeperTakesTooMuch`). The law holds in all runs exactly for at most two
  consumers (`OvercommitRace.TwoConsumersExactly`); for more of them it holds while the calls
  that overlap any one call ask for at most half the index range
  (`CallDemand.GentleTakesEveryIndexOnce`).
- `enqueue_bulk` of an implicit producer computes the range to allocate as a word. For a batch
  that overruns the index range, which is when `(tail - 1) % BLOCK_SIZE + count` reaches it,
  that word is 0, no block is allocated, and an assert fails or an item is constructed over a
  live one (`OverrunsExactly`, `EnqueueBulk`, `FirstBatchOverruns`). Every smaller batch is
  handled as documented.
- When `enqueue_bulk` on an empty implicit producer fails after the block index has grown, the
  index tail is not put back to the entry where it was (`RollBackMovesTail`); as the index lists
  no block then, nothing depends on it. In all other cases it is put back (`EnqueueBulk`).
- A channel that wants no events can be in the kernel set: `DisableAll` on a channel that has
  none already adds it again with an empty mask, as a second run of `CloseHandler` does
  (`Poller.DisableTwice`). `Poller.Replay` says exactly which descriptors are there.
- A half-close task that the loop runs after the connection has been closed is issued
  although bytes may be left in the write buffer (`TcpConnection.HalfCloseAfterClose`); in
  every other state it is issued exactly when nothing is left.

## Model

| member | source | states |
|---|---|---|
| `Bits.CeilToPow2` | thirdparty/concurrentqueue-1.0.4/concurrentqueue.h:493-507 | for every word width, the decrement, smear and increment trick returns the least power of two at least x for every x from 1 to the largest power of two of the word, and 0 for 0 and for anything above |
| `Bits.SmearStep` | thirdparty/concurrentqueue-1.0.4/concurrentqueue.h:499-504 | or-ing the word with itself shifted down by the length of the run of leading ones doubles that run |
| `Bits.CircularLessAgrees` | thirdparty/concurrentqueue-1.0.4/concurrentqueue.h:477-483 | on wrapped indices the circular comparison is the true comparison whenever the true indices differ by less than half the range |
| `Bits.CircularLessExact` | thirdparty/concurrentqueue-1.0.4/concurrentqueue.h:477-483 | for indices less than a whole range apart, it agrees with the true order if and only if the difference is in the half-open half range |
| `Bits.MaskIsRemainder` | thirdparty/concurrentqueue-1.0.4/concurrentqueue.h:1666-1667 | masking with a power of two minus one is the remainder |
| `Bits.MaskedWrap` | thirdparty/readerwriterqueue-1.0.6/readerwritercircularbuffer.h:250-266 | masking a wrapped counter gives the place of the true counter, so word wrap is harmless |
| `Bits.IncIsMaskedStep` | thirdparty/readerwriterqueue-1.0.6/readerwriterqueue.h:556-557 | `(x + 1) & mask` is the step round the ring |
| `SpscTheorems.Construct` | thirdparty/readerwriterqueue-1.0.6/readerwriterqueue.h:105-161 | the constructor with its linking loop yields a circle of empty blocks: one block of the rounded size, or so many blocks of the maximum size as the formula says |
| `SpscBlock.RoomTest` | thirdparty/readerwriterqueue-1.0.6/readerwriterqueue.h:553-557 | the test for room against the stale shadow `localFront` never claims room that is not there, and the test after reloading is exact |
| `SpscBlock.EmptyTest` | thirdparty/readerwriterqueue-1.0.6/readerwriterqueue.h:309-312 | the emptiness tests against `localTail` and against `tail` say exactly whether known elements, or any elements, are in the block |
| `SpscBlock.Construct` | thirdparty/readerwriterqueue-1.0.6/readerwriterqueue.h:560-565 | the slot at `tail` holds no object, and constructing there changes nothing else |
| `SpscBlock.Take` | thirdparty/readerwriterqueue-1.0.6/readerwriterqueue.h:315-319 | the slot at `front` holds the first element, and moving it out changes nothing else |
| `SpscQueueProof.StoreTailInv` | thirdparty/readerwriterqueue-1.0.6/readerwriterqueue.h:567-568 | storing `tail` appends the element to the queue the blocks stand for and keeps every block well formed |
| `SpscQueueProof.StoreTailBlockInv` | thirdparty/readerwriterqueue-1.0.6/readerwriterqueue.h:598-601 | storing `tailBlock` after filling the next block appends its element and keeps the ring well formed |
| `SpscQueueProof.LinkInv` | thirdparty/readerwriterqueue-1.0.6/readerwriterqueue.h:619-622 | linking a newly allocated block keeps the circular list closed and the queue unchanged |
| `SpscQueueProof.LoadNextFrontInv` | thirdparty/readerwriterqueue-1.0.6/readerwriterqueue.h:581-589 | the assert that the next tail block is empty holds |
| `SpscQueueProof.LoadNextTailInv` | thirdparty/readerwriterqueue-1.0.6/readerwriterqueue.h:345-352 | the assert that the next front block is not empty holds |
| `SpscQueueProof.StoreFrontBlockInv` | thirdparty/readerwriterqueue-1.0.6/readerwriterqueue.h:353-356 | moving `frontBlock` on leaves the queue unchanged and the block left behind is free for reuse |
| `SpscQueueProof.StoreFrontInv` | thirdparty/readerwriterqueue-1.0.6/readerwriterqueue.h:321-324 | storing `front` removes exactly the first element |
| `SpscQueueProof.ProducerInvStep` | thirdparty/readerwriterqueue-1.0.6/readerwriterqueue.h:535-644 | every step of `inner_enqueue` keeps the invariant, whatever the consumer is doing |
| `SpscQueueProof.ConsumerInvStep` | thirdparty/readerwriterqueue-1.0.6/readerwriterqueue.h:285-500 | every step of `try_dequeue`, `peek` and `pop` keeps the invariant, whatever the producer is doing |
| `SpscTheorems.StepRefines` | thirdparty/readerwriterqueue-1.0.6/readerwriterqueue.h:285-376 | each step of either thread is invisible, appends one element at the back, or removes the front one of a plain sequence |
| `SpscTheorems.Fifo` | thirdparty/readerwriterqueue-1.0.6/readerwriterqueue.h:285-376 | in every interleaving the history of elements taken is a prefix of that of elements published, the rest is what memory spells out following `next` from `frontBlock` to `tailBlock` and reading each block from `front` to `tail` (less an element the consumer has moved out but not yet passed), no assert fails, no live slot is overwritten and no dead one read; `SpscCalls.CallerFifo` ties both histories to the calls |
| `SpscMemory.MemoryHoldsQueue` | thirdparty/readerwriterqueue-1.0.6/readerwriterqueue.h:285-376 | what following `next`, `front`, `tail` and `data` reads is exactly the queue, in order, up to the element being moved out |
| `SpscTheorems.IndexStepsAreMasked` | thirdparty/readerwriterqueue-1.0.6/readerwriterqueue.h:556-557 | in every state of every run each block, also one allocated later, has a power of two of slots, so the index step is the masked one |
| `SpscTheorems.EmptyWasSeen` | thirdparty/readerwriterqueue-1.0.6/readerwriterqueue.h:312-373 | if a consumer call reports empty at some step of a run, the queue was empty at an earlier instant of that very call, the one at which it loaded `tail` |
| `SpscTheorems.EmptyAtStart` | thirdparty/readerwriterqueue-1.0.6/readerwriterqueue.h:285-376 | a consumer call reports empty only if the queue was empty when the call started |
| `SpscTheorems.PeekSeesFront` | thirdparty/readerwriterqueue-1.0.6/readerwriterqueue.h:384-424 | `peek` returns the front element of the queue |
| `SpscTheorems.LayoutSuffices` | thirdparty/readerwriterqueue-1.0.6/readerwriterqueue.h:116-135 | the block-count formula makes room for `size` elements even when the front block cannot be reused |
| `SpscTheorems.FullQueue` | thirdparty/readerwriterqueue-1.0.6/readerwriterqueue.h:553-636 | if no block offers room, all blocks after the front one are full, so at least the promised number of elements is there |
| `SpscTheorems.CapacityGuarantee` | thirdparty/readerwriterqueue-1.0.6/readerwriterqueue.h:552-636 | `try_enqueue` on a queue built for at least one element returns false only if at some instant of that very call at least `size` elements were outstanding |
| `SpscCalls.CallerFifo` | thirdparty/readerwriterqueue-1.0.6/readerwriterqueue.h:285-376 | for the callers, in every interleaving: the elements returned, followed by those that wait in memory, are exactly the arguments of the `enqueue` and `try_enqueue` calls that returned true, in order |
| `SpscCalls.ConsumerAnswers` | thirdparty/readerwriterqueue-1.0.6/readerwriterqueue.h:285-500 | every consumer call: `try_dequeue` and `pop` take and `peek` shows the element at the front; empty is answered only if nothing waited when the call was made |
| `SpscCalls.ProducerAnswers` | thirdparty/readerwriterqueue-1.0.6/readerwriterqueue.h:535-644 | every producer call that returns false: at an instant of that call at least `size` elements waited, and a call that may allocate fails only because its allocation does |
| `SpscCalls.AllocatesWithLeave` | thirdparty/readerwriterqueue-1.0.6/readerwriterqueue.h:605-634 | only a call of `enqueue` whose allocation succeeds adds a block; `try_enqueue` never does |
| `SpscCalls.BlocksDouble` | thirdparty/readerwriterqueue-1.0.6/readerwriterqueue.h:605-609 | each new block has twice the slots of the largest before, up to `MAX_BLOCK_SIZE`, in closed form |
| `SpscCalls.ProducerWaitFree` | thirdparty/readerwriterqueue-1.0.6/readerwriterqueue.h:535-644 | wait-free: in every interleaving a producer call returns with its sixth step at the latest |
| `SpscCalls.ConsumerWaitFree` | thirdparty/readerwriterqueue-1.0.6/readerwriterqueue.h:285-500 | wait-free: in every interleaving a consumer call returns with its eighth step at the latest |
| `SpscZeroSize.ZeroSizeFaults` | thirdparty/readerwriterqueue-1.0.6/readerwriterqueue.h:105-161 | for every block size limit, a queue built for 0 elements has a run in which the assert of `try_dequeue` fails |
| `SpscZeroSize.SafeExactly` | thirdparty/readerwriterqueue-1.0.6/readerwriterqueue.h:105-161 | the asserts hold in every run if and only if the queue is built for at least one element |
| `SpscSemaphore.StepInv` | thirdparty/readerwriterqueue-1.0.6/atomicops.h:667-745 | every atomic step of waiter and signaller keeps: count = signalled - acquired - pending, count at least -1, tokens plus post in flight = 1 exactly when the pending wait has been answered |
| `SpscSemaphore.SignalKeepsLaw` | thirdparty/readerwriterqueue-1.0.6/atomicops.h:736-745 | `signal(n)` keeps the law if and only if it brings a permit or finds nobody waiting |
| `SpscSemaphore.AnsweredEndsInSuccess` | thirdparty/readerwriterqueue-1.0.6/atomicops.h:698-707 | in every run, once a signal has answered a pending wait, that call goes round the roll-back loop however often and can only return success with one more permit acquired |
| `SpscSemaphore.SpscLaw` | thirdparty/readerwriterqueue-1.0.6/atomicops.h:667-745 | in every run with positive signals the count never drops below -1, at most one kernel post is outstanding and acquisitions never exceed signals |
| `SpscSemaphore.ZeroSignalInventsPermit` | thirdparty/readerwriterqueue-1.0.6/atomicops.h:736-745 | `signal(0)` on a blocked waiter hands out a permit nobody signalled |
| `SpscSemaphoreCalls.WaitAnswers` | thirdparty/readerwriterqueue-1.0.6/atomicops.h:667-733 | `tryWait` succeeds exactly if the count was positive when it looked, at an instant of the call; `wait` fails only after a time-out in that call, with nobody having answered it |
| `SpscSemaphoreCalls.PermitsBalance` | thirdparty/readerwriterqueue-1.0.6/atomicops.h:667-745 | with positive signals, never do more calls succeed than permits were there or signalled; at rest the count is exactly what is left and the kernel holds nothing |
| `SpscSemaphoreCalls.AloneTakes` | thirdparty/readerwriterqueue-1.0.6/atomicops.h:711-733 | with a permit there, a call that runs alone takes it in two steps |
| `SpscSemaphoreCalls.WaiterWakes` | thirdparty/readerwriterqueue-1.0.6/atomicops.h:667-697 | a spinning call takes a permit that comes, a blocked one the token posted for it |
| `SpscSemaphoreCalls.SignalEnds` | thirdparty/readerwriterqueue-1.0.6/atomicops.h:736-745 | `signal` returns after at most two steps and posts exactly if it finds a waiter |
| `BlockingSpscQueue.TakesOrGoesOn` | thirdparty/readerwriterqueue-1.0.6/readerwriterqueue.h:861-910 | an inner call that has not seen an empty queue can only end by taking an element |
| `BlockingSpscQueue.StepInv` | thirdparty/readerwriterqueue-1.0.6/readerwriterqueue.h:822-943 | every step of queue and semaphore together keeps: acquired = taken + held, signalled + unsignalled = enqueued |
| `BlockingSpscQueue.PermittedCallsSucceed` | thirdparty/readerwriterqueue-1.0.6/readerwriterqueue.h:822-943 | in every run the success asserts hold, and while the consumer holds a permit the queue is not empty |
| `BlockingSpscQueue.PermittedCallTakesFront` | thirdparty/readerwriterqueue-1.0.6/readerwriterqueue.h:861-910 | a permitted call returns the element at the front of the queue |
| `BlockingSpscCalls.CallerFifo` | thirdparty/readerwriterqueue-1.0.6/readerwriterqueue.h:822-943 | for the callers: what came out is a prefix of the arguments of the calls that returned true and of one still to return |
| `BlockingSpscCalls.RefusedWhenEmpty` | thirdparty/readerwriterqueue-1.0.6/readerwriterqueue.h:861-943 | a dequeuing call comes back empty handed only while the queue is empty at that instant, but for an element not yet announced |
| `BlockingSpscCalls.DequeueTimesOut` | thirdparty/readerwriterqueue-1.0.6/readerwriterqueue.h:876-917 | a call that waits does so only after a time-out in that call; one that does not wait never blocks |
| `BlockingSpscCalls.EnqueueRefused` | thirdparty/readerwriterqueue-1.0.6/readerwriterqueue.h:783-845 | an enqueuing call is refused only if at an instant of that call at least `size` elements were there, and if it may allocate only because that fails |
| `BlockingSpscCalls.PeekAnswers` | thirdparty/readerwriterqueue-1.0.6/readerwriterqueue.h:926-929 | `peek` returns the front element, or says empty because the queue was empty at an instant of that call |
| `CircularBuffer.Construct` | thirdparty/readerwriterqueue-1.0.6/readerwritercircularbuffer.h:34-51 | the ring is the least power of two that holds the capacity; a capacity of 0 gives an empty ring |
| `CircularBuffer.PlacesDiffer` | thirdparty/readerwriterqueue-1.0.6/readerwritercircularbuffer.h:250-266 | elements less than a ring apart have different masked places |
| `CircularBuffer.RingPut` | thirdparty/readerwriterqueue-1.0.6/readerwritercircularbuffer.h:250-256 | the masked slot of `nextSlot` is free, and constructing there leaves every other element in its place |
| `CircularBuffer.RingTake` | thirdparty/readerwriterqueue-1.0.6/readerwritercircularbuffer.h:258-266 | the masked slot of `nextItem` holds the oldest element |
| `CircularBuffer.StepInv` | thirdparty/readerwriterqueue-1.0.6/readerwritercircularbuffer.h:99-222 | every step of both threads and both semaphores keeps ledger and ring |
| `CircularBuffer.BoundedFifo` | thirdparty/readerwriterqueue-1.0.6/readerwritercircularbuffer.h:99-266 | in every run: output is a prefix of input, the word `nextSlot - nextItem` counts the outstanding elements and is between 0 and the capacity, free slots + items + operations in flight = capacity, no slot is overwritten or read dead |
| `CircularBufferCalls.CallerFifo` | thirdparty/readerwriterqueue-1.0.6/readerwritercircularbuffer.h:99-266 | for the callers: what came out, with the element just being returned, is a prefix of the arguments of the calls that returned true and of one still to return; at most the capacity is inside |
| `CircularBufferCalls.RefusedWhenFull` | thirdparty/readerwriterqueue-1.0.6/readerwritercircularbuffer.h:99-165 | an enqueuing call is refused only while the ring is full at that instant, but for a slot not yet given back |
| `CircularBufferCalls.RefusedWhenEmpty` | thirdparty/readerwriterqueue-1.0.6/readerwritercircularbuffer.h:192-226 | a dequeuing call is refused only while the ring is empty at that instant, but for an element not yet announced |
| `CircularBufferCalls.EnqueueTimesOut` | thirdparty/readerwriterqueue-1.0.6/readerwritercircularbuffer.h:144-165 | an enqueuing call that waits is refused only after a time-out in that call |
| `CircularBufferCalls.DequeueTimesOut` | thirdparty/readerwriterqueue-1.0.6/readerwritercircularbuffer.h:216-226 | a dequeuing call that waits is refused only after a time-out in that call |
| `FreeList.StepInv` | thirdparty/concurrentqueue-1.0.4/concurrentqueue.h:1459-1538 | every atomic step of any thread keeps: each node is in exactly one place, its reference word accounts for list and holders |
| `FreeList.ReferenceCounts` | thirdparty/concurrentqueue-1.0.4/concurrentqueue.h:1459-1538 | in every reachable state the reference count of a node is the list share plus the threads that hold it, and the flag is set exactly while it waits to be added; following `freeListNext` from the head meets no node twice, and meets a node exactly when it is in no other place; a node is with a thread exactly when that thread is at an instruction of its owner; the assert holds; `FreeListCalls.OwnersAgree` ties the places to the calls |
| `FreeList.ListIsChain` | thirdparty/concurrentqueue-1.0.4/concurrentqueue.h:1459-1538 | following `freeListNext` from `freeListHead` spells out the list, each node once |
| `FreeList.OneOwner` | thirdparty/concurrentqueue-1.0.4/concurrentqueue.h:1473-1538 | a node is with a thread exactly when that thread is at an instruction that only the owner executes |
| `FreeList.NextStable` | thirdparty/concurrentqueue-1.0.4/concurrentqueue.h:1473-1510 | `freeListNext` never changes while a thread holds a reference (no ABA) |
| `FreeList.GPoppedInv` | thirdparty/concurrentqueue-1.0.4/concurrentqueue.h:1489-1498 | a successful pop gives the node to one thread only and keeps the list |
| `FreeList.PopIsHead` | thirdparty/concurrentqueue-1.0.4/concurrentqueue.h:1489-1498 | a successful `try_get` takes the first node off the list |
| `FreeList.Quiescent` | thirdparty/concurrentqueue-1.0.4/concurrentqueue.h:1459-1538 | when no call is in progress a node is with a client exactly when it is not on the chain from the head through `freeListNext`, and has reference count 1 exactly on it; `FreeListCalls.NoneStranded` says it by the calls |
| `FreeListCalls.OwnersAgree` | thirdparty/concurrentqueue-1.0.4/concurrentqueue.h:1459-1510 | a node is in the hands of a client exactly if, by the calls made, it was created or returned by `try_get` and not given to `add` since |
| `FreeListCalls.NoneStranded` | thirdparty/concurrentqueue-1.0.4/concurrentqueue.h:1459-1538 | when no call is in progress, a node is on the chain from the head exactly if by the calls made no client owns it: none given to `add` is lost, none returned is still there |
| `FreeListCalls.GetAnswers` | thirdparty/concurrentqueue-1.0.4/concurrentqueue.h:1473-1510 | every `try_get`: null only if the head was null at an instant of that call, otherwise a node that was the head at an instant of that call, when this call replaced it by the next one |
| `FreeListCalls.AddAlone` | thirdparty/concurrentqueue-1.0.4/concurrentqueue.h:1459-1538 | running alone, `add` puts its node in front of the list within five steps |
| `FreeListCalls.GetAlone` | thirdparty/concurrentqueue-1.0.4/concurrentqueue.h:1473-1510 | running alone, `try_get` takes the first node off the list, or says that there is none, within seven steps |
| `OptimisticDequeue.WordsDecideTruly` | thirdparty/concurrentqueue-1.0.4/concurrentqueue.h:1955-1988 | the comparisons on wrapped counters decide as the true counters do within half the index range |
| `OptimisticDequeue.WordsDecideExactly` | thirdparty/concurrentqueue-1.0.4/concurrentqueue.h:1955-1988 | for counters less than a whole range apart they do so if and only if the difference is in the half range |
| `OptimisticDequeue.NeverOverclaims` | thirdparty/concurrentqueue-1.0.4/concurrentqueue.h:1979-1988 | unless the effective count is more than half the index range ahead of the tail, the words never claim more than is there, however far the tail is ahead |
| `OptimisticDequeue.OverclaimsExactly` | thirdparty/concurrentqueue-1.0.4/concurrentqueue.h:1979-1988 | for counts less than a whole range ahead that bound is exact |
| `OptimisticDequeue.WonBound` | thirdparty/concurrentqueue-1.0.4/concurrentqueue.h:1979-2000 | the largest successful reservation bounds the number of successes by the tail |
| `OptimisticDequeue.StepInv` | thirdparty/concurrentqueue-1.0.4/concurrentqueue.h:1955-2052 | every step of the producer and of any number of single and bulk consumers keeps the reservation history consistent |
| `OptimisticDequeue.Conservation` | thirdparty/concurrentqueue-1.0.4/concurrentqueue.h:1746-1750 | `dequeueOptimisticCount` = `headIndex` + `dequeueOvercommit` + reservations in flight |
| `OptimisticDequeue.HeadWithinTail` | thirdparty/concurrentqueue-1.0.4/concurrentqueue.h:1955-2052 | `headIndex`, even with the indices still to be taken, never passes `tailIndex` |
| `OptimisticDequeue.CalmIsWindowed` | thirdparty/concurrentqueue-1.0.4/concurrentqueue.h:1955-2052 | if during any one call the reservations given back plus those in flight are at most half the index range, then no comparison of the run overclaims |
| `OptimisticDequeue.EveryIndexOnce` | thirdparty/concurrentqueue-1.0.4/concurrentqueue.h:2248-2338 | in every such calm run, with any number of consumers, the counters balance, `headIndex` never passes `tailIndex`, and the indices handed out are 0, 1, 2 and so on without gap or repetition, each already constructed |
| `OptimisticDequeue.TakenIndicesConstructed` | thirdparty/concurrentqueue-1.0.4/concurrentqueue.h:2248-2338 | a consumer about to take indices takes published ones |
| `OptimisticDequeue.QuiescentTest` | thirdparty/concurrentqueue-1.0.4/concurrentqueue.h:1955-1965 | with no call in flight the entry test says exactly whether the word `tailIndex - headIndex` lies strictly between 0 and half the range; below half a range that is whether the queue is non-empty |
| `OvercommitRace.SleeperTakesTooMuch` | thirdparty/concurrentqueue-1.0.4/concurrentqueue.h:1955-2052 | for every index width from 2 bits and every number of consumers from three on there is a run in which the head passes the tail, although no more than one element is ever outstanding; it is not calm |
| `OvercommitRace.TwoConsumersExactly` | thirdparty/concurrentqueue-1.0.4/concurrentqueue.h:1955-2052 | with at most half the index range outstanding, the head stays within the tail in every run of n consumers of one producer if and only if n is at most 2 |
| `TwoConsumers.PairStep` | thirdparty/concurrentqueue-1.0.4/concurrentqueue.h:1955-2052 | every step of the producer and of two consumers keeps: a consumer asleep between its load of `dequeueOvercommit` and its reservation will not overclaim, because the other gives back at most twice meanwhile |
| `TwoConsumers.PairTakesEveryIndexOnce` | thirdparty/concurrentqueue-1.0.4/concurrentqueue.h:1955-2338 | in every run of at most two consumers, whatever their batches and however long they sleep, every index is handed out once, in order and already constructed |
| `CallDemand.GentleIsCalm` | thirdparty/concurrentqueue-1.0.4/concurrentqueue.h:1955-2338 | a run is calm if the sizes that the calls overlapping any one call ask for add up to at most half the index range |
| `CallDemand.GentleTakesEveryIndexOnce` | thirdparty/concurrentqueue-1.0.4/concurrentqueue.h:1955-2338 | so for any number of such consumers every index is handed out once, in order and already constructed |
| `DequeueCalls.CallAnswers` | thirdparty/concurrentqueue-1.0.4/concurrentqueue.h:1955-2052 | every call hands out exactly as many indices as the counters offered at the instants when it looked, at most `max`; none only if the words said at the entry test or at the decision that there was nothing |
| `DequeueCalls.AloneTakesAll` | thirdparty/concurrentqueue-1.0.4/concurrentqueue.h:2248-2300 | with no other call in flight and less than half the index range outstanding, a call that runs alone takes exactly the smaller of `max` and what is there |
| `DequeueCalls.CallersGetEachOnce` | thirdparty/concurrentqueue-1.0.4/concurrentqueue.h:1955-2338 | for the callers: the indices that the calls return are 0, 1, 2 and so on in the order of their returns, never more than were published |
| `DequeueCalls.WaitFree` | thirdparty/concurrentqueue-1.0.4/concurrentqueue.h:1955-2052 | wait-free: in every interleaving a call returns with its seventh step at the latest |
| `BlockIndex.SlotMoves` | thirdparty/concurrentqueue-1.0.4/concurrentqueue.h:2014-2017 | the signed block distance, computed on wrapped indices, leads as many slots forwards or backwards in the masked ring |
| `BlockIndex.FloorWraps` | thirdparty/concurrentqueue-1.0.4/concurrentqueue.h:2643-2644 | clearing the low bits commutes with wrapping, also just below zero |
| `ExplicitIndex.LookupIsScan` | thirdparty/concurrentqueue-1.0.4/concurrentqueue.h:2008-2017 | the signed-offset lookup of a wrapped index finds the block that a linear scan for the true index finds |
| `ExplicitIndex.DrainedIffPassed` | thirdparty/concurrentqueue-1.0.4/concurrentqueue.h:1570-1585 | the empty flags of a block are all set exactly when the head has passed the block |
| `ExplicitIndex.IsEmpty` | thirdparty/concurrentqueue-1.0.4/concurrentqueue.h:1570-1582 | the flag loop returns whether all flags are set |
| `ExplicitIndex.AllHoldPut` | thirdparty/concurrentqueue-1.0.4/concurrentqueue.h:1948 | constructing at the tail touches no live cell |
| `ExplicitIndex.AllHoldTake` | thirdparty/concurrentqueue-1.0.4/concurrentqueue.h:2020-2041 | the looked-up cell holds the front element, its flag is clear, and taking it changes nothing else |
| `ExplicitProducer.Producer.constructor` | thirdparty/concurrentqueue-1.0.4/concurrentqueue.h:1771-1786 | a new producer is empty, with an index of twice the given size or none if the allocation fails |
| `ExplicitProducer.Producer.NewBlockIndex` | thirdparty/concurrentqueue-1.0.4/concurrentqueue.h:2356-2393 | the bigger index lists the same blocks with the same bases; a failed allocation changes nothing |
| `ExplicitProducer.Producer.CopyEntries` | thirdparty/concurrentqueue-1.0.4/concurrentqueue.h:2371-2378 | the copying loop copies the slots in use, oldest first, and stops after exactly as many as are used |
| `ExplicitProducer.Producer.ReuseBlock` | thirdparty/concurrentqueue-1.0.4/concurrentqueue.h:1857-1867 | a drained block becomes the tail block and the list of blocks rotates |
| `ExplicitProducer.Producer.AppendBlock` | thirdparty/concurrentqueue-1.0.4/concurrentqueue.h:1896-1912 | a new block is linked in after the tail block |
| `ExplicitProducer.Producer.AddEntry` | thirdparty/concurrentqueue-1.0.4/concurrentqueue.h:1935-1939 | the next slot of the circular index records base and block, overwriting the oldest entry on reuse |
| `ExplicitProducer.Producer.CoverGrows` | thirdparty/concurrentqueue-1.0.4/concurrentqueue.h:1872-1880 | the leeway test keeps all blocks together within half the index range and within the size limit |
| `ExplicitProducer.Producer.InWindow` | thirdparty/concurrentqueue-1.0.4/concurrentqueue.h:1872-1880 | at most half the index range, and at most MAX_SUBQUEUE_SIZE, is ever outstanding |
| `ExplicitProducer.Producer.Enqueue` | thirdparty/concurrentqueue-1.0.4/concurrentqueue.h:1849-1952 | on success the element is at the back, on failure the queue is unchanged; success exactly inside a block, with a drained block, or with leeway and the allocations it needs granted; and exactly when the index grows |
| `ExplicitProducer.Producer.AcceptsByCount` | thirdparty/concurrentqueue-1.0.4/concurrentqueue.h:1853-1912 | success in terms of counts: inside a block always; at a boundary if the other blocks hold all the elements; otherwise with room under half the index range and the limit, a block, and, only if the index is missing or full, leave and memory to grow it |
| `ExplicitProducer.Producer.DrainedByCount` | thirdparty/concurrentqueue-1.0.4/concurrentqueue.h:1857 | at a block boundary the oldest block is drained exactly when the other blocks hold all the elements |
| `ExplicitProducer.Producer.Find` | thirdparty/concurrentqueue-1.0.4/concurrentqueue.h:2008-2017 | the block index leads to the block a linear scan for the true head finds |
| `ExplicitProducer.Producer.Dequeue` | thirdparty/concurrentqueue-1.0.4/concurrentqueue.h:1955-2052 | hands out the front element; nothing exactly when the queue is empty or holds exactly half the index range |
| `ExplicitProducer.Replay` | thirdparty/concurrentqueue-1.0.4/concurrentqueue.h:1849-2052 | every run of whole calls with any pattern of allocation failures gives exactly the answers of a plain sequence that counts its blocks and index slots, through block reuse, index wrap and index doubling |
| `ExplicitProducer.HalfRangeSticks` | thirdparty/concurrentqueue-1.0.4/concurrentqueue.h:1857-1880 | block reuse bypasses the leeway test: for every block size, index width and limit not below half the index range a queue of half the range is reachable, whose `dequeue` says nothing is there and whose `enqueue` refuses |
| `ExplicitProducer.Producer.HalfRangeRefuses` | thirdparty/concurrentqueue-1.0.4/concurrentqueue.h:1849-1880 | every queue of half the index range refuses every element, whatever the allocator does |
| `ExplicitProducer.Producer.LimitPreventsSticking` | thirdparty/concurrentqueue-1.0.4/concurrentqueue.h:1872-1880 | with a limit below half the index range the queue never reaches that size, so `dequeue` says nothing exactly when empty |
| `ImplicitIndex.ListedDouble` | thirdparty/concurrentqueue-1.0.4/concurrentqueue.h:2982-3001 | the doubled index, copied oldest first with vacant entries behind, lists the same blocks |
| `ImplicitIndex.RoomIffVacant` | thirdparty/concurrentqueue-1.0.4/concurrentqueue.h:2907-2915 | the slot after the index tail is vacant exactly when the index has room |
| `ImplicitIndex.LookupReaches` | thirdparty/concurrentqueue-1.0.4/concurrentqueue.h:2948-2964 | from the slot of any listed block the lookup reaches the slot of any other, forwards or backwards |
| `ImplicitIndex.UnwindStep` | thirdparty/concurrentqueue-1.0.4/concurrentqueue.h:2669-2674 | clearing the next entry during roll-back finds a live entry with the right key and leaves all others alone |
| `ImplicitIndex.MemoryPut` | thirdparty/concurrentqueue-1.0.4/concurrentqueue.h:2716-2718 | constructing at the tail touches no live cell of any block |
| `ImplicitIndex.MemoryTake` | thirdparty/concurrentqueue-1.0.4/concurrentqueue.h:2565-2609 | the cell of the head holds the front element |
| `ImplicitIndex.MemoryReturn` | thirdparty/concurrentqueue-1.0.4/concurrentqueue.h:2669-2675 | unused blocks can go back to the pool clean |
| `ImplicitProducer.Producer.constructor` | thirdparty/concurrentqueue-1.0.4/concurrentqueue.h:2423-2429 | a new producer is empty; without an index if its allocation failed |
| `ImplicitProducer.Producer.NewBlockIndex` | thirdparty/concurrentqueue-1.0.4/concurrentqueue.h:2966-3008 | twice the slots with the same blocks under the same keys; a failed allocation changes nothing |
| `ImplicitProducer.Producer.CopyIndex` | thirdparty/concurrentqueue-1.0.4/concurrentqueue.h:2982-2991 | the copying loop goes once round the ring, oldest entry first |
| `ImplicitProducer.Producer.InsertEntry` | thirdparty/concurrentqueue-1.0.4/concurrentqueue.h:2901-2933 | finds a vacant entry or makes room, exactly when there is an index and room or permission and memory for a bigger one |
| `ImplicitProducer.Producer.RewindTail` | thirdparty/concurrentqueue-1.0.4/concurrentqueue.h:2935-2939 | the index tail goes one slot back round the ring |
| `ImplicitProducer.Producer.EntryFor` | thirdparty/concurrentqueue-1.0.4/concurrentqueue.h:2941-2964 | finds the entry of the block that contains the index; the asserts hold, also while the tail is being rewound |
| `ImplicitProducer.Producer.TakeBlock` | thirdparty/concurrentqueue-1.0.4/concurrentqueue.h:2654-2688 | one turn takes a block and lists it, or changes nothing; with the exact condition |
| `ImplicitProducer.Producer.ClearEntries` | thirdparty/concurrentqueue-1.0.4/concurrentqueue.h:2668-2674 | the roll-back loop clears every entry inserted by this call and brings the index tail back, even if the index doubled midway |
| `ImplicitProducer.Producer.ReturnBlocks` | thirdparty/concurrentqueue-1.0.4/concurrentqueue.h:2675 | every block of the chain goes back to the pool |
| `ImplicitProducer.Producer.RollBack` | thirdparty/concurrentqueue-1.0.4/concurrentqueue.h:2664-2678 | blocks, keys, index tail and tail block are as before the call |
| `ImplicitProducer.Producer.BlockBaseDiff` | thirdparty/concurrentqueue-1.0.4/concurrentqueue.h:2643-2644 | the word `blockBaseDiff` is the range to allocate, except that it is 0 for a batch that overruns the index range |
| `ImplicitProducer.OverrunsExactly` | thirdparty/concurrentqueue-1.0.4/concurrentqueue.h:2643-2644 | the new blocks of a batch cover the whole index range if and only if `(tail - 1) % BLOCK_SIZE + count` is at least that range |
| `ImplicitProducer.Producer.TakeBlocks` | thirdparty/concurrentqueue-1.0.4/concurrentqueue.h:2646-2700 | the allocation loop takes all the blocks or, rolling back, none; success and the index size afterwards are exactly those of the turn-by-turn allotment |
| `ImplicitProducer.Producer.AllocateBlocks` | thirdparty/concurrentqueue-1.0.4/concurrentqueue.h:2643-2700 | takes all the blocks the items need, or none, as the allotment says; a batch that overruns the index range passes without a single block and without any change |
| `ImplicitProducer.Producer.Fill` | thirdparty/concurrentqueue-1.0.4/concurrentqueue.h:2703-2774 | constructs all items in order, one block at a time, and stops at the last block; for a batch that overruns the index range it constructs over a live object |
| `ImplicitProducer.Producer.EnqueueBulk` | thirdparty/concurrentqueue-1.0.4/concurrentqueue.h:2626-2774 | all or nothing: on success exactly the items are appended in order; on failure the contents, the blocks under their keys and the tail block are as before, every block taken is back in the pool, and the index tail points to the same entry exactly if there were blocks or the index has not grown; success exactly when every turn of the allotment is granted; a fault exactly when the batch overruns the index range |
| `ImplicitProducer.Producer.TailListed` | thirdparty/concurrentqueue-1.0.4/concurrentqueue.h:2954-2957 | the index tail stands at the entry of the last block |
| `ImplicitProducer.Producer.Dequeue` | thirdparty/concurrentqueue-1.0.4/concurrentqueue.h:2551-2618 | hands out the front element, nothing exactly when the queue is empty; a drained block leaves the index and returns to the pool |
| `ImplicitProducer.Replay` | thirdparty/concurrentqueue-1.0.4/concurrentqueue.h:2551-2774 | every run of bulk enqueues and dequeues, with any behaviour of the allocator, gives exactly the answers of a plain queue that refuses a batch only for the index range, the limit, a missing index or a failed or forbidden allocation the batch needs; it ends in a fault exactly if a batch overruns the index range |
| `ImplicitProducer.RoomAccepts` | thirdparty/concurrentqueue-1.0.4/concurrentqueue.h:2643-2700 | with a generous allocator the plain queue accepts every batch that leaves one block of room below half the index range and the limit |
| `ImplicitProducer.AllotExactly` | thirdparty/concurrentqueue-1.0.4/concurrentqueue.h:2646-2700 | a batch is allotted its blocks exactly if it needs none, or there is an index, the last block fits under half the index range and the limit, every block is granted, and where a block finds the index full it may and can be doubled |
| `ImplicitProducer.FirstBatchOverruns` | thirdparty/concurrentqueue-1.0.4/concurrentqueue.h:2643-2706 | for every block size and index width the largest batch, as the first operation, is a fault: the assert after the allocation loop fails |
| `ImplicitProducer.RollBackMovesTail` | thirdparty/concurrentqueue-1.0.4/concurrentqueue.h:2664-2678 | after a rolled-back batch of an empty producer whose index grew meanwhile, the index tail points to another entry than before |
| `HashTable.ProbeEnds` | thirdparty/concurrentqueue-1.0.4/concurrentqueue.h:3411-3448 | probing from any slot meets an empty one, so the loops terminate |
| `HashTable.Find` | thirdparty/concurrentqueue-1.0.4/concurrentqueue.h:3411-3448 | the lookup loop finds the slot of an id, or nothing exactly when the table does not hold it |
| `HashTable.Claim` | thirdparty/concurrentqueue-1.0.4/concurrentqueue.h:3507-3524 | the insertion loop stores the id in the first empty or reusable slot on its way, keeping every other id reachable |
| `HashTable.Bury` | thirdparty/concurrentqueue-1.0.4/concurrentqueue.h:3551-3559 | the slot of the id becomes reusable; every other id stays reachable |
| `HashTable.FewIds` | thirdparty/concurrentqueue-1.0.4/concurrentqueue.h:3452-3465 | a table holds at most as many ids as occupied slots |
| `ProducerHash.MigrationFits` | thirdparty/concurrentqueue-1.0.4/concurrentqueue.h:3417-3440 | an id found in an older table always has room in the newest |
| `ProducerHash.MigrationKeepsBudget` | thirdparty/concurrentqueue-1.0.4/concurrentqueue.h:3423-3440 | copying an entry keeps occupied slots + ids still to be copied within the count |
| `ProducerHash.InsertKeepsBudget` | thirdparty/concurrentqueue-1.0.4/concurrentqueue.h:3507-3524 | a new id pays for its slot unless the slot was already counted |
| `ProducerHash.BurialKeepsBudget` | thirdparty/concurrentqueue-1.0.4/concurrentqueue.h:3536-3560 | a leaving thread keeps the count sufficient |
| `ProducerHash.LiveFits` | thirdparty/concurrentqueue-1.0.4/concurrentqueue.h:3452-3485 | every live id fits a new table |
| `ProducerHash.ThreadHash.constructor` | thirdparty/concurrentqueue-1.0.4/concurrentqueue.h:3332-3347 | the initial hash is empty |
| `ProducerHash.ThreadHash.Search` | thirdparty/concurrentqueue-1.0.4/concurrentqueue.h:3404-3449 | the search through the chain finds the producer of an id exactly when the id is live |
| `ProducerHash.ThreadHash.Migrate` | thirdparty/concurrentqueue-1.0.4/concurrentqueue.h:3423-3440 | the lazy copy to the newest table keeps the map |
| `ProducerHash.ThreadHash.MakeRoom` | thirdparty/concurrentqueue-1.0.4/concurrentqueue.h:3452-3489 | afterwards the new count is below half the capacity, or the allocation failed and nothing changed |
| `ProducerHash.ThreadHash.GetOrAdd` | thirdparty/concurrentqueue-1.0.4/concurrentqueue.h:3388-3533 | returns the producer of a live thread; for a new thread a producer nobody owns, nothing exactly when an allocation fails |
| `ProducerHash.ThreadHash.Insert` | thirdparty/concurrentqueue-1.0.4/concurrentqueue.h:3494-3525 | the map gains exactly the new id; the count grows with the occupied slots |
| `ProducerHash.ThreadHash.Exit` | thirdparty/concurrentqueue-1.0.4/concurrentqueue.h:3536-3564 | the map loses exactly the leaving id and its producer becomes recyclable |
| `ProducerHash.Replay` | thirdparty/concurrentqueue-1.0.4/concurrentqueue.h:3388-3564 | every run of calls, for any hash function and any pattern of failures, answers as a plain map from live threads to distinct producers; a new thread is refused only without a producer, or without memory for a table when as many have been added as half fill the first one |
| `ConsumerToken.LineTake` | thirdparty/concurrentqueue-1.0.4/concurrentqueue.h:1265-1283 | taking from the first producer that is not dry takes from the front of the whole line |
| `ConsumerToken.Nearer` | thirdparty/concurrentqueue-1.0.4/concurrentqueue.h:1270-1286 | each step brings the walk nearer to its stopping point |
| `ConsumerToken.Queue.UpdateAfterRotation` | thirdparty/concurrentqueue-1.0.4/concurrentqueue.h:1392-1430 | the token moves to its designated producer: its start (from its initial offset) plus the missed rotations modulo the number of producers |
| `ConsumerToken.Queue.RotationsMove` | thirdparty/concurrentqueue-1.0.4/concurrentqueue.h:1412-1426 | a token that has missed r rotations moves r producers on, also when the count of rotations wraps |
| `ConsumerToken.Queue.TokensSpread` | thirdparty/concurrentqueue-1.0.4/concurrentqueue.h:1400-1410 | tokens that start together meet only if their numbers agree modulo the number of producers |
| `ConsumerToken.Queue.Turn` | thirdparty/concurrentqueue-1.0.4/concurrentqueue.h:1270-1286 | one turn of the walk: what it takes, and that the measure (elements wanted, distance to the stopping point) decreases |
| `ConsumerToken.Queue.Walk` | thirdparty/concurrentqueue-1.0.4/concurrentqueue.h:1265-1288 | the walk with its moving stopping point terminates and takes exactly min(wanted, available) from the front of the line |
| `ConsumerToken.Queue.TryDequeueBulk` | thirdparty/concurrentqueue-1.0.4/concurrentqueue.h:1249-1289 | returns min(max, total) elements, the first ones in walking order, each from the front of its producer; a used-up quota makes everybody rotate; the token is left at the last producer that gave elements, with their number noted, and no producer behind it is touched |
| `Semaphore.StepInv` | thirdparty/concurrentqueue-1.0.4/lightweightsemaphore.h:278-418 | every atomic step of any number of waiters, signallers and time-outs keeps both conservation laws |
| `Semaphore.Conservation` | thirdparty/concurrentqueue-1.0.4/lightweightsemaphore.h:278-418 | in every run count = signalled - acquired - pending waiters, and tokens + posts in flight = pending waiters + min(0, count); so acquisitions never exceed signals |
| `Semaphore.NoLostWakeup` | thirdparty/concurrentqueue-1.0.4/lightweightsemaphore.h:289-312 | a waiter stays blocked with no token and no post coming only if every permit has been acquired |
| `Semaphore.OwedToken` | thirdparty/concurrentqueue-1.0.4/lightweightsemaphore.h:304-311 | a timed-out waiter that reads a non-negative count is owed a token |
| `SemaphoreCalls.ExchangeTakes` | thirdparty/concurrentqueue-1.0.4/lightweightsemaphore.h:318-390 | a successful exchange takes as many permits as there are and the call still wants, no more |
| `SemaphoreCalls.TryWaitAnswers` | thirdparty/concurrentqueue-1.0.4/lightweightsemaphore.h:357-391 | every `tryWaitMany(max)` returns exactly the smaller of `max` and the count at its last step, which it takes off; it never waits |
| `SemaphoreCalls.WaitAnswers` | thirdparty/concurrentqueue-1.0.4/lightweightsemaphore.h:314-407 | every `waitMany(max)` returns at most `max`, leaves none behind if fewer, and at least one unless it timed out in that call and left unanswered |
| `SemaphoreCalls.PermitsBalance` | thirdparty/concurrentqueue-1.0.4/lightweightsemaphore.h:278-418 | never are more permits returned than were there or signalled; at rest the count is exactly what is left and the kernel holds nothing |
| `SemaphoreCalls.AloneTakes` | thirdparty/concurrentqueue-1.0.4/lightweightsemaphore.h:379-407 | with permits there, a call that runs alone takes what it wants, or all there is, in two steps |
| `SemaphoreCalls.SpinnerTakes` | thirdparty/concurrentqueue-1.0.4/lightweightsemaphore.h:318-330 | so does a call that is spinning |
| `SemaphoreCalls.SleeperWakes` | thirdparty/concurrentqueue-1.0.4/lightweightsemaphore.h:331-346 | a blocked call for which there is a token comes back with a permit and tops up |
| `SemaphoreCalls.SignalEnds` | thirdparty/concurrentqueue-1.0.4/lightweightsemaphore.h:409-418 | `signal(n)` returns after at most n + 1 steps |
| `BlockingQueue.StepInv` | thirdparty/concurrentqueue-1.0.4/blockingconcurrentqueue.h:123-202 | every step keeps: signalled + unsignalled = enqueued, claimed permits = dequeued + owed |
| `BlockingQueue.PermitsAreBacked` | thirdparty/concurrentqueue-1.0.4/blockingconcurrentqueue.h:294-386 | in every reachable state the inner queue holds at least as many items as are owed to threads with permits, and no item is lost or invented |
| `BlockingQueueCalls.CallTakes` | thirdparty/concurrentqueue-1.0.4/blockingconcurrentqueue.h:294-386 | every dequeuing call takes at most `max` items: one that does not wait exactly the smaller of `max` and the permits at an instant of that call, one that waits at least one unless it times out |
| `BlockingQueueCalls.ItemsBalance` | thirdparty/concurrentqueue-1.0.4/blockingconcurrentqueue.h:123-202 | the items put in by calls are exactly those taken out by calls and those inside |
| `BlockingQueueCalls.OnePermitEach` | thirdparty/concurrentqueue-1.0.4/blockingconcurrentqueue.h:123-202 | when no call is in progress there is exactly one permit for each item inside |
| `Poller.MaskLaws` | core/net/event/event_channel.cpp:102-151 | each operation changes just its own flag of the mask, and a mask is empty exactly when both flags are off |
| `Poller.EventChannel.EnableReading` | core/net/event/event_channel.cpp:117-123 | read interest is on, write interest as before, the kernel set mirrors the mask |
| `Poller.EventChannel.DisableReading` | core/net/event/event_channel.cpp:125-130 | read interest is off, write interest as before, the kernel set mirrors the mask |
| `Poller.EventChannel.EnableWriting` | core/net/event/event_channel.cpp:132-137 | write interest is on, read interest as before, the kernel set mirrors the mask |
| `Poller.EventChannel.DisableWriting` | core/net/event/event_channel.cpp:139-144 | write interest is off, read interest as before, the kernel set mirrors the mask |
| `Poller.EventChannel.DisableAll` | core/net/event/event_channel.cpp:146-151 | no interest is left and the mirror is valid; the descriptor is in the kernel set afterwards exactly if it was not there before |
| `Poller.EventChannel.RemoveFromLoop` | core/net/event/event_channel.cpp:153-156 | map and kernel set lose exactly this descriptor |
| `Poller.EpollPoller.UpdateEventChannel` | core/net/poller_impl/epoll_poller.cpp:62-96 | after every change of a mask the three-state mirror holds again; ADD is issued only for absent descriptors, MOD and DEL only for present ones |
| `Poller.EpollPoller.RemoveEventChannel` | core/net/poller_impl/epoll_poller.cpp:98-112 | the channel is in neither map nor kernel set afterwards, all others as before |
| `Poller.EpollPoller.UpdateEpollCtrl` | core/net/poller_impl/epoll_poller.cpp:114-126 | the rules of the kernel call: adding a known or changing an unknown descriptor is refused |
| `Poller.EpollPoller.StatusExactly` | core/net/poller_impl/epoll_poller.cpp:62-112 | added exactly when the kernel holds the descriptor with the current mask, deleted exactly when only the map holds it, new exactly when neither does |
| `Poller.EpollPoller.KernelExactly` | core/net/poller_impl/epoll_poller.cpp:62-112 | the kernel set holds exactly the descriptors of the added channels |
| `Poller.ReuseDescriptor` | core/net/poller_impl/epoll_poller.cpp:62-112 | a descriptor whose channel was removed can be registered again by a new channel |
| `Poller.DisableTwice` | core/net/poller_impl/epoll_poller.cpp:62-96 | two calls of `DisableAll` leave a channel that wants nothing in the kernel set, with an empty mask |
| `Poller.Replay` | core/net/poller_impl/epoll_poller.cpp:62-126 | after every sequence of requests to any number of channels the kernel set holds exactly the added descriptors with exactly the flags asked for, and no kernel call was refused |
| `ByteBuffer.Buffer.EnsureWritableBytes` | core/base/buffer/buffer.cpp:50-57 | room for the bytes, contents unchanged |
| `ByteBuffer.Buffer.Append` | core/base/buffer/buffer.cpp:35-42 | the bytes follow the contents |
| `ByteBuffer.Buffer.ClearReadIndex` | core/base/buffer/buffer.h:65-75 | drops so many bytes from the front, or everything |
| `ByteBuffer.Buffer.Read` | core/base/buffer/buffer.h:77-103 | the bytes returned followed by the contents left are the contents before |
| `ByteBuffer.Buffer.ReadFromFD` | core/base/buffer/buffer.cpp:71-99 | what the kernel delivered, through the buffer or the stack buffer, follows the contents in order |
| `ByteBuffer.Buffer.FindCRLF` | core/base/buffer/buffer.h:107-113 | the offset of the first CR LF, or nothing exactly when there is none |
| `ByteBuffer.Buffer.RetrieveUntil` | core/base/buffer/buffer.h:114-127 | drops everything before the given place; a place outside the contents changes nothing |
| `ByteBuffer.Buffer.Swap` | core/base/buffer/buffer.cpp:101-106 | the contents change places |
| `TcpConnection.Connection.SendInLoop` | core/net/tcp/tcp_connection.cpp:264-335 | unless the connection is closed or the write fails fatally the whole message is accepted behind all before it; bytes sent followed by bytes buffered stay the accepted stream |
| `TcpConnection.Connection.Enqueue` | core/net/tcp/tcp_connection.cpp:316-334 | what the socket did not take is buffered and write interest is on |
| `TcpConnection.Connection.WriteHandler` | core/net/tcp/tcp_connection.cpp:211-243 | the socket gets a prefix of the buffer; when it is empty, write interest goes off and a pending half-close is carried out with nothing left to send |
| `TcpConnection.Connection.Shutdown` | core/net/tcp/tcp_connection.cpp:77-84 | only a connected connection changes, to disconnecting with the half-close queued; a spurious failure of the weak exchange changes nothing |
| `TcpConnection.Connection.ShutdownInLoop` | core/net/tcp/tcp_connection.cpp:245-252 | the half-close is issued exactly when everything accepted has been sent, or the connection is closed already |
| `TcpConnection.Connection.RunQueuedShutdown` | core/net/tcp/tcp_connection.cpp:77-84 | a queued half-close obeys the same rule when the loop runs it |
| `TcpConnection.Connection.CloseHandler` | core/net/tcp/tcp_connection.cpp:147-162 | the connection is closed, wants no events, and the ledger still balances |
| `TcpConnection.Connection.ConnectEstablished` | core/net/tcp/tcp_connection.cpp:100-110 | the connection is connected and reads |
| `TcpConnection.Connection.SetReading` | core/net/tcp/tcp_connection.cpp:337-354 | starting and stopping to read leaves write interest alone |
| `TcpConnection.Connection.Handle` | core/net/tcp/tcp_connection.cpp:211-335 | one event of a run does to the connection what it does to a plain ledger of bytes sent and bytes waiting |
| `TcpConnection.PlainConserves` | core/net/tcp/tcp_connection.cpp:264-335 | the plain ledger loses, repeats and reorders nothing: accepted messages = bytes sent + bytes waiting, for every sequence of sends, partial writes, errors and closes |
| `TcpConnection.Replay` | core/net/tcp/tcp_connection.cpp:211-335 | for every sequence of events the connection ends with exactly the bytes sent, bytes waiting, phase, half-close and queued tasks of the plain ledger; bytes sent followed by bytes waiting are the accepted bytes; write interest is on exactly while something waits on an open connection |
| `TcpConnection.HalfCloseNotDropped` | core/net/tcp/tcp_connection.cpp:77-84 | after any events a connection that is shutting down has its half-close queued or issued, or still has bytes to send |
| `TcpConnection.HalfCloseAfterClose` | core/net/tcp/tcp_connection.cpp:245-252 | a half-close that runs after the close is issued although accepted bytes were never sent |

## Left out

- The C++ weak memory model: every atomic access is sequentially consistent, fences are taken as sufficient.
- Exceptions from element constructors and assignments, destructors, moving and swapping queues, alignment and placement new.
- Explicit `enqueue_bulk` with its index roll-back, and the block-recycling `dequeue_bulk` loops over elements of both producers; the counters of `dequeue_bulk` are in `OptimisticDequeue`.
- Single-element `enqueue` of the implicit producer: it is the one-item case of the bulk form with the allocation of at most one block.
- ExplicitProducer.Producer.Dequeue: whole calls, so the second test of the optimistic count always agrees with the first and the overcommit path is not taken; that path is in `OptimisticDequeue`.
- ImplicitProducer.Producer.Dequeue: whole calls, as above.
- ImplicitProducer.Producer.EnqueueBulk: after a fault nothing is said about the object, and `ImplicitProducer.Replay` ends there; the count fits `size_t`, and a block is smaller than half the index range.
- OptimisticDequeue.StepInv: speaks of steps whose deciding comparison does not overclaim; `CalmIsWindowed` derives this for whole runs.
- OptimisticDequeue.EveryIndexOnce: calm runs only, because it is false of others with three consumers (`OvercommitRace.SleeperTakesTooMuch`); `TwoConsumers.PairTakesEveryIndexOnce` covers all runs of two.
- The empty-counter variant of `Block::is_empty` for explicit producers with blocks of more than 32 elements; the flag variant is modelled.
- ProducerHash.ThreadHash.GetOrAdd: whole calls; interleavings inside the hash, and the waiting branch for a table another thread is allocating, are not modelled.
- ConsumerToken.Queue.TryDequeueBulk: whole calls on a fixed list of producers; producers that join between calls are not modelled.
- `size_approx` and `max_capacity` (estimates read from the counters), the order in which the tokenless `try_dequeue` tries producers, and the high-water callback: none of them changes the state that the results speak of.
- Several producers on one `ReaderWriterQueue`: its contract is one producer, although `QueueInLoop` can be reached from several threads.
- TcpConnection.Connection.ConnectEstablished: called once, on a connection that is still connecting, as server and client do.
- Connection set-up and tear-down across server, client, connector and acceptor, the read loop of `TcpConnection` and its callbacks.
- Sockets, addresses, the wake-up descriptor, `epoll_wait`, timers, logging and thread start and join.
- Everything under `benchmarks/`, `c_api/` and the logging library.
