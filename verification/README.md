# Verified models of the message queues, thread pool, chunkers and hashes

A Dafny model of the parts of the repository whose correctness is not visible from reading one function,
with proofs over every run and every input.

- **Lock-free queue** (`SpscQueue`, `SpscQueueProof`, `SpscQueueTheorems`, `SpscCalls`, `SpscSizeWalk`,
  `SpscConstruct`, `SpscZeroSize`).
  One producer and one consumer; each shared load or store of `inner_enqueue`, `try_dequeue`, `pop` and `peek`
  is a step, named after its source line, and a schedule interleaves them in any way. Blocks, shadow indices,
  block allocation in the middle of the ring and raw storage slots are modelled; a dangling block, a read of raw
  storage, a construction over a live object and a failed assert are all crash states. `SpscCalls` says what each
  single call answers, whatever the other thread does meanwhile.
- **Semaphore and blocking queue** (`Semaphore`, `BlockingQueue`, `BlockingCalls`). The user-space count, the
  kernel permits and the loop that undoes a timed-out wait, the composition with the lock-free queue, and what each
  kind of call may answer.
- **Consumer shutdown** (`LckFreeHandshake`, `BlockedMq`). The `_done` protocol of the queue test program over
  either queue, and the mutex-based queue as a monitor of any number of threads.
- **Thread pool** (`ThreadPool`, `ThreadPoolProof`, `ThreadPoolTheorems`, `ThreadPoolCalls`,
  `ThreadPoolObject`). Any number of workers and clients, any interleaving of critical sections, atomic
  operations, resizes, limit changes, spurious wake-ups and the destructor; what each call does; and the object
  whose methods update the fields in place, section by section.
- **Rabin fingerprint** (`Gf2`, `RabinBits`, `RabinPoly`). Polynomials over GF(2) as numbers, the bit loops
  against the carry-less product and the remainder, and the table-driven rolling window against the remainder of
  the window.
- **Chunkers** (`Chunking`, `RabinChunker`, `FastCdc`). A cut as the least length that qualifies; chunk lists,
  resynchronisation and locality of edits for any such rule, and both chunkers as instances of it.
- **XXHash64** (`XxHash64`, `WordLaws`, `XxHashKnown`). The incremental hash against the algorithm
  description of the xxHash fast digest specification, section "XXH64 algorithm description", steps 1 to 6, the word
  operations by bits and modulo 2^64, and two published hash values.
- **Finesse features** (`Finesse`, `FinesseLaws`). Which bytes are read, what a super-feature hashes, and which
  permutations of the chunk are invisible.
- **File database** (`InMemDb`). The dump and the loader, byte by byte, on well-formed and malformed files.

`Words` and `Sequences` hold the arithmetic and list facts the rest needs. 64-bit words are natural numbers with
the wrap-around written out.

Four results differ from what one would expect of the code:

- A lock-free queue built for size 0 has a block with a single slot, which can never hold an element. After three
  allocating enqueues a dequeue reaches the assert of `readerwriterqueue.h:351` and it fails
  (`SpscZeroSize.ZeroSizeFails`). The queue is correct on every schedule exactly when it is built for at least
  one element.
- Over the mutex-based queue the consumer of `mq_test.cc` can stay asleep for ever, because `_done` is set without
  a notify (`BlockedMq.CanBeStranded`, for any items; `BlockedMq.StrandedForEver`). Once the producer is through,
  the consumer comes to its end exactly when it is not asleep in `Pop` (`BlockedMq.EndsUnlessStranded`).
- `FastCDC::CalNormalSize` returns the average less an offset. Unless the average is more than two and a half
  times the minimum, the loop with the strict mask never runs (`FastCdc.StrictMaskUsed`); with the sizes of
  `config.json` (4096, 8192, 16384) it never does (`FastCdc.StrictMaskUnusedAsConfigured`).
- The break of `finesse_util.cc:74-76` leaves only the inner loop, so sub-chunks that start at or behind the end
  of the chunk are read in full: five bytes in four sub-chunks end with a read of position 7
  (`Finesse.ReadsBehindFive`). The exact condition is `Finesse.ReadsWholeChunk`.

## Model

| member | source | states |
|---|---|---|
| SpscQueueProof.ProducerKeeps | include/message_queue/readerwriterqueue.h:535-644 | every producer step keeps the ring invariant: blocks between front and tail full, blocks after the tail empty but for the one unpublished element, shadow indices never past the real ones, storage of exactly the queued elements alive |
| SpscQueueProof.ConsumerKeeps | include/message_queue/readerwriterqueue.h:285-489 | every consumer step of try_dequeue, peek and pop keeps the same invariant |
| SpscQueueProof.Publish568 | include/message_queue/readerwriterqueue.h:564-569 | the store of `tail` is where an enqueue into the tail block takes effect |
| SpscQueueProof.Keep598 | include/message_queue/readerwriterqueue.h:586-599 | filling the block after the tail leaves it unpublished: the queue's contents do not change yet |
| SpscQueueProof.Keep601 | include/message_queue/readerwriterqueue.h:600-601 | moving `tailBlock` publishes the element waiting in the next block |
| SpscQueueProof.Keep622 | include/message_queue/readerwriterqueue.h:606-631 | linking a new block behind the tail while the consumer reads keeps ring and contents |
| SpscQueueProof.Keep356 | include/message_queue/readerwriterqueue.h:340-368 | the consumer advances to the next block only when the front block is drained and the next one holds an element; no assert fails |
| SpscQueueProof.InsertLinked | include/message_queue/readerwriterqueue.h:606-631 | a block inserted into the ring adds nothing to what is read from front to tail |
| SpscQueueTheorems.ContentsAreUndelivered | include/message_queue/readerwriterqueue.h:285-376 | the elements read off the ring from the front block to the tail block are exactly the enqueued and not yet delivered ones, in order |
| SpscQueueTheorems.EverySchedule | include/message_queue/readerwriterqueue.h:285-644 | on every interleaving: no crash and no failed assert, delivered is a prefix of enqueued, the ring holds the rest, an empty answer means nothing was queued at the load of `tail`, a refused non-allocating enqueue saw at least the constructor's size queued; that these answers belong to the call that gives them is SpscCalls.EnqueueOutcome and SpscCalls.DequeueOutcome |
| SpscQueueTheorems.WaitFree | include/message_queue/readerwriterqueue.h:285-644 | every step inside a call brings its return closer whatever the other thread does |
| SpscQueueTheorems.CommittedDelivers | include/message_queue/readerwriterqueue.h:326-368 | once the test at line 326 is passed, the call never comes back empty: it answers the oldest undelivered element |
| SpscQueueTheorems.AllocatesOnlyWhenFull | include/message_queue/readerwriterqueue.h:556-606 | on every schedule an enqueue that has loaded `next` at line 572 goes on to allocate, or is refused there, only if the requested number of elements was queued when the tail block was found full, or is now |
| SpscQueueTheorems.SeenAt557 | include/message_queue/readerwriterqueue.h:557-606 | that count is the one at the load of line 557 in the same call, and allocation is reached no other way |
| SpscQueueTheorems.ProducerSends | include/message_queue/readerwriterqueue.h:535-644 | the element of a call is appended to the history exactly when the call returns with it accepted |
| SpscCalls.EnqueueOutcome | include/message_queue/readerwriterqueue.h:552-643 | one call of try_enqueue or enqueue under any interleaving: nothing is sent while it runs; at its return its element is the newest one, or it was not to allocate and at a moment of this same call at least the requested number was queued; an allocating call is never refused; only an allocating call adds a block, at most one, and only after such a moment |
| SpscCalls.EnqueueFits | include/message_queue/readerwriterqueue.h:552-601 | with fewer than the requested number queued throughout its own call an enqueue is accepted and adds no block, in both modes |
| SpscCalls.EnqueueAlone | include/message_queue/readerwriterqueue.h:552-601 | an enqueue that runs alone with fewer than the requested number queued is accepted within twelve steps, whatever was answered before |
| SpscCalls.EnqueueReturns | include/message_queue/readerwriterqueue.h:552-643 | an enqueue has returned after at most twelve steps of its thread, however the consumer runs in between |
| SpscCalls.DequeueOutcome | include/message_queue/readerwriterqueue.h:285-489 | one call of try_dequeue, pop or peek under any interleaving: nothing is delivered while it runs; at its return it delivered the oldest element, or as a peek named it and left it, or found the queue empty at a moment of this same call |
| SpscCalls.DequeueFinds | include/message_queue/readerwriterqueue.h:285-489 | a call begun with an element queued delivers (or, as a peek, names) the oldest one after at most thirteen steps of its thread |
| SpscQueueTheorems.SizeOnEverySchedule | include/message_queue/readerwriterqueue.h:493-506 | with the producer between calls and nothing moving during the walk, the walk counts exactly the undelivered elements |
| SpscSizeWalk.RingTotal | include/message_queue/readerwriterqueue.h:496-504 | the counts of all ring blocks add up to the queued elements and the one not yet published |
| SpscSizeWalk.InsertKeeps | include/message_queue/readerwriterqueue.h:496-504 | a block linked into the ring during the walk, ahead of the walker or behind it, leaves the bounds intact |
| SpscSizeWalk.ConsumerSizeBounds | include/message_queue/readerwriterqueue.h:493-506 | load by load, by the consumer while the producer moves: at least what was queued at the start, at most what is queued at the end and the one unpublished element |
| SpscSizeWalk.ProducerSizeBounds | include/message_queue/readerwriterqueue.h:493-506 | load by load, by the producer while the consumer moves: at most what was queued at the start, at least what is queued at the end |
| SpscConstruct.MaskedSuccessor | include/message_queue/readerwriterqueue.h:564-568 | `(i + 1) & sizeMask` is the circular successor |
| SpscConstruct.MaskedDistance | include/message_queue/readerwriterqueue.h:493-506 | `(tail - front) & sizeMask` on 64-bit words is the circular distance |
| SpscConstruct.MasksOnEverySchedule | include/message_queue/readerwriterqueue.h:556-606 | on every schedule every block, allocated ones included, has a power of two for a size, so the masks of the code are the circular successor and distance |
| SpscConstruct.CeilToPow2 | include/message_queue/readerwriterqueue.h:654-666 | the least power of two that is at least the argument, for every 64-bit argument that has one, and 0 for the others |
| SpscConstruct.BlockCount | include/message_queue/readerwriterqueue.h:116-144 | all blocks but one have room for the requested number of elements |
| SpscConstruct.Construct | include/message_queue/readerwriterqueue.h:105-161 | the constructor builds a ring of empty blocks fit for the requested size |
| SpscZeroSize.ZeroSizeFails | include/message_queue/readerwriterqueue.h:340-351 | a schedule of six calls on a queue built for size 0 makes the assert of line 351 fail |
| SpscZeroSize.ConstructedQueueIsCorrect | include/message_queue/readerwriterqueue.h:105-161 | the constructed queue is correct on every schedule if and only if it was built for at least one element |
| Semaphore.StepKeeps | include/message_queue/atomicops.h:585-663 | every step keeps the account of count, permits, the registered waiter and the release under way |
| Semaphore.EverySchedule | include/message_queue/atomicops.h:585-663 | the count never drops below -1, at most one permit is outstanding and none while the waiter is idle, successful waits never exceed initial plus released, a refused wait saw nothing available and left no trace, a blocked waiter with something available has a permit on the way; what each kind of wait may answer is Semaphore.WaitOutcome |
| Semaphore.WaitEnds | include/message_queue/atomicops.h:585-652 | unless the kernel keeps it asleep or a signal is between its increment and its post, each step of a waiter brings its return closer |
| Semaphore.UndoLoop | include/message_queue/atomicops.h:615-625 | from the head of the undo loop the waiter returns by itself exactly when no signal is between its increment and its post; otherwise it comes back to where it was |
| Semaphore.WaitOutcome | include/message_queue/atomicops.h:585-652 | one tryWait or wait under any interleaving: granted it has taken one, refused it has taken nothing and nothing was available at a moment of this same call; a wait for ever or with a time limit is refused only after the kernel gave up on it; only a wait for ever sleeps at line 606, only a timed one at line 609, a tryWait or wait(0) nowhere |
| Semaphore.WaitSucceeds | include/message_queue/atomicops.h:634-652 | a wait begun with something available is granted |
| Semaphore.SignalOutcome | include/message_queue/atomicops.h:654-663 | a signal releases its count, once, before it returns |
| BlockingQueue.TicketMeansElement | include/message_queue/readerwriterqueue.h:861-903 | a successful wait guarantees an element in the inner queue |
| BlockingQueue.EverySchedule | include/message_queue/readerwriterqueue.h:784-943 | on every interleaving the inner dequeue or pop after a wait succeeds, and between calls the semaphore counts exactly the undelivered elements |
| BlockingQueue.NoLostWakeup | include/message_queue/readerwriterqueue.h:876-886 | a consumer blocked with no signal under way means the queue is empty |
| BlockingQueue.TakeEnds | include/message_queue/readerwriterqueue.h:861-943 | each step of a dequeue, pop or peek brings its return closer, unless the kernel keeps it asleep, a signal is half done, or a wait_dequeue tries again after finding nothing |
| BlockingCalls.TakeOutcome | include/message_queue/readerwriterqueue.h:861-943 | one call of try_dequeue, pop, wait_dequeue or wait_dequeue_timed under any interleaving: it delivers the oldest element, or it is refused with nothing on offer at a moment of this same call; wait_dequeue is never refused and starts over only after the kernel gave up; try_dequeue, pop and a zero time limit never sleep; any other refusal means the kernel gave up |
| BlockingCalls.TakeFinds | include/message_queue/readerwriterqueue.h:861-943 | a call begun with an element on offer delivers the oldest one |
| BlockingCalls.RunOfQueue | include/message_queue/readerwriterqueue.h:784-943 | the inner queue of a blocking queue runs by a schedule of its own, so all that holds of the lock-free queue holds of it |
| BlockingCalls.EnqueueOutcome | include/message_queue/readerwriterqueue.h:784-841 | one call of try_enqueue or enqueue: its element is appended and, by its return, released to the semaphore; or it was not to allocate and was refused with the requested number queued |
| LckFreeHandshake.ReceivesAll | src/app/mq_test.cc:41-81 | over the lock-free queue the consumer always has a prefix of the items, and all of them once, in order, when its loop exits |
| LckFreeHandshake.ConsumerEnds | src/app/mq_test.cc:52-79 | once the producer has ended the consumer's loop exits within a stated number of its own steps, with every item |
| BlockedMq.StepKeeps | include/message_queue/blocked_mq.h:63-95 | every critical section keeps the bound, the order and the meaning of an un-notified sleeper |
| BlockedMq.EverySchedule | include/message_queue/blocked_mq.h:63-95 | for any number of threads: length within capacity, FIFO, a sleeping pusher means full, a sleeping popper means empty, so the two are never asleep together |
| BlockedMq.BlockedMQ.Push | include/message_queue/blocked_mq.h:63-72 | the section updates the object as the monitor says; it sleeps exactly when the queue is full, and then nothing is pushed; otherwise its data is the newest element and the sleeping poppers are woken; its assert holds |
| BlockedMq.BlockedMQ.Pop | include/message_queue/blocked_mq.h:81-95 | the oldest element, false exactly when the queue is empty and `_done` is set, else asleep; what the caller is given is what was popped, and a pop wakes the sleeping pushers |
| BlockedMq.BlockedMQ.ResumePush | include/message_queue/blocked_mq.h:65-67 | a woken pusher sleeps again exactly when the queue is full, otherwise pushes the data it came with |
| BlockedMq.BlockedMQ.ResumePop | include/message_queue/blocked_mq.h:83-89 | a woken popper is given the oldest element, and that is what was popped; false exactly when the queue is empty and `_done` is set; else it sleeps again |
| BlockedMq.BlockedMQ.IsEmpty | include/message_queue/blocked_mq.h:103-106 | true exactly when everything pushed was popped |
| BlockedMq.ReceivesAll | src/app/mq_test.cc:41-81 | over the mutex-based queue the consumer has every item once and in order when its loop exits |
| BlockedMq.EndsUnlessStranded | src/app/mq_test.cc:52-79 | once the producer is through, the consumer comes to its end by itself if and only if it is not asleep in Pop |
| BlockedMq.StrandedForEver | src/app/mq_test.cc:52-79 | a consumer asleep when `_done` is set stays asleep on every schedule without a spurious wake-up |
| BlockedMq.CanBeStranded | src/app/mq_test.cc:41-79 | for any items and any capacity of at least one, a schedule that leaves the consumer asleep for ever after it has received all of them |
| ThreadPoolProof.StepKeeps | include/thread_pool/threadPool.h:58-262 | every step of a worker, client or destructor keeps slots, account, worker wake-ups and client wake-ups |
| ThreadPoolProof.DetachOwned | include/thread_pool/threadPool.h:221-225 | a leaving worker finds its own thread in its slot, and popping the detached slots at the end loses no live worker |
| ThreadPoolProof.StartWorkerOwned | include/thread_pool/threadPool.h:195-262 | starting a worker in the next slot fills it and keeps every live worker the owner of its slot |
| ThreadPoolProof.StartWorkersOwned | include/thread_pool/threadPool.h:183-189 | growing fills every slot below the new size and leaves running workers alone |
| ThreadPoolProof.PopOwed | include/thread_pool/threadPool.h:231-237 | whenever a pop makes room for a sleeping enqueue or empties the queue for a sleeping wait_until_empty, the notify test owes them a wake-up |
| ThreadPoolProof.PopKeeps | include/thread_pool/threadPool.h:231-237 | taking a task keeps the whole invariant |
| ThreadPoolProof.DecrementKeeps | include/thread_pool/threadPool.h:66-77 | taking `in_flight` to zero owes its waiters a wake-up |
| ThreadPoolProof.GrowKeeps | include/thread_pool/threadPool.h:167-189 | raising the pool size keeps the whole invariant |
| ThreadPoolProof.ShrinkKeeps | include/thread_pool/threadPool.h:190-192 | lowering the pool size keeps the whole invariant |
| ThreadPoolProof.LimitKeeps | include/thread_pool/threadPool.h:154-165 | changing the queue limit keeps the whole invariant |
| ThreadPoolProof.DestructorTestKeeps | include/thread_pool/threadPool.h:136-137 | with the worker vector empty `in_flight` is zero |
| ThreadPoolTheorems.WorkerSlots | include/thread_pool/threadPool.h:167-261 | before stop every slot below the pool size runs a live worker; always, live workers and joinable slots correspond one to one; after stop the vector is empty exactly when no worker is live; no assert fails |
| ThreadPoolTheorems.SlotStays | include/thread_pool/threadPool.h:216-261 | a joinable slot is given up only by its own worker when it ends: never popped, overwritten or detached from outside |
| ThreadPoolTheorems.WorkersNotLost | include/thread_pool/threadPool.h:104-122 | queued tasks before stop mean an awake worker below the pool size, and while any worker sleeps at least as many workers are about to look at the queue as tasks are in it |
| ThreadPoolTheorems.ClientsNotLost | include/thread_pool/threadPool.h:66-165 | an enqueue asleep despite room, a wait_until_empty asleep on an empty queue and a wait_until_nothing_in_flight asleep at zero are each owed a notification by a worker about to give it |
| ThreadPoolTheorems.TasksAccountedFor | include/thread_pool/threadPool.h:93-138 | `in_flight` is queued plus held tasks, tasks start in the order accepted, each taken task is held once or has run once |
| ThreadPoolTheorems.NothingInFlight | include/thread_pool/threadPool.h:147-152 | `in_flight` at zero means every accepted task has run, except one just emplaced and not counted |
| ThreadPoolTheorems.DestructorFinishes | include/thread_pool/threadPool.h:129-138 | when the destructor returns nothing is in flight, the queue is empty, no worker is left and every accepted task has run exactly once |
| ThreadPoolTheorems.WorkerSpends | include/thread_pool/threadPool.h:204-251 | every step of an awake worker uses up part of a finite amount of work |
| ThreadPoolTheorems.Drains | include/thread_pool/threadPool.h:93-251 | no deadlock: left alone the workers come to rest in a bounded number of steps, and then every task has run and nobody sleeps whose condition holds |
| ThreadPoolCalls.AcceptsOnlyWithRoom | include/thread_pool/threadPool.h:104-119 | a step lengthens the queue or the accepted tasks only for an enqueue that holds the mutex, with the pool not stopped and the queue below its limit, and then by its task |
| ThreadPoolCalls.EnqueueAnswers | include/thread_pool/threadPool.h:104-119 | the next step of an enqueue that has the mutex: stopped, it leaves; at the limit, it sleeps; else its task is the newest one |
| ThreadPoolCalls.QueueBounded | include/thread_pool/threadPool.h:104-165 | on every run no more tasks are queued than the highest limit in force so far |
| ThreadPoolCalls.LimitKept | include/thread_pool/threadPool.h:104-165 | on every run that never lowers the limit the queue never exceeds it |
| ThreadPoolCalls.ReturnsOnlyWhenDone | include/thread_pool/threadPool.h:93-152 | an enqueue returns only with its task in or on a stopped pool, wait_until_empty only with nothing queued, wait_until_nothing_in_flight only at zero; until then a call stays the same call |
| ThreadPoolCalls.WaitAnswers | include/thread_pool/threadPool.h:140-152 | the next step of a waiting client that holds the mutex returns when its condition holds and otherwise goes to sleep |
| ThreadPoolCalls.WorkerTakes | include/thread_pool/threadPool.h:210-240 | only a worker below the pool size, or of a stopped pool, takes a task, the oldest, and nothing else does |
| ThreadPoolCalls.WorkerAnswers | include/thread_pool/threadPool.h:210-240 | the next step of a worker that has the mutex: it sleeps exactly when there is nothing for it, ends exactly when the pool is stopped and empty or it is surplus, and otherwise holds the oldest task, with the notify when the queue was full or is empty now |
| ThreadPoolCalls.ResizeMeans | include/thread_pool/threadPool.h:167-193 | the pool size becomes the limit, at least one; growing gives the slots needed, shrinking keeps the slots and leaves no worker asleep; a stopped pool is left alone |
| ThreadPoolCalls.LimitStays | include/thread_pool/threadPool.h:154-165 | the queue limit becomes the asked one, at least one, unless the pool is stopped; nothing else changes it |
| ThreadPoolCalls.FreshMeans | include/thread_pool/threadPool.h:82-89 | the constructor starts the asked number of workers, one for each slot, and nothing else has happened |
| ThreadPoolCalls.DestroyMeans | include/thread_pool/threadPool.h:129-137 | the destructor stops the pool, asks all workers to end, leaves no worker, no enqueue and no wait_until_empty asleep, and returns at once exactly when there is no worker |
| ThreadPoolCalls.DestructorReturns | include/thread_pool/threadPool.h:136-137 | woken and given the mutex the destructor returns exactly when no worker is left |
| ThreadPoolObject.ThreadPool.constructor | include/thread_pool/threadPool.h:82-89 | the constructed object is the initial state of the machine and satisfies the invariant |
| ThreadPoolObject.ThreadPool.StartWorker | include/thread_pool/threadPool.h:195-262 | no joinable slot and no started thread is touched, the slot asked for ends up joinable, and where slots and live workers correspond they still do |
| ThreadPoolObject.ThreadPool.Leave | include/thread_pool/threadPool.h:221-229 | the detach and the loop that pops detached slots, in place, are the step of the machine |
| ThreadPoolObject.ThreadPool.TakeSection | include/thread_pool/threadPool.h:209-240 | the worker's section, in place, is the step of the machine and keeps the invariant |
| ThreadPoolObject.ThreadPool.NotifySection | include/thread_pool/threadPool.h:244-248 | the same for the delayed notify_all of the producers |
| ThreadPoolObject.ThreadPool.RunTask | include/thread_pool/threadPool.h:250-251 | the work item is recorded as run and keeps counting in `in_flight`; the step of the machine, keeping the invariant |
| ThreadPoolObject.ThreadPool.DecrementInFlight | include/thread_pool/threadPool.h:66-72 | the same for the decrement of `in_flight` |
| ThreadPoolObject.ThreadPool.SignalSection | include/thread_pool/threadPool.h:73-76 | the same for the notify_all at zero |
| ThreadPoolObject.ThreadPool.EnqueueSection | include/thread_pool/threadPool.h:104-119 | in place: on a stopped pool the client leaves, at the limit it sleeps, both with the queue as it was; otherwise its task is appended and accepted; the step of the machine, keeping the invariant |
| ThreadPoolObject.ThreadPool.EnqueueEnd | include/thread_pool/threadPool.h:119-124 | the item is counted, the mutex released, and one of the sleeping workers woken if there is one |
| ThreadPoolObject.ThreadPool.WaitUntilEmptySection | include/thread_pool/threadPool.h:140-145 | returns exactly when nothing is queued |
| ThreadPoolObject.ThreadPool.WaitUntilNothingInFlightTest | include/thread_pool/threadPool.h:147-152 | returns exactly when nothing is in flight, else keeps the mutex until asleep |
| ThreadPoolObject.ThreadPool.WaitUntilNothingInFlightSleep | include/thread_pool/threadPool.h:150-151 | going to sleep releases the mutex in the same step and keeps the invariant |
| ThreadPoolObject.ThreadPool.SetQueueSizeLimit | include/thread_pool/threadPool.h:154-165 | in place, the limit becomes the asked one, at least one, unless the pool is stopped; the step of the machine, keeping the invariant |
| ThreadPoolObject.ThreadPool.SetPoolSize | include/thread_pool/threadPool.h:167-193 | in place, loop included, the pool size becomes the asked one, at least one, unless the pool is stopped; the step of the machine, keeping the invariant; its assert holds |
| ThreadPoolObject.ThreadPool.Destroy | include/thread_pool/threadPool.h:129-137 | in place: stopped, size 0, and finished exactly when there is no worker, else waiting; the step of the machine, keeping the invariant |
| ThreadPoolTheorems.CorrectUnlessEmpty | include/thread_pool/threadPool.h:82-138 | no assert fails on any run if and only if the pool is built with at least one thread |
| Gf2.RemUnique | src/dedup/rabin_poly.cc:54-97 | only one polynomial of lower degree differs from a given one by a multiple of the modulus |
| Gf2.CMulAssoc | src/dedup/rabin_poly.cc:76-91 | the carry-less product is associative |
| RabinBits.Fls32 | src/dedup/rabin_poly.cc:18-44 | the bit length of every 32-bit word, 0 for 0 |
| RabinBits.Fls64 | src/dedup/rabin_poly.cc:46-52 | the bit length of every 64-bit word |
| RabinBits.PolyMult | src/dedup/rabin_poly.cc:76-91 | the two result words together are the 128-bit carry-less product |
| RabinBits.ProductFits | src/dedup/rabin_poly.cc:58-61 | the high word of a product never has bit 63 set, so the branch at line 60 is not reached from polymult |
| RabinBits.PolyMod | src/dedup/rabin_poly.cc:54-74 | the remainder of any 128-bit polynomial by any non-zero 64-bit one |
| RabinBits.PolyMMult | src/dedup/rabin_poly.cc:93-97 | the unique remainder of the carry-less product |
| RabinPoly.Append8Correct | src/dedup/rabin_poly.cc:104-132 | shift, or and table lookup are reduction of `p * x^8 + m`: the stray bit the shift leaves is the one the table carries |
| RabinPoly.RabinFpUtil.constructor | src/dedup/rabin_poly.cc:104-124 | both tables hold the remainders they stand for |
| RabinPoly.RabinFpUtil.Append8 | src/dedup/rabin_poly.cc:130-132 | the result is that remainder and stays below 2^63 |
| RabinPoly.AppendToWindow | src/dedup/rabin_poly.cc:177-186 | appending to a window of which only the remainder is kept |
| RabinPoly.DropOldest | src/dedup/rabin_poly.cc:177-186 | the second table removes the oldest byte of the window |
| RabinPoly.CircularSlide | src/dedup/rabin_poly.cc:177-184 | overwriting the next slot of the circular buffer moves the window by one byte |
| RabinPoly.RabinFpUtil.NewCtx | src/dedup/rabin_poly.cc:139-145 | a fresh context is that of the empty history |
| RabinPoly.RabinFpUtil.ResetCtx | src/dedup/rabin_poly.cc:162-167 | a reset context is that of the empty history |
| RabinPoly.RabinFpUtil.SlideOneByte | src/dedup/rabin_poly.cc:177-186 | for every window size and history the fingerprint is the remainder of the polynomial of the last bytes, zero-padded, and below 2^63 |
| RabinPoly.KnownFingerprint | src/dedup/rabin_poly.cc:104-124 | the polynomial in use told by a value: the fingerprint of the byte 128 and seven zero bytes is 0x3fe6b8a5bf378d83 |
| Chunking.LeastCutBounds | src/dedup/rabin_chunker.cc:68-105 | a least qualifying cut stays within the buffer and the maximum and reaches the minimum unless the buffer ends |
| Chunking.LeastCutOnline | src/dedup/rabin_chunker.cc:81-96 | a cut before the end of the buffer depends on the bytes of its chunk only |
| Chunking.ChunksOfBuffer | src/dedup/rabin_chunker.cc:68-105 | the chunks concatenate to the buffer, none exceeds the maximum, all but the last reach the minimum |
| Chunking.ChunksAfter | src/dedup/rabin_chunker.cc:99-100 | the chunks after the first k are the chunks of what those leave over |
| Chunking.Resynchronises | src/dedup/rabin_chunker.cc:68-105 | two buffers with a common suffix and a boundary where it starts have the same chunks from there on |
| Chunking.PrefixStays | src/dedup/rabin_chunker.cc:68-105 | chunks that end within a common prefix, at its end at the latest, are the same in both buffers if the first goes on behind them |
| Chunking.EditIsLocal | src/dedup/fastcdc_chunker.cc:57-77 | replacing part of a buffer changes no chunk that ends where it starts or earlier, and none after the first common boundary behind it |
| RabinChunker.GetBitNum | src/dedup/rabin_chunker.cc:14-22 | the floor of the binary logarithm |
| RabinChunker.CutMeans | src/dedup/rabin_chunker.cc:81-96 | a cut is the least length that reaches the maximum, exhausts the buffer, or reaches the minimum with the remainder of the window before it zero in its low bits; only the bytes of the window decide |
| RabinChunker.CutRule | src/dedup/rabin_chunker.cc:68-105 | the rule satisfies what the chunking theorems ask for |
| RabinChunker.Chunker.constructor | src/dedup/rabin_chunker.cc:28-34 | the mask keeps as many low bits as the floor of the logarithm of the average |
| RabinChunker.Chunker.FindCut | src/dedup/rabin_chunker.cc:81-96 | the loop stops at that least length and leaves the context reset |
| RabinChunker.Chunker.GenerateOneChunk | src/dedup/rabin_chunker.cc:68-105 | zero exactly at the end of the buffer, otherwise the next of the buffer's chunks is copied out and the rest remains |
| RabinChunker.ChunkBuffer | src/app/chunking_test.cc:146-158 | the caller's loop receives exactly the chunks of the buffer |
| FastCdc.CutRule | src/dedup/fastcdc_chunker.cc:57-140 | the same for the gear hash rule |
| FastCdc.GearIsSum | src/dedup/fastcdc_chunker.cc:125-138 | for tables of entries below 2^31, as GEAR has, the gear hash is the weighted sum of the entries of the bytes, the newest at full weight and each older one at half the weight of the next, rounded down once |
| FastCdc.CutMeans | src/dedup/fastcdc_chunker.cc:119-140 | a cut is the least length that reaches the maximum, exhausts the buffer, or lies beyond the minimum with that sum zero under the mask for the length |
| FastCdc.StrictMaskUsed | src/dedup/fastcdc_chunker.cc:87-135 | the strict mask plays a part exactly when the average exceeds twice the minimum plus its half rounded up; otherwise the loose mask alone decides |
| FastCdc.StrictMaskUnusedAsConfigured | src/dedup/fastcdc_chunker.cc:87-98 | with the configured sizes the normal size is 2048, below the minimum, and the loose mask decides every cut |
| FastCdc.HashStep | src/dedup/fastcdc_chunker.cc:125-138 | one round of either loop tests the gear hash for the next length, and stopping there is stopping at the least qualifying length |
| FastCdc.Chunker.CutPoint | src/dedup/fastcdc_chunker.cc:119-140 | the two loops return the least length that reaches the maximum, exhausts the buffer, or passes the mask for its length |
| FastCdc.Chunker.GenerateOneChunk | src/dedup/fastcdc_chunker.cc:57-77 | zero exactly at the end of the buffer, otherwise the next of the buffer's chunks is copied out and the rest remains |
| XxHash64.XXHash64.constructor | include/dedup/xxhash64.h:29-37 | the state of the empty message |
| XxHash64.XXHash64.Add | include/dedup/xxhash64.h:43-96 | after any call the state is that of the message extended by the input; false exactly for no input |
| XxHash64.XXHash64.Hash | include/dedup/xxhash64.h:100-150 | the hash of everything added, per steps 1 to 6 |
| XxHash64.HashOnce | include/dedup/xxhash64.h:158-163 | the one-shot hash is the same function of the message |
| XxHash64.HashOfParts | include/dedup/xxhash64.h:43-150 | however a message is split into add calls, the hash is that of the concatenation |
| XxHashKnown.QuickBrownFox | include/dedup/xxhash64.h:100-201 | the published value of XXH64 for a 44-byte sentence: a stripe, eight bytes, four bytes; it fixes constants, rotations and order of the steps |
| XxHashKnown.SingleLetter | include/dedup/xxhash64.h:100-150 | the published value of XXH64 for the letter a: no stripe, one byte |
| WordLaws.RotateLeftBit | include/dedup/xxhash64.h:182-185 | bit i of a word rotated left by b is the bit b places below it, going round at 64 |
| WordLaws.RotateBack | include/dedup/xxhash64.h:182-185 | rotating on by the rest of the word gives it back |
| WordLaws.XorShiftBit | include/dedup/xxhash64.h:141-148 | a word exclusive-or itself shifted right, bit by bit |
| WordLaws.WrapsAround | include/dedup/xxhash64.h:29-37 | sums and differences of words are those of the numbers modulo 2^64 and undo each other |
| WordLaws.ProductWraps | include/dedup/xxhash64.h:188-191 | the product of words differs from that of the numbers by a multiple of 2^64 |
| XxHash64.StripesAppend | include/dedup/xxhash64.h:62-96 | stripes of a message cut at a stripe boundary compose |
| XxHash64.Process | include/dedup/xxhash64.h:194-201 | from the state of a message of whole stripes to that of the message with the next 32 bytes |
| XxHash64.SplitAt | include/dedup/xxhash64.h:88-92 | there is one way to split a message into whole stripes and less than a stripe |
| Finesse.SubChunkSizeMeans | src/dedup/finesse_util.cc:49-54 | the sub-chunk size rounds up: all sub-chunks together are as long as the chunk and less than one round longer |
| Finesse.ReadsWholeChunk | src/dedup/finesse_util.cc:63-83 | the loops read every byte once and none outside exactly when the last sub-chunk starts inside the chunk (or the chunk is empty) |
| Finesse.ReadsBehind | src/dedup/finesse_util.cc:63-83 | an uncovered chunk has its last reads behind its end |
| Finesse.ReadsBehindFive | src/dedup/finesse_util.cc:63-83 | such a chunk: five bytes in four sub-chunks |
| Finesse.CoveredSizes | src/dedup/finesse_util.cc:49-83 | a size that is a multiple of the number of sub-chunks, or larger than the square of one less, is covered |
| Finesse.SortedOnce | src/dedup/finesse_util.cc:95-99 | only one order is descending |
| Finesse.SortDownSorts | src/dedup/finesse_util.cc:95-99 | sorting keeps the members and orders them |
| Finesse.MapForgetsOrder | src/dedup/finesse_util.cc:63-83 | permuted sub-chunks have permuted features |
| Finesse.OrderInGroupsForgotten | src/dedup/finesse_util.cc:46-130 | when the size divides evenly, permuting sub-chunks inside any group leaves every super-feature as it is |
| Finesse.PushFeature | src/dedup/finesse_util.cc:78-81 | pushing a feature keeps the earlier groups full and the later ones empty |
| Finesse.FinesseUtil.MaxOfPiece | src/dedup/finesse_util.cc:65-77 | the inner loop yields the largest window remainder of the bytes it reads, and which bytes those are |
| Finesse.FinesseUtil.ExtractFeature | src/dedup/finesse_util.cc:46-132 | each super-feature is the XXH64 of the like-ranked features of the groups, for every size that can be read |
| FinesseLaws.FeatureIsLargest | src/dedup/finesse_util.cc:63-77 | a feature is the largest fingerprint met while its sub-chunk slides in, and one of them |
| FinesseLaws.RankInGroup | src/dedup/finesse_util.cc:95-99 | the sorted group has the members of the group in descending order: rank 0 is the largest, the last rank the smallest |
| FinesseLaws.AcrossAt | src/dedup/finesse_util.cc:109-130 | bytes 8j to 8j + 8 of what super-feature i hashes are member i of group j |
| FinesseLaws.SuperFeatureMeans | src/dedup/finesse_util.cc:109-130 | super-feature i is the hash, with seed 0, of the i-th largest features of the groups one after the other |
| InMemDb.LoadsStorable | src/database/in_mem_db.cc:77-99 | whatever the file, loading yields no empty key and no string of 2^32 bytes or more |
| InMemDb.LoadDump | src/database/in_mem_db.cc:53-105 | loading a dump adds exactly the dumped entries to what was there |
| InMemDb.RoundTrip | src/database/in_mem_db.cc:27-105 | in whatever order a map was dumped, loading rebuilds it if and only if no key is empty and every string is shorter than 2^32 bytes |
| InMemDb.DumpOfOne | src/database/in_mem_db.cc:27-44 | the file of a map with one short entry, byte by byte: size and bytes of the key, size and bytes of the value |
| WordLaws.ToBytesAt | src/database/in_mem_db.cc:34-41 | a number is written lowest byte first |
| WordLaws.FromBytesAt | src/database/in_mem_db.cc:77-99 | a number is read lowest byte first |
| InMemDb.InMemoryDatabase.Dump | src/database/in_mem_db.cc:27-44 | every key is written once, in some order, sizes truncated to 32 bits |
| InMemDb.InMemoryDatabase.OpenDB | src/database/in_mem_db.cc:53-105 | the loop computes the loading function on every file, short reads included |

## Left out

- Memory order: fences, weak memory, alignment and compiler reordering; sequential consistency is assumed. Allocation succeeds.
- Move operations and destructors of the lock-free queue, and its emplace and rvalue overloads (same steps).
- SpscQueueTheorems.EverySchedule: the queue is a step machine on values, because two threads interleave inside the methods; update in place is the `blocks` field of the state.
- Semaphore.EverySchedule: a state machine on values for the same reason; the kernel semaphore is a counter that may wake the waiter or time out; signal is called with at least 1; the width of `m_count` is not bounded.
- BlockingCalls.EnqueueOutcome: the moment a refusal refers to is the one of SpscCalls.EnqueueOutcome, which applies by BlockingCalls.RunOfQueue.
- BlockedMq.EverySchedule: fairness of the lock is not modelled; what becomes of a consumer asleep when `_done` is set is BlockedMq.EndsUnlessStranded.
- LckFreeHandshake.ReceivesAll: the walk of size_approx is one step, taken only once `_done` is set and the producer is through.
- SpscQueueTheorems.SizeOnEverySchedule: the walk is one step; a walk during which the other thread moves is bounded by SpscSizeWalk.ConsumerSizeBounds and SpscSizeWalk.ProducerSizeBounds, and that such a walk ends is not claimed.
- SpscConstruct.Construct: sizes whose block arithmetic would wrap around 64 bits are excluded.
- ThreadPoolTheorems.WorkerSlots: runs are over states as values; the object is tied to them section by section. The width of `in_flight` is not bounded, and tasks neither throw nor call the pool from a worker. Futures and their results are left out.
- ThreadPoolTheorems.Drains: says that awake workers come to rest in boundedly many steps; that the operating system runs them is assumed.
- RabinPoly.RabinFpUtil.constructor: window size 0 and sizes of 2^32 or more, where the 32-bit counters no longer serve.
- RabinBits.PolyMod: modulus 0.
- RabinChunker.Chunker.constructor: averages of 2^31 or more, where the shifted int overflows; minimum above maximum; maximum of 2^32 or more.
- FastCdc.CutRule: the masks and the gear table are arbitrary; the masks come from a floating-point logarithm. Buffers of 2^32 bytes or more, whose length CutPoint would truncate, are excluded.
- Finesse.FinesseUtil.ExtractFeature: shapes with fewer sub-chunks than the groups need, and sizes so near 2^32 that the offset would wrap; the library's sort is taken to sort.
- XxHash64.XXHash64.Add: null pointers, messages of 2^64 bytes or more, big-endian machines.
- InMemDb.InMemoryDatabase.OpenDB: a file that cannot be opened, and the queries and insertions on the map. File handling is a byte sequence.
- Reading files, logging, statistics and configuration are parameters.
- `ctpl.h`, `ctpl_stl.h` and `threadPoolNoReturn.h`: the same pattern as the modelled pool with less state.
- FixChunker and the factories: only easy members.
- Sockets, SSL, cryptography, compression, LevelDB, RocksDB, Redis and the tutorials: wrappers over libraries that are not part of this model.
