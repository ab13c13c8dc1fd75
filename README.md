# BondLink and DefaultThreadPool, modelled in Dafny

This project models the sequential bookkeeping of the two lock-protected
structures of the stayNightL/multiThread Java repository:

- `com.condition.BondLink`: a producer/consumer buffer made of an `int[size]`
  array and a counter `currentCount`, guarded by one `ReentrantLock` and two
  conditions. `addItem` waits once if the count is `size-1`, increments the
  count and writes the item at the new index, and signals "not empty" when
  the count becomes 1. `removeItem` waits once if the count is 0, zeroes the
  slot at the count, decrements it, and signals "not full" when the count
  becomes `size-2`. Slot 0 is never written, the buffer holds at most
  `size-1` items, and it is a stack: removal discards the newest item and
  returns nothing.
- `com.ThreadPool.DefaultThreadPool`: a pool whose constructor clamps the
  worker count into [1, 10] (default 5) and creates that many `Worker`s, each
  with a `running` flag and a thread numbered from an atomic counter.
  `execute` appends a non-null job to a FIFO `LinkedList` and notifies one
  waiting worker; a worker repeatedly tests its flag, waits while the queue
  is empty, then takes the head job and runs it; `shutDown` clears every worker's flag; `addWorkers` and
  `removeWorkers` do nothing; `getJobSize` returns the queue length.

Threads, locks and conditions are not modelled. Each blocking wait
(`await`, `wait`) is a precondition of the method that would wait, and each
signal (`signalAll`, `notify`) is a boolean the method returns.

Files:

- `bond_link.dfy`, module `BondLinkModel`: the state as a value (`Store`),
  its invariant `Inv`, the abstract contents `Contents` (slots 1..count), the
  pure transitions `Add` and `Remove`, lemmas about them and about runs of
  adds and removes, and the class `BondLink` over an `array<i32>` whose
  methods are proved to perform exactly `Add` and `Remove`.
- `thread_pool.dfy`, module `ThreadPoolModel`: `Clamp`; the queue as a
  `seq<Option<J>>` (`None` is a Java `null`), `Enqueued`, runs of executes
  and dequeues with the FIFO lemma; the classes `Worker` and
  `DefaultThreadPool`.

Points where the code does less than its use suggests:

- `BondLink` is used as a producer/consumer buffer, but its bookkeeping is
  a stack: `removeItem` discards the newest item and returns nothing.
  `CapacityFourIsLifo` shows that with size 4, after adding 1, 2 and 3, a
  remove leaves [1, 2].
- Both guards of `BondLink` are a single `if`, not a re-check loop, and
  `unlock` is not in a `finally`. After a spurious wake-up on a full buffer
  `addItem` raises the count to `size` and the write at that index throws
  `ArrayIndexOutOfBoundsException`: nothing is written, the count is left
  out of range and the lock stays held. After one on an empty buffer
  `removeItem` zeroes slot 0 and drives the count to -1. These defects are
  noted in comments of `bond_link.dfy`, not modelled.
- `Worker.run` does not catch exceptions: one thrown by `job.run()` ends
  that worker's thread. Running jobs is not modelled.
- `shutDown` only clears flags. A worker that tested its flag before the
  shutdown and waits on an empty queue is not woken by it. `notify` wakes
  one waiting worker, chosen arbitrarily, so an `execute` whose `notify`
  happens to wake this worker lets it take and run that job after the
  shutdown (`WaitingWorkerRunsJobAfterShutDown` shows this interleaving).

## Model

| member | source | states |
|---|---|---|
| `BondLinkModel.Init` | src/main/java/com/condition/BondLink.java:12-14 | the initial state has `size` slots, all 0, and count 0 |
| `BondLinkModel.InitInv` | src/main/java/com/condition/BondLink.java:11-14 | the initial state satisfies the invariant and holds no items |
| `BondLinkModel.AddGuardVersusBounds` | src/main/java/com/condition/BondLink.java:18-23 | under the invariant, `addItem` can complete iff its guard does not block and the array is non-empty; on a zero-length array the guard never blocks yet the write is out of bounds |
| `BondLinkModel.RemoveGuardExact` | src/main/java/com/condition/BondLink.java:32-37 | under the invariant, `removeItem` can complete iff its guard does not block |
| `BondLinkModel.SizeOneNeverAdds` | src/main/java/com/condition/BondLink.java:13-23 | with a one-slot array the add guard always blocks and the buffer stays empty |
| `BondLinkModel.AddBlocks` | src/main/java/com/condition/BondLink.java:18 | under the invariant, the add guard holds exactly when the buffer is full (size-1 items) |
| `BondLinkModel.RemoveBlocks` | src/main/java/com/condition/BondLink.java:32 | under the invariant, the remove guard holds exactly when the buffer is empty |
| `BondLinkModel.CapacityBound` | src/main/java/com/condition/BondLink.java:18-23 | the number of items held equals the count and is at most size-1 |
| `BondLinkModel.Add` | src/main/java/com/condition/BondLink.java:22-23 | add raises the count by one, writes the item at the new count and leaves every other slot alone |
| `BondLinkModel.Remove` | src/main/java/com/condition/BondLink.java:36-37 | remove zeroes the slot at the old count, lowers the count by one and leaves every other slot alone |
| `BondLinkModel.AddPreservesInv` | src/main/java/com/condition/BondLink.java:18-23 | add keeps the count bounds, slot 0 at 0 and every slot above the count at 0 |
| `BondLinkModel.RemovePreservesInv` | src/main/java/com/condition/BondLink.java:32-37 | remove keeps the count bounds, slot 0 at 0 and every slot above the count at 0 |
| `BondLinkModel.AddPushes` | src/main/java/com/condition/BondLink.java:22-23 | add appends the item at the top of the contents |
| `BondLinkModel.RemovePops` | src/main/java/com/condition/BondLink.java:36-37 | remove discards the most recently added item, the top of the contents |
| `BondLinkModel.AddRemoveRoundTrip` | src/main/java/com/condition/BondLink.java:22-37 | an add followed at once by a remove restores exactly the prior array and count |
| `BondLinkModel.AddAllPushes` | src/main/java/com/condition/BondLink.java:15-29 | a run of adds keeps the invariant and pushes the items in order onto the contents |
| `BondLinkModel.AddAllRemoveNRoundTrip` | src/main/java/com/condition/BondLink.java:15-43 | n adds followed by n removes restore exactly the prior state (LIFO) |
| `BondLinkModel.RemoveNLast` | src/main/java/com/condition/BondLink.java:36-37 | n+1 removes are n removes followed by one more, and n removes lower the count by n |
| `BondLinkModel.CapacityFourIsLifo` | src/main/java/com/condition/BondLink.java:18-37 | with size 4, adds of 1, 2, 3 succeed, a fourth add blocks, and a remove leaves [1, 2] |
| `BondLinkModel.BondLink.constructor` | src/main/java/com/condition/BondLink.java:12-14 | a fresh zero-filled array of `size` slots and count 0 |
| `BondLinkModel.BondLink.AddItem` | src/main/java/com/condition/BondLink.java:15-29 | past its guard, the new state is `Add` of the old one, the item is pushed, the invariant holds, and the "not empty" signal is sent iff the new count is 1 |
| `BondLinkModel.BondLink.RemoveItem` | src/main/java/com/condition/BondLink.java:30-43 | past its guard, the new state is `Remove` of the old one, the top item is discarded, the invariant holds, and the "not full" signal is sent iff the new count is size-2 |
| `ThreadPoolModel.Clamp` | src/main/java/com/threadPool/DefaultThreadPool.java:24 | the worker count lies in [1, 10], equals `num` inside that range, and is 10 above it and 1 below it |
| `ThreadPoolModel.Enqueued` | src/main/java/com/threadPool/DefaultThreadPool.java:73-75 | execute keeps the queue null-free, ignores a null job, and appends a non-null job behind unchanged existing jobs |
| `ThreadPoolModel.Run` | src/main/java/com/threadPool/DefaultThreadPool.java:42-78 | over a run of executes and dequeues from a null-free queue, every job dequeued and every job left is non-null, so the worker's `job != null` test always passes |
| `ThreadPoolModel.RunIsFifo` | src/main/java/com/threadPool/DefaultThreadPool.java:42-78 | over any run of executes and dequeues, jobs dequeued followed by jobs still queued equal the initial queue followed by the non-null jobs submitted, in order |
| `ThreadPoolModel.Worker.constructor` | src/main/java/com/threadPool/DefaultThreadPool.java:39-40 | a new worker is running and carries its thread number |
| `ThreadPoolModel.Worker.ShutDown` | src/main/java/com/threadPool/DefaultThreadPool.java:65-67 | clears this worker's `running` flag and changes nothing else |
| `ThreadPoolModel.DefaultThreadPool.Default` | src/main/java/com/threadPool/DefaultThreadPool.java:16-21 | the default pool has an empty queue and 5 fresh running workers numbered 1..5 |
| `ThreadPoolModel.DefaultThreadPool.constructor` | src/main/java/com/threadPool/DefaultThreadPool.java:23-26 | the pool has an empty queue, `workerNum == Clamp(num)` and that many fresh running workers |
| `ThreadPoolModel.DefaultThreadPool.InitWorkers` | src/main/java/com/threadPool/DefaultThreadPool.java:30-37 | appends max(num, 0) fresh running workers behind the existing ones, numbered on from the thread counter |
| `ThreadPoolModel.DefaultThreadPool.Execute` | src/main/java/com/threadPool/DefaultThreadPool.java:71-78 | a non-null job is appended to the queue and to the submission history and a worker is notified; a null job leaves the queue as it was and notifies nobody; the FIFO invariant (taken + queued == submitted) is kept |
| `ThreadPoolModel.Worker.TestRunning` | src/main/java/com/threadPool/DefaultThreadPool.java:43 | the loop test of `Worker.run` reports the worker's `running` flag |
| `ThreadPoolModel.DefaultThreadPool.TakeHead` | src/main/java/com/threadPool/DefaultThreadPool.java:46-59 | past the wait on an empty queue, removes and returns the head job, which is non-null, appends it to the taken history and keeps the FIFO invariant (taken + queued == submitted) |
| `ThreadPoolModel.WaitingWorkerRunsJobAfterShutDown` | src/main/java/com/threadPool/DefaultThreadPool.java:43-85 | in one interleaving, a worker that tested its flag before `shutDown` and waits on an empty queue is woken by the next `execute`'s `notify`, takes and runs that job after the shutdown, then sees its flag down |
| `ThreadPoolModel.DefaultThreadPool.ShutDown` | src/main/java/com/threadPool/DefaultThreadPool.java:81-85 | every worker's flag is cleared; the queue and the worker list are untouched |
| `ThreadPoolModel.DefaultThreadPool.AddWorkers` | src/main/java/com/threadPool/DefaultThreadPool.java:88-90 | changes no state |
| `ThreadPoolModel.DefaultThreadPool.RemoveWorkers` | src/main/java/com/threadPool/DefaultThreadPool.java:93-95 | changes no state |
| `ThreadPoolModel.DefaultThreadPool.GetJobSize` | src/main/java/com/threadPool/DefaultThreadPool.java:98-100 | returns the number of queued jobs |
| `ThreadPoolModel.WorkerNumbersIncrease` | src/main/java/com/threadPool/DefaultThreadPool.java:31-34 | worker numbers strictly increase along the worker list, so no worker appears twice |

## Left out

- Threads, the `ReentrantLock`, its two `Condition`s, `synchronized`, `wait`/`notify`, wake-up order and liveness: blocking is a precondition and a signal is a returned boolean.
- `InterruptedException`: an interrupted `await` in `BondLink`, and the early `return` of an interrupted worker waiting for work, are not modelled.
- The single-`if` guards of `addItem`/`removeItem` (a spurious wake-up race) and the `unlock` calls outside `finally`: flagged in comments, not modelled.
- `System.out.println` tracing in `BondLink`: output only.
- `Thread.start`, the thread-name string (only its number is kept, as `Worker.threadNumber`) and the execution of `job.run()`, including exceptions a job throws: foreign side effects.
- `Worker.run` as a whole loop: it runs until the flag is observed down and may wait forever, so it is modelled by its two steps, the flag test `Worker.TestRunning` and the dequeue `TakeHead`, which callers sequence.
- The synchronized wrapper around the worker list: it only matters under concurrency.
- `BondLinkModel.BondLink.constructor`: takes a `nat`; a negative size, which makes Java throw `NegativeArraySizeException`, is not modelled.
- `BondLinkModel.BondLink.AddItem`: requires a non-empty array besides its guard; on a zero-length array the Java guard lets the call through and the write at index 1 throws after the count was already incremented (`AddGuardVersusBounds` states the case).
- `ThreadPoolModel.DefaultThreadPool.GetJobSize`: does not model Java's 32-bit `int` result; the queue length is unbounded here.
- The 64-bit wrap-around of the `AtomicLong` thread counter: not modelled.
- The interfaces `ThreadPool` and `ThreadPoolImp`: signatures only, no behaviour.
- The socket time server and client, the thread-state demo and the test drivers: network I/O, a demo, and drivers that loop forever or block on input.
