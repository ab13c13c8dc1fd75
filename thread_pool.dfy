/** The worker pool of com.ThreadPool.DefaultThreadPool.
 *
 *  The Java pool keeps a `LinkedList` of jobs guarded by its own monitor, a
 *  list of `Worker` objects (each run by its own thread) and an atomic
 *  counter used to name the threads. Threads, `wait`/`notify` and
 *  `job.run()` are not modelled: the wait of a worker on an empty queue is a
 *  precondition, `notify` a returned boolean, and the job a worker takes is
 *  returned to stand for running it. A Java `null` job is `None`.
 */
module ThreadPoolModel {

  datatype Option<+T> = None | Some(value: T)

  const MAX_WORKER_NUMBERS: int := 10
  const DEFAULT_WORKER_NUMBERS: int := 5
  const MIN_WORKER_NUMBERS: int := 1

  /** The worker count the one-argument constructor uses for a requested `num`. */
  function Clamp(num: int): (r: int)
    ensures MIN_WORKER_NUMBERS <= r <= MAX_WORKER_NUMBERS
    ensures MIN_WORKER_NUMBERS <= num <= MAX_WORKER_NUMBERS ==> r == num
    ensures num > MAX_WORKER_NUMBERS ==> r == MAX_WORKER_NUMBERS
    ensures num < MIN_WORKER_NUMBERS ==> r == MIN_WORKER_NUMBERS
  {
    if num > MAX_WORKER_NUMBERS then MAX_WORKER_NUMBERS
    else if num < MIN_WORKER_NUMBERS then MIN_WORKER_NUMBERS
    else num
  }

  // ---------------------------------------------------------------------
  // The job queue

  /** No element of the queue is a null job. */
  predicate NoNull<J>(q: seq<Option<J>>) {
    forall i :: 0 <= i < |q| ==> q[i].Some?
  }

  /** The queue after `execute(job)`: it never lets a null job in; a null
   *  job leaves the queue as it was, and a non-null one is appended behind
   *  the jobs already there, which stay as they were. */
  function Enqueued<J>(q: seq<Option<J>>, job: Option<J>): (r: seq<Option<J>>)
    ensures NoNull(q) ==> NoNull(r)
    ensures |r| == |q| + (if job.Some? then 1 else 0) && r[..|q|] == q
    ensures job.Some? ==> r[|q|] == job
  {
    if job.Some? then q + [job] else q
  }

  /** One queue action of the pool: a caller's `execute(job)`, or the
   *  dequeue a worker does once the queue is non-empty. */
  datatype QueueOp<J> = Execute(job: Option<J>) | Dequeue

  /** Every dequeue of a run finds a non-empty queue (a worker that would
   *  find it empty waits instead). */
  predicate Feasible<J>(q: seq<Option<J>>, ops: seq<QueueOp<J>>)
    decreases |ops|
  {
    ops == [] ||
    match ops[0]
    case Execute(job) => Feasible(Enqueued(q, job), ops[1..])
    case Dequeue => q != [] && Feasible(q[1..], ops[1..])
  }

  /** What a run produced: the jobs dequeued, in order, and the queue left. */
  datatype Outcome<J> = Outcome(taken: seq<Option<J>>, rest: seq<Option<J>>)

  /** The effect of a run on the queue. Starting from a null-free queue,
   *  every job the run dequeues is non-null, and so is the queue it leaves:
   *  the worker's `job != null` test always passes. */
  function Run<J>(q: seq<Option<J>>, ops: seq<QueueOp<J>>): (r: Outcome<J>)
    requires Feasible(q, ops)
    ensures NoNull(q) ==> NoNull(r.taken) && NoNull(r.rest)
    decreases |ops|
  {
    if ops == [] then Outcome([], q)
    else match ops[0]
      case Execute(job) => Run(Enqueued(q, job), ops[1..])
      case Dequeue =>
        var o := Run(q[1..], ops[1..]);
        Outcome([q[0]] + o.taken, o.rest)
  }

  /** The non-null jobs a run submits, in submission order. */
  function Submitted<J>(ops: seq<QueueOp<J>>): (s: seq<Option<J>>)
    decreases |ops|
  {
    if ops == [] then []
    else (if ops[0].Execute? && ops[0].job.Some? then [ops[0].job] else []) + Submitted(ops[1..])
  }

  /** FIFO discipline: over any run, the jobs dequeued followed by the jobs
   *  still queued are exactly the jobs queued initially followed by those
   *  submitted, in order. So jobs leave in the order they came, none is
   *  lost and none is dequeued twice. */
  lemma {:induction false} RunIsFifo<J>(q: seq<Option<J>>, ops: seq<QueueOp<J>>)
    requires Feasible(q, ops)
    ensures Run(q, ops).taken + Run(q, ops).rest == q + Submitted(ops)
    decreases |ops|
  {
    if ops != [] {
      if ops[0].Execute? {
        RunIsFifo(Enqueued(q, ops[0].job), ops[1..]);
        ExecuteStep(q, ops);
      } else {
        RunIsFifo(q[1..], ops[1..]);
        DequeueStep(q, ops);
      }
    }
  }

  /** The FIFO equation survives a leading `execute`. */
  lemma ExecuteStep<J>(q: seq<Option<J>>, ops: seq<QueueOp<J>>)
    requires ops != [] && ops[0].Execute? && Feasible(q, ops)
    requires Run(Enqueued(q, ops[0].job), ops[1..]).taken + Run(Enqueued(q, ops[0].job), ops[1..]).rest
      == Enqueued(q, ops[0].job) + Submitted(ops[1..])
    ensures Run(q, ops).taken + Run(q, ops).rest == q + Submitted(ops)
  {
    var job := ops[0].job;
    var q' := Enqueued(q, job);
    var o := Run(q', ops[1..]);
    var s := Submitted(ops[1..]);
    AppendAssoc(q, if job.Some? then [job] else [], s);
  }

  lemma AppendAssoc<T>(a: seq<T>, b: seq<T>, c: seq<T>)
    ensures a + b + c == a + (b + c)
  {
  }

  /** The FIFO equation survives a leading dequeue. */
  lemma DequeueStep<J>(q: seq<Option<J>>, ops: seq<QueueOp<J>>)
    requires ops != [] && ops[0].Dequeue? && Feasible(q, ops)
    requires Run(q[1..], ops[1..]).taken + Run(q[1..], ops[1..]).rest == q[1..] + Submitted(ops[1..])
    ensures Run(q, ops).taken + Run(q, ops).rest == q + Submitted(ops)
  {
    var o := Run(q[1..], ops[1..]);
    var s := Submitted(ops[1..]);
    assert Run(q, ops) == Outcome([q[0]] + o.taken, o.rest);
    assert Submitted(ops) == s;
    ConsAppend(q[0], o.taken, o.rest, q[1..], s);
    assert [q[0]] + q[1..] == q;
  }

  /** Putting one element in front of both sides of a sequence equation. */
  lemma ConsAppend<T>(x: T, a: seq<T>, b: seq<T>, c: seq<T>, d: seq<T>)
    requires a + b == c + d
    ensures [x] + a + b == [x] + c + d
  {
    assert [x] + a + b == [x] + (a + b);
    assert [x] + c + d == [x] + (c + d);
  }

  // ---------------------------------------------------------------------
  // The classes

  /** `DefaultThreadPool.Worker`. `threadNumber` stands for the thread that
   *  runs it, named "ThreadPool-worker-" followed by that number. */
  class Worker {
    const threadNumber: nat
    var running: bool

    constructor (threadNumber: nat)
      ensures this.threadNumber == threadNumber && running
    {
      this.threadNumber := threadNumber;
      running := true;
    }

    /** The test `while (running)` at the top of each pass of `Worker.run`. */
    method TestRunning() returns (go: bool)
      ensures go == running
    {
      go := running;
    }

    /** `Worker.shutDown`: clears this worker's flag and nothing else. */
    method ShutDown()
      modifies this`running
      ensures !running
    {
      running := false;
    }
  }

  class DefaultThreadPool<J> {
    var jobs: seq<Option<J>>
    var workers: seq<Worker>
    var workerNum: int
    var threadNum: nat
    /** History: the non-null jobs ever executed, and the jobs workers took,
     *  each in order. */
    ghost var submitted: seq<Option<J>>
    ghost var taken: seq<Option<J>>

    /** FIFO: the jobs taken followed by the jobs queued are exactly the jobs
     *  submitted, in order. The queue holds no null job; the thread counter
     *  equals the number of workers created, and the k-th worker (from 0)
     *  got number k + 1. */
    ghost predicate Valid()
      reads this
    {
      && taken + jobs == submitted
      && NoNull(jobs)
      && threadNum == |workers|
      && (forall i :: 0 <= i < |workers| ==> workers[i].threadNumber == i + 1)
    }

    /** `new DefaultThreadPool()`: five running workers, an empty queue. */
    constructor Default()
      ensures Valid() && jobs == [] && workerNum == DEFAULT_WORKER_NUMBERS
      ensures submitted == [] && taken == []
      ensures |workers| == DEFAULT_WORKER_NUMBERS
      ensures forall i :: 0 <= i < |workers| ==> fresh(workers[i]) && workers[i].running
    {
      jobs, workers, workerNum, threadNum := [], [], DEFAULT_WORKER_NUMBERS, 0;
      submitted, taken := [], [];
      new;
      InitWorkers(DEFAULT_WORKER_NUMBERS);
    }

    /** `new DefaultThreadPool(num)`: `Clamp(num)` running workers, an empty queue. */
    constructor (num: int)
      ensures Valid() && jobs == [] && workerNum == Clamp(num)
      ensures submitted == [] && taken == []
      ensures |workers| == Clamp(num)
      ensures forall i :: 0 <= i < |workers| ==> fresh(workers[i]) && workers[i].running
    {
      jobs, workers, threadNum := [], [], 0;
      submitted, taken := [], [];
      workerNum := Clamp(num);
      new;
      InitWorkers(workerNum);
    }

    /** `initWorkers(num)`: appends `num` new running workers (none when
     *  `num <= 0`), numbering them on from the thread counter. */
    method InitWorkers(num: int)
      requires Valid()
      modifies this`workers, this`threadNum
      ensures Valid()
      ensures |workers| == |old(workers)| + (if num > 0 then num else 0)
      ensures workers[..|old(workers)|] == old(workers)
      ensures forall i :: |old(workers)| <= i < |workers| ==> fresh(workers[i]) && workers[i].running
    {
      var i := 0;
      while i < num
        invariant 0 <= i <= (if num > 0 then num else 0)
        invariant Valid()
        invariant |workers| == |old(workers)| + i
        invariant workers[..|old(workers)|] == old(workers)
        invariant forall k :: |old(workers)| <= k < |workers| ==> fresh(workers[k]) && workers[k].running
      {
        var worker := new Worker(threadNum + 1);
        workers := workers + [worker];
        threadNum := threadNum + 1;
        i := i + 1;
      }
    }

    /** `execute(job)`: a non-null job is appended at the tail and one waiting
     *  worker is notified; a null job changes nothing. */
    method Execute(job: Option<J>) returns (notified: bool)
      requires Valid()
      modifies this`jobs, this`submitted
      ensures Valid()
      ensures jobs == Enqueued(old(jobs), job) && submitted == Enqueued(old(submitted), job)
      ensures job.Some? ==> jobs == old(jobs) + [job]
      ensures job.None? ==> jobs == old(jobs)
      ensures taken == old(taken)
      ensures notified <==> job.Some?
    {
      notified := false;
      if job.Some? {
        jobs := jobs + [job];
        submitted := submitted + [job];
        notified := true;
        assert taken + jobs == (taken + old(jobs)) + [job];
      }
    }

    /** The dequeue inside `Worker.run`, once the worker's wait on the
     *  monitor is over (it waits while the queue is empty): the head job is
     *  removed and returned, standing for `job.run()`. The `job != null`
     *  test of the source always passes. */
    method TakeHead() returns (job: J)
      requires Valid() && jobs != []
      modifies this`jobs, this`taken
      ensures Valid()
      ensures Some(job) == old(jobs)[0] && jobs == old(jobs)[1..]
      ensures taken == old(taken) + [Some(job)] && submitted == old(submitted)
    {
      var head := jobs[0];
      jobs := jobs[1..];
      taken := taken + [head];
      assert taken + jobs == old(taken) + old(jobs);
      assert head.Some?;
      job := head.value;
    }

    /** Pool `shutDown`: clears every worker's flag; the queue and the worker
     *  list stay as they were. */
    method ShutDown()
      requires Valid()
      modifies workers
      ensures Valid() && unchanged(this)
      ensures forall i :: 0 <= i < |workers| ==> !workers[i].running
    {
      for k := 0 to |workers|
        invariant forall i :: 0 <= i < k ==> !workers[i].running
      {
        workers[k].ShutDown();
      }
    }

    /** `addWorkers(num)`: a no-op. */
    method AddWorkers(num: int)
      ensures unchanged(this) && unchanged(workers)
    {
    }

    /** `removeWorkers(num)`: a no-op. */
    method RemoveWorkers(num: int)
      ensures unchanged(this) && unchanged(workers)
    {
    }

    /** `getJobSize()`: the number of queued jobs. */
    method GetJobSize() returns (n: int)
      ensures n == |jobs|
    {
      n := |jobs|;
    }
  }

  /** The flag test and the dequeue of `Worker.run` are separate steps, and a
   *  worker that passed the test before `shutDown` and then waits on an
   *  empty queue is not woken by the shutdown. `notify` wakes one waiting
   *  worker, chosen arbitrarily; in the interleaving shown here the next
   *  `execute` happens to wake this one, which takes and runs that job and
   *  only then sees its flag down. */
  method WaitingWorkerRunsJobAfterShutDown<J>(p: DefaultThreadPool<J>, w: Worker, job: J)
    returns (ran: J, goAgain: bool)
    requires p.Valid() && w in p.workers && w.running && p.jobs == []
    modifies p, p.workers
    ensures p.Valid() && !w.running
    ensures ran == job && p.jobs == [] && !goAgain
  {
    var go := w.TestRunning();
    assert go;
    p.ShutDown();
    var notified := p.Execute(Some(job));
    ran := p.TakeHead();
    goAgain := w.TestRunning();
  }

  /** Workers are numbered 1, 2, 3, ... in creation order, so numbers are
   *  strictly increasing along the list and no worker appears twice. */
  lemma WorkerNumbersIncrease<J>(p: DefaultThreadPool<J>)
    requires p.Valid()
    ensures forall i, j :: 0 <= i < j < |p.workers| ==>
      p.workers[i].threadNumber < p.workers[j].threadNumber && p.workers[i] != p.workers[j]
  {
  }
}
