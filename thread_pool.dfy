/** The pool object: its fields, the configuration setters, `start`, `createThread`
    and `submit`, each proved against the transition it specifies in PoolSpec. */
module ThreadPools {
  import opened Results
  import opened PoolSpec

  class ThreadPool {
    var queue: seq<TaskId>
    var queueSize: Size
    var maxQueueSize: Size
    var initialNumThreads: Size
    var maxNumThreads: Size
    var numThreads: Size
    var numIdleThreads: Size
    var isRunning: bool
    var mode: ThreadPoolMode
    var threads: map<ThreadId, Worker>
    var nextThreadId: ThreadId

    /** The fields as one value. */
    function State(): PoolState
      reads this
    {
      PoolState(queue, queueSize, maxQueueSize, initialNumThreads, maxNumThreads,
                numThreads, numIdleThreads, isRunning, mode, threads, nextThreadId)
    }

    ghost predicate Valid()
      reads this
    {
      State().Valid()
    }

    /** The private constructor; `hardwareConcurrency` stands for the value
        of `std::thread::hardware_concurrency()`. */
    constructor (hardwareConcurrency: Uint32)
      ensures Valid() && State() == FreshPool(hardwareConcurrency)
    {
      queue := [];
      queueSize := 0;
      maxQueueSize := MAX_NUM_TASKS;
      initialNumThreads := hardwareConcurrency;
      maxNumThreads := MAX_NUM_THREADS;
      numThreads := 0;
      numIdleThreads := 0;
      isRunning := false;
      mode := ModeFixed;
      threads := map[];
      nextThreadId := 0;
    }

    /** Assigns the mode, running or not. */
    method SetMode(m: ThreadPoolMode)
      modifies this
      ensures State() == SetModeStep(old(State()), m)
    {
      mode := m;
    }

    /** Assigns the queue capacity, running or not, even below the current size. */
    method SetTaskQueueThreshold(threshold: Size)
      modifies this
      ensures State() == SetTaskQueueThresholdStep(old(State()), threshold)
    {
      maxQueueSize := threshold;
    }

    /** Assigns the number of workers `start` registers, running or not. */
    method SetInitThreadSize(count: Size)
      modifies this
      ensures State() == SetInitThreadSizeStep(old(State()), count)
    {
      initialNumThreads := count;
    }

    /** Registers one new, not yet started worker under a fresh id and returns
        the id. The thread counters are left alone. */
    method CreateThread() returns (id: ThreadId)
      requires Valid()
      modifies this
      ensures Valid()
      ensures id == old(nextThreadId) && id !in old(threads)
      ensures threads.Keys == old(threads).Keys + {id}
      ensures State() == CreateThreadStep(old(State()))
    {
      id := nextThreadId;
      threads := threads[id := Worker(false)];
      nextThreadId := nextThreadId + 1;
    }

    /** Starts the registered worker `id`. */
    method StartThread(id: ThreadId)
      requires id in threads
      modifies this
      ensures State() == StartThreadStep(old(State()), id)
    {
      threads := threads[id := Worker(true)];
    }

    /** The first loop of `start`: registers `initialNumThreads` new, not yet
        started workers under fresh ids. */
    method RegisterInitialThreads()
      requires Valid()
      modifies this
      ensures Valid()
      ensures nextThreadId == old(nextThreadId) + initialNumThreads
      ensures threads.Keys == old(threads).Keys + IdRange(old(nextThreadId), initialNumThreads)
      ensures forall id :: id in old(threads) ==> threads[id] == old(threads)[id]
      ensures forall id :: old(nextThreadId) <= id < nextThreadId ==> threads[id] == Worker(false)
      ensures State() == old(State()).(threads := threads, nextThreadId := nextThreadId)
    {
      ghost var s0 := State();
      var i: nat := 0;
      while i < initialNumThreads
        invariant i <= initialNumThreads
        invariant Valid()
        invariant nextThreadId == s0.nextThreadId + i
        invariant forall id :: id in threads <==> id in s0.threads || s0.nextThreadId <= id < nextThreadId
        invariant forall id :: id in s0.threads ==> threads[id] == s0.threads[id]
        invariant forall id :: s0.nextThreadId <= id < nextThreadId ==> threads[id] == Worker(false)
        invariant State() == s0.(threads := threads, nextThreadId := nextThreadId)
      {
        threads := threads[nextThreadId := Worker(false)];
        nextThreadId := nextThreadId + 1;
        i := i + 1;
      }
      KeysWithRange(threads.Keys, s0.threads.Keys, s0.nextThreadId, initialNumThreads);
    }

    /** The second loop of `start`: starts every registered worker, including
        those that were started before. */
    method StartAllThreads()
      modifies this
      ensures threads == map id | id in old(threads).Keys :: Worker(true)
      ensures State() == old(State()).(threads := threads)
    {
      ghost var s0 := State();
      var pending := threads.Keys;
      while pending != {}
        invariant pending <= s0.threads.Keys && threads.Keys == s0.threads.Keys
        invariant forall id :: id in threads && id !in pending ==> threads[id] == Worker(true)
        invariant State() == s0.(threads := threads)
        decreases pending
      {
        var id :| id in pending;
        StartThread(id);
        pending := pending - {id};
      }
    }

    /** `start`: registers `initialNumThreads` new workers, then starts every
        worker in the registry. The running flag and the counters are not touched. */
    method Start()
      requires Valid()
      modifies this
      ensures Valid() && State() == StartStep(old(State()))
    {
      RegisterInitialThreads();
      StartAllThreads();
    }

    /** One submission: rejected with `Closed` when not running, with
        `TaskQueueFull` when the counter equals the capacity, with `TimeOut`
        when the wait predicate does not hold; otherwise the task is queued at
        the tail and, in cached mode under pressure, one worker is added. */
    method Submit<T>(task: Task<T>) returns (res: Result<T>)
      requires Valid()
      modifies this
      ensures Valid()
      ensures res == SubmitStep(old(State()), task).result
      ensures State() == SubmitStep(old(State()), task).pool
    {
      res := FromFuture(task.value);
      if !isRunning {
        res := Reject(res, Closed);
        return;
      }
      if queueSize == maxQueueSize {
        res := Reject(res, TaskQueueFull);
        return;
      }
      var hasSpace := queueSize < maxQueueSize;
      if !hasSpace {
        res := Reject(res, TimeOut);
        return;
      }
      queue := queue + [task.id];
      queueSize := queueSize + 1;
      if ScalesUp(State()) {
        var id := CreateThread();
        StartThread(id);
      }
    }
  }

  /** The demonstration's sequence of calls (cached mode, two initial workers,
      `start`, then a submission) on a new pool: the submission is rejected
      with `Closed`, since `start` leaves the pool not running. */
  method SubmitAfterStart(hardwareConcurrency: Uint32, task: Task<int>) returns (res: Result<int>)
    ensures !res.isValid && res.info == Closed
    ensures GetValue(res) == Threw(InvalidResult("info"))
  {
    var pool := new ThreadPool(hardwareConcurrency);
    pool.SetInitThreadSize(2);
    pool.SetMode(ModeCached);
    pool.Start();
    res := pool.Submit(task);
  }
}
