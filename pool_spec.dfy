/** The thread pool's state as a value, and the state transitions of its
    constructor, `submit` and `start` as functions of that value. */
module PoolSpec {
  import opened Results

  /** `size_t` and `std::atomic_uint64_t`: unsigned 64-bit. */
  const SIZE_LIMIT: nat := 0x1_0000_0000_0000_0000
  type Size = n: nat | n < SIZE_LIMIT

  /** `unsigned int`, the type `std::thread::hardware_concurrency()` returns. */
  type Uint32 = n: nat | n < 0x1_0000_0000

  /** Default capacity of the task queue and default ceiling on workers. */
  const MAX_NUM_TASKS: Size := 1024
  const MAX_NUM_THREADS: Size := 16

  datatype ThreadPoolMode = ModeFixed | ModeCached

  /** The queue stores type-erased tasks; the model keeps only an identity. */
  type TaskId = nat
  type ThreadId = nat

  /** A submitted task: its identity and the value its future will deliver. */
  datatype Task<T> = Task(id: TaskId, value: T)

  /** A registered worker; `started` once its `start` has been called. */
  datatype Worker = Worker(started: bool)

  /** The fields of the pool. `nextThreadId` is the worker-id generator. */
  datatype PoolState = PoolState(
    queue: seq<TaskId>,
    queueSize: Size,
    maxQueueSize: Size,
    initialNumThreads: Size,
    maxNumThreads: Size,
    numThreads: Size,
    numIdleThreads: Size,
    isRunning: bool,
    mode: ThreadPoolMode,
    threads: map<ThreadId, Worker>,
    nextThreadId: ThreadId)
  {
    /** The size counter matches the queue, and every registered id was
        handed out by the generator, so the generator's next id is fresh. */
    ghost predicate Valid()
    {
      && queueSize == |queue|
      && forall id :: id in threads ==> id < nextThreadId
    }
  }

  /** The pool as its constructor leaves it. The thread counters and the
      running flag are default-initialised atomics, hence zero and false. */
  function FreshPool(hardwareConcurrency: Uint32): (p: PoolState)
    ensures p.Valid()
    ensures p.queue == [] && p.queueSize == 0 && p.mode == ModeFixed
    ensures p.maxQueueSize == MAX_NUM_TASKS && p.maxNumThreads == MAX_NUM_THREADS
    ensures p.initialNumThreads == hardwareConcurrency
    ensures p.numThreads == 0 && p.numIdleThreads == 0 && !p.isRunning
    ensures p.threads == map[]
  {
    PoolState([], 0, MAX_NUM_TASKS, hardwareConcurrency, MAX_NUM_THREADS, 0, 0,
              false, ModeFixed, map[], 0)
  }

  /** What one `submit` returns together with the pool it leaves behind. */
  datatype Submission<T> = Submission(result: Result<T>, pool: PoolState)

  /** The scale-up guard, evaluated on the counter after the enqueue. */
  predicate ScalesUp(p: PoolState)
  {
    p.mode == ModeCached && p.numIdleThreads < p.queueSize && p.numThreads < p.maxNumThreads
  }

  /** `setMode`: assigns the mode and nothing else, whether running or not. */
  function SetModeStep(p: PoolState, m: ThreadPoolMode): (r: PoolState)
    ensures r.mode == m && r.(mode := p.mode) == p
  {
    p.(mode := m)
  }

  /** `setTaskQueueThreahold`: assigns the capacity and nothing else, with no
      running check and no comparison with the current size. */
  function SetTaskQueueThresholdStep(p: PoolState, threshold: Size): (r: PoolState)
    ensures r.maxQueueSize == threshold && r.(maxQueueSize := p.maxQueueSize) == p
  {
    p.(maxQueueSize := threshold)
  }

  /** `setInitThreadSize`: assigns the initial thread count and nothing else. */
  function SetInitThreadSizeStep(p: PoolState, count: Size): (r: PoolState)
    ensures r.initialNumThreads == count && r.(initialNumThreads := p.initialNumThreads) == p
  {
    p.(initialNumThreads := count)
  }

  /** `createThread` (declared, never defined): registers one not yet started
      worker under the generator's next id and advances the generator. */
  function CreateThreadStep(p: PoolState): (r: PoolState)
    ensures p.Valid() ==> r.Valid() && p.nextThreadId !in p.threads
    ensures r.threads.Keys == p.threads.Keys + {p.nextThreadId}
    ensures r.threads[p.nextThreadId] == Worker(false)
    ensures forall id :: id in p.threads && id != p.nextThreadId ==> r.threads[id] == p.threads[id]
    ensures r.nextThreadId == p.nextThreadId + 1
    ensures r.(threads := p.threads, nextThreadId := p.nextThreadId) == p
  {
    p.(threads := p.threads[p.nextThreadId := Worker(false)], nextThreadId := p.nextThreadId + 1)
  }

  /** A worker's `start`: marks the worker `id` started and nothing else. */
  function StartThreadStep(p: PoolState, id: ThreadId): (r: PoolState)
    ensures r.threads.Keys == p.threads.Keys + {id} && r.threads[id].started
    ensures forall other :: other in p.threads && other != id ==> r.threads[other] == p.threads[other]
    ensures r.(threads := p.threads) == p
  {
    p.(threads := p.threads[id := Worker(true)])
  }

  /** Scale-up in `submit`: `createThread` followed by starting the new worker. */
  function AddStartedWorker(p: PoolState): (r: PoolState)
    ensures r == StartThreadStep(CreateThreadStep(p), p.nextThreadId)
  {
    p.(threads := p.threads[p.nextThreadId := Worker(true)], nextThreadId := p.nextThreadId + 1)
  }

  /** One `submit`, as an atomic step: the timed wait is its predicate
      evaluated once, since nothing else can change the state meanwhile. */
  function SubmitStep<T>(p: PoolState, task: Task<T>): (s: Submission<T>)
    ensures Consistent(s.result) && s.result.future == task.value
    // the three rejections, in the order they are checked
    ensures s.result.info == Closed <==> !p.isRunning
    ensures s.result.info == TaskQueueFull <==> p.isRunning && p.queueSize == p.maxQueueSize
    ensures s.result.info == TimeOut <==> p.isRunning && p.queueSize > p.maxQueueSize
    ensures s.result.info != InvalidFuture
    // acceptance and what it does to the queue
    ensures s.result.isValid <==> p.isRunning && p.queueSize < p.maxQueueSize
    ensures !s.result.isValid ==> s.pool == p
    ensures s.result.isValid ==>
              && s.pool.queue == p.queue + [task.id]
              && s.pool.queueSize == p.queueSize + 1 <= p.maxQueueSize
    ensures p.Valid() ==> s.pool.Valid()
    // configuration and counters never change
    ensures s.pool.(queue := p.queue, queueSize := p.queueSize,
                    threads := p.threads, nextThreadId := p.nextThreadId) == p
    // scale-up: at most one new, started worker, and only when accepted in cached
    // mode with fewer idle workers than queued tasks and room below the ceiling
    ensures s.pool.threads.Keys <= p.threads.Keys + {p.nextThreadId}
    // (`ScalesUp(s.pool)` reads only fields that equal those after the enqueue)
    ensures s.pool.threads ==
              if s.result.isValid && ScalesUp(s.pool)
              then p.threads[p.nextThreadId := Worker(true)]
              else p.threads
    ensures s.result.isValid ==>
              (ScalesUp(s.pool) <==>
                 p.mode == ModeCached && p.numIdleThreads < p.queueSize + 1
                 && p.numThreads < p.maxNumThreads)
    ensures p.Valid() ==> (s.pool.threads != p.threads <==> s.result.isValid && ScalesUp(s.pool))
    ensures s.pool.nextThreadId ==
              if s.result.isValid && ScalesUp(s.pool) then p.nextThreadId + 1 else p.nextThreadId
    ensures p.mode == ModeFixed ==> s.pool.threads == p.threads
  {
    var res := FromFuture(task.value);
    if !p.isRunning then
      Submission(Reject(res, Closed), p)
    else if p.queueSize == p.maxQueueSize then
      Submission(Reject(res, TaskQueueFull), p)
    else if !(p.queueSize < p.maxQueueSize) then
      Submission(Reject(res, TimeOut), p)
    else
      var q := p.(queue := p.queue + [task.id], queueSize := p.queueSize + 1);
      Submission(res, if ScalesUp(q) then AddStartedWorker(q) else q)
  }

  /** The ids `from`, `from + 1`, ..., `from + count - 1`. */
  function IdRange(from: ThreadId, count: nat): (ids: set<ThreadId>)
    ensures forall id :: id in ids <==> from <= id < from + count
    ensures |ids| == count
    decreases count
  {
    if count == 0 then {} else IdRange(from, count - 1) + {from + count - 1}
  }

  /** A set described by membership is the union with an id range. */
  lemma KeysWithRange(ids: set<ThreadId>, before: set<ThreadId>, from: ThreadId, count: nat)
    requires forall id :: id in ids <==> id in before || from <= id < from + count
    ensures ids == before + IdRange(from, count)
  {
  }

  /** `start`: registers `initialNumThreads` new workers under fresh ids, then
      starts every registered worker, old and new. Nothing else changes. */
  function StartStep(p: PoolState): (r: PoolState)
    ensures p.Valid() ==> r.Valid()
    ensures r.(threads := p.threads, nextThreadId := p.nextThreadId) == p
    ensures r.nextThreadId == p.nextThreadId + p.initialNumThreads
    ensures r.threads.Keys == p.threads.Keys + IdRange(p.nextThreadId, p.initialNumThreads)
    ensures forall id :: id in r.threads ==> r.threads[id].started
  {
    var ids := p.threads.Keys + IdRange(p.nextThreadId, p.initialNumThreads);
    p.(threads := map id | id in ids :: Worker(true),
       nextThreadId := p.nextThreadId + p.initialNumThreads)
  }

  /** The pool after the submissions `tasks`, one after another. */
  function SubmitEach<T>(p: PoolState, tasks: seq<Task<T>>): (r: PoolState)
    decreases |tasks|
  {
    if tasks == [] then p else SubmitEach(SubmitStep(p, tasks[0]).pool, tasks[1..])
  }

  /** The results of the submissions `tasks`, in order. */
  function ResultsOf<T>(p: PoolState, tasks: seq<Task<T>>): (rs: seq<Result<T>>)
    ensures |rs| == |tasks|
    decreases |tasks|
  {
    if tasks == [] then []
    else [SubmitStep(p, tasks[0]).result] + ResultsOf(SubmitStep(p, tasks[0]).pool, tasks[1..])
  }

  /** The public operations of the pool after construction. */
  datatype Op<T> =
    | SetMode(mode: ThreadPoolMode)
    | SetTaskQueueThreshold(threshold: Size)
    | SetInitThreadSize(count: Size)
    | CreateThread
    | Start
    | Submit(task: Task<T>)

  /** One public operation. No operation writes the running flag, the thread
      counters or the thread ceiling, and only a submission touches the queue. */
  function Apply<T>(p: PoolState, op: Op<T>): (r: PoolState)
    ensures r.isRunning == p.isRunning && r.maxNumThreads == p.maxNumThreads
    ensures r.numThreads == p.numThreads && r.numIdleThreads == p.numIdleThreads
    ensures !op.Submit? ==> r.queue == p.queue && r.queueSize == p.queueSize
    ensures p.Valid() ==> r.Valid()
  {
    match op
    case SetMode(m) => SetModeStep(p, m)
    case SetTaskQueueThreshold(n) => SetTaskQueueThresholdStep(p, n)
    case SetInitThreadSize(n) => SetInitThreadSizeStep(p, n)
    case CreateThread => CreateThreadStep(p)
    case Start => StartStep(p)
    case Submit(t) => SubmitStep(p, t).pool
  }

  /** The pool after the operations `ops`, one after another: the running
      flag, the thread counters and the ceiling are those of the start, and
      validity is kept. */
  function Run<T>(p: PoolState, ops: seq<Op<T>>): (r: PoolState)
    ensures r.isRunning == p.isRunning && r.maxNumThreads == p.maxNumThreads
    ensures r.numThreads == p.numThreads && r.numIdleThreads == p.numIdleThreads
    ensures p.Valid() ==> r.Valid()
    decreases |ops|
  {
    if ops == [] then p else Run(Apply(p, ops[0]), ops[1..])
  }
}
