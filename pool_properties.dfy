/** What the pool's transitions guarantee, one call at a time and over any
    sequence of calls. */
module PoolProperties {
  import opened Results
  import opened PoolSpec

  /** The ids of the tasks whose result is valid, in submission order. */
  function AcceptedIds<T>(tasks: seq<Task<T>>, rs: seq<Result<T>>): (ids: seq<TaskId>)
    requires |tasks| == |rs|
    ensures |ids| <= |tasks|
    decreases |tasks|
  {
    if tasks == [] then []
    else (if rs[0].isValid then [tasks[0].id] else []) + AcceptedIds(tasks[1..], rs[1..])
  }

  /** `start` registers exactly `initialNumThreads` workers beside the ones
      already there: the new ids are fresh. */
  lemma StartAddsInitialWorkers(p: PoolState)
    requires p.Valid()
    ensures |StartStep(p).threads| == |p.threads| + p.initialNumThreads
    ensures p.threads.Keys !! IdRange(p.nextThreadId, p.initialNumThreads)
  {
  }

  /** `start` compares nothing with `maxNumThreads`: on a new pool whose
      initial thread count was set to one above the ceiling, `start` alone
      registers more workers than the ceiling allows. */
  lemma StartCanExceedMaxThreads(hardwareConcurrency: Uint32)
    ensures var p := StartStep(SetInitThreadSizeStep(FreshPool(hardwareConcurrency), MAX_NUM_THREADS + 1));
            |p.threads| == MAX_NUM_THREADS + 1 > p.maxNumThreads
  {
    StartAddsInitialWorkers(SetInitThreadSizeStep(FreshPool(hardwareConcurrency), MAX_NUM_THREADS + 1));
  }

  /** Submissions never push the size counter above the capacity, and the
      counter keeps matching the queue. */
  lemma {:induction false} SubmitsKeepBound<T>(p: PoolState, tasks: seq<Task<T>>)
    requires p.Valid() && p.queueSize <= p.maxQueueSize
    ensures SubmitEach(p, tasks).Valid()
    ensures SubmitEach(p, tasks).queueSize <= SubmitEach(p, tasks).maxQueueSize
    decreases |tasks|
  {
    if tasks != [] {
      SubmitsKeepBound(SubmitStep(p, tasks[0]).pool, tasks[1..]);
    }
  }

  /** The queue is FIFO: submissions leave what was queued in place and append
      exactly the accepted tasks, in the order they were submitted. */
  lemma {:induction false} QueueIsFifo<T>(p: PoolState, tasks: seq<Task<T>>)
    ensures SubmitEach(p, tasks).queue == p.queue + AcceptedIds(tasks, ResultsOf(p, tasks))
    ensures SubmitEach(p, tasks).queueSize == p.queueSize + |AcceptedIds(tasks, ResultsOf(p, tasks))|
    decreases |tasks|
  {
    if tasks != [] {
      var s := SubmitStep(p, tasks[0]);
      QueueIsFifo(s.pool, tasks[1..]);
      assert ResultsOf(p, tasks)[1..] == ResultsOf(s.pool, tasks[1..]);
    }
  }

  /** A pool that is not running rejects every submission with `Closed` and
      stays exactly as it was. */
  lemma {:induction false} ClosedPoolIgnoresSubmits<T>(p: PoolState, tasks: seq<Task<T>>)
    requires !p.isRunning
    ensures SubmitEach(p, tasks) == p
    ensures forall i :: 0 <= i < |tasks| ==> ResultsOf(p, tasks)[i] == Result(false, Closed, tasks[i].value)
    decreases |tasks|
  {
    if tasks != [] {
      ClosedPoolIgnoresSubmits(p, tasks[1..]);
      assert ResultsOf(p, tasks)[1..] == ResultsOf(p, tasks[1..]);
    }
  }

  /** In fixed mode no sequence of submissions touches the worker registry. */
  lemma {:induction false} FixedModeKeepsRegistry<T>(p: PoolState, tasks: seq<Task<T>>)
    requires p.mode == ModeFixed
    ensures SubmitEach(p, tasks).threads == p.threads
    decreases |tasks|
  {
    if tasks != [] {
      FixedModeKeepsRegistry(SubmitStep(p, tasks[0]).pool, tasks[1..]);
    }
  }

  /** Each submission adds at most one worker. */
  lemma {:induction false} RegistryGrowsAtMostOncePerSubmit<T>(p: PoolState, tasks: seq<Task<T>>)
    ensures |SubmitEach(p, tasks).threads| <= |p.threads| + |tasks|
    decreases |tasks|
  {
    if tasks != [] {
      var q := SubmitStep(p, tasks[0]).pool;
      if q.threads != p.threads {
        assert q.threads.Keys == p.threads.Keys + {p.nextThreadId};
      }
      RegistryGrowsAtMostOncePerSubmit(q, tasks[1..]);
    }
  }

  /** With the counter-neutral `createThread` of this model (the source only
      declares it), the total counter stays put across submissions, so in
      cached mode with room in the queue every submission adds a worker. */
  lemma {:induction false} CachedModeAddsWorkerPerSubmit<T>(p: PoolState, tasks: seq<Task<T>>)
    requires p.Valid() && p.isRunning && p.mode == ModeCached
    requires p.numIdleThreads <= p.queueSize && p.numThreads < p.maxNumThreads
    requires p.queueSize + |tasks| <= p.maxQueueSize
    ensures |SubmitEach(p, tasks).threads| == |p.threads| + |tasks|
    ensures SubmitEach(p, tasks).numThreads == p.numThreads
    decreases |tasks|
  {
    if tasks != [] {
      var q := SubmitStep(p, tasks[0]).pool;
      assert p.nextThreadId !in p.threads;
      assert q.threads.Keys == p.threads.Keys + {p.nextThreadId};
      CachedModeAddsWorkerPerSubmit(q, tasks[1..]);
    }
  }

  /** No public operation sets the running flag, so a pool that is not running
      never starts running and its queue never changes. */
  lemma {:induction false} NeverRunning<T>(p: PoolState, ops: seq<Op<T>>)
    requires !p.isRunning
    ensures !Run(p, ops).isRunning
    ensures Run(p, ops).queue == p.queue && Run(p, ops).queueSize == p.queueSize
    decreases |ops|
  {
    if ops != [] {
      NeverRunning(Apply(p, ops[0]), ops[1..]);
    }
  }

  /** Hence: whatever setter, `createThread`, `start` and `submit` calls follow
      construction, the next submission is rejected with `Closed` and the queue
      stays empty. */
  lemma ConstructedPoolOnlyCloses<T>(hardwareConcurrency: Uint32, ops: seq<Op<T>>, task: Task<T>)
    ensures Run(FreshPool(hardwareConcurrency), ops).queue == []
    ensures SubmitStep(Run(FreshPool(hardwareConcurrency), ops), task).result.info == Closed
  {
    NeverRunning(FreshPool(hardwareConcurrency), ops);
  }

  /** `TimeOut` needs a size counter above the capacity: a bound that holds
      rules it out, and lowering the capacity under the size on a running
      pool makes the next submission time out. */
  lemma TimeOutNeedsLoweredThreshold<T>(p: PoolState, threshold: Size, task: Task<T>)
    ensures p.queueSize <= p.maxQueueSize ==> SubmitStep(p, task).result.info != TimeOut
    ensures p.isRunning && threshold < p.queueSize ==>
              SubmitStep(Apply<T>(p, SetTaskQueueThreshold(threshold)), task).result.info == TimeOut
  {
  }

  /** Reading a submission's result: an accepted task yields its own value,
      a rejected one throws `InvalidResult("info")`, whatever the reason. */
  lemma SubmitThenGetValue<T>(p: PoolState, task: Task<T>)
    ensures GetValue(SubmitStep(p, task).result) ==
              if p.isRunning && p.queueSize < p.maxQueueSize then Returned(task.value)
              else Threw(InvalidResult("info"))
  {
  }
}
