# ThreadPool: admission and configuration, modelled in Dafny

This project models the sequential core of a C++20 thread pool: a bounded FIFO
task queue with backpressure, the decision procedure `submit` runs on every
submission, the `Result` handle it returns, and the pool's configuration state
(constructor defaults, three setters and `start`).

Layout:

- `result.dfy`, module `Results`: `ResultErrorInfo`, `Result<T>` with its
  validity flag, reason and future value, and `getValue` as the function
  `GetValue`, which returns a value or throws `InvalidResult`.
- `pool_spec.dfy`, module `PoolSpec`: the pool's fields as one value,
  `PoolState`, and the transitions of the constructor (`FreshPool`),
  the three setters, `createThread`, a worker's `start`, `submit`
  (`SubmitStep`) and the pool's `start` (`StartStep`) as functions of that
  value.
  It also folds sequences of submissions (`SubmitEach`, `ResultsOf`) and of
  public operations (`Run`).
- `pool_properties.dfy`, module `PoolProperties`: lemmas over those functions,
  for one call and for any sequence of calls.
- `thread_pool.dfy`, module `ThreadPools`: the class `ThreadPool`. Its fields
  are updated in place by `SetMode`, `SetTaskQueueThreshold`,
  `SetInitThreadSize`, `CreateThread`, `StartThread`, `Start` and `Submit`.
  Each of these methods is proved to leave `State()` equal to the matching
  `PoolSpec` function of the old state. The scale-up step `AddStartedWorker`
  that `SubmitStep` uses is proved equal to `CreateThreadStep` followed by
  `StartThreadStep`, which is what `Submit` calls. The two loops of `start`
  (`RegisterInitialThreads`, `StartAllThreads`) are helper methods whose
  contracts compose to `StartStep`.

Modelling decisions:

- A `submit` is one atomic step. The timed wait is an immediate check of its
  predicate `size < capacity`, because in a sequential world nothing can change
  the state while the wait runs. As a result `TimeOut` happens exactly when the
  size counter is above the capacity, which only lowering the capacity with the
  setter can arrange.
- Tasks are opaque ids. The queue holds only ids, as the source's queue holds
  type-erased tasks. Each `Task<T>` also carries the value its future delivers.
- Sizes and counters are `size_t` and `std::atomic_uint64_t`. They are the
  subset type `Size` (below 2^64), so the increment in `submit` is proved not
  to wrap: it only happens when size < capacity < 2^64.
- Default-constructed `std::atomic` objects are value-initialised in C++20.
  So a new pool has zero idle and total thread counters and is not running.
- `std::thread::hardware_concurrency()` is a parameter of the constructor.
- The worker registry is a map from fresh ids to `Worker(started)`. The id
  generator is the field `nextThreadId`. The source's `createThread` is
  declared but never defined. Here it registers one new, not yet started worker
  under a fresh id, returns that id and leaves the thread counters alone.

Behaviour of the code worth knowing:

- The setters do not check the running flag.
- `start` does not set the running flag and does not touch the thread
  counters. Nothing else sets the flag either. So a constructed pool rejects
  every submission with `Closed` (`ConstructedPoolOnlyCloses`,
  `SubmitAfterStart`).
- `getValue` on an invalid result throws with the literal message `"info"`,
  because the macro stringizes the token `info`. The message does not name the
  recorded reason.
- `start` registers `initialNumThreads` workers without comparing that
  number with `maxNumThreads` and without touching the thread counters. So
  `start` alone can put more workers in the registry than the ceiling of 16
  allows (`StartCanExceedMaxThreads`).
- Whether the counters move when `submit` adds a worker depends only on
  `createThread`, which the source declares and never defines. This model's
  `createThread` leaves the counters alone. As a consequence of that choice,
  and not of any code, the `total < max` guard then does not bound the
  registry: every accepted submission under pressure adds a worker
  (`CachedModeAddsWorkerPerSubmit`).
- There is no dequeue: the worker handler is empty.

## Model

| member | source | states |
|---|---|---|
| Results.FromFuture | include/threadpool.hpp:90-92 | a result built from a future is valid, has reason `Valid` and holds that future |
| Results.Reject | include/threadpool.hpp:155-177 | marking a result rejected clears validity, records the given non-`Valid` reason and keeps the future |
| Results.GetValue | include/threadpool.hpp:94-101 | throws exactly when the result is invalid, with message "info", and otherwise returns the future's value |
| Results.MessageIgnoresReason | include/threadpool.hpp:96-98 | two invalid results throw the same `InvalidResult("info")`, whatever their reasons |
| PoolSpec.FreshPool | src/threadpool.cc:3-7 | a new pool: empty queue, size 0, FIXED mode, capacity MAX_NUM_TASKS (1024), max threads MAX_NUM_THREADS (16), initial threads = hardware concurrency, zero counters, not running, empty registry |
| PoolSpec.SubmitStep | include/threadpool.hpp:147-198 | `Closed` iff not running; `TaskQueueFull` iff running and size == capacity; `TimeOut` iff running and size > capacity; every rejection leaves the pool unchanged; valid iff running and size < capacity, and then the id is appended at the tail and size grows by one without passing capacity; the flag and reason always agree; configuration and counters never change; a new started worker is added exactly when accepted in CACHED mode with idle < new size and total < max, at most one per call, never in FIXED mode; the id generator advances by one exactly when a worker is added |
| PoolSpec.StartStep | src/threadpool.cc:22-31 | registers `initialNumThreads` workers under fresh ids, leaves every earlier worker registered, and afterwards every registered worker is started; queue, size, running flag and counters are unchanged |
| PoolSpec.SetModeStep | src/threadpool.cc:11-13 | the mode becomes the argument and every other field is as before, running or not |
| PoolSpec.SetTaskQueueThresholdStep | src/threadpool.cc:15-17 | the capacity becomes the argument and every other field is as before, with no running check and no comparison with the size |
| PoolSpec.SetInitThreadSizeStep | src/threadpool.cc:19-21 | the initial thread count becomes the argument and every other field is as before |
| PoolSpec.CreateThreadStep | include/threadpool.hpp:130 | one unstarted worker is registered under the generator's next id, which is fresh in a valid pool; every other entry and field is kept and the generator advances by one |
| PoolSpec.StartThreadStep | include/threadpool.hpp:192 | the worker `id` is marked started; every other entry and field is kept |
| PoolSpec.AddStartedWorker | include/threadpool.hpp:191-192 | the scale-up step equals `createThread` followed by starting the id it returned |
| PoolSpec.Apply | src/threadpool.cc:11-31 | no setter, `createThread`, `start` or `submit` changes the running flag, the thread counters or the ceiling; only a submission touches the queue; validity is kept |
| PoolSpec.Run | src/threadpool.cc:11-31 | over any sequence of setter, `createThread`, `start` and `submit` calls the running flag, the thread counters and the ceiling stay as they were, and validity is kept |
| PoolProperties.StartCanExceedMaxThreads | src/threadpool.cc:22-31 | on a new pool with the initial count set to 17, `start` alone registers 17 workers, above the ceiling of 16 |
| PoolProperties.StartAddsInitialWorkers | src/threadpool.cc:23-27 | the registry grows by exactly `initialNumThreads` entries, none of which was registered before |
| PoolProperties.SubmitsKeepBound | include/threadpool.hpp:169-181 | from a state with size == queue length <= capacity, any sequence of submissions keeps size == queue length <= capacity |
| PoolProperties.QueueIsFifo | include/threadpool.hpp:180-181 | after any sequence of submissions the queue is the old queue followed by exactly the accepted task ids in submission order, and size grew by their number |
| PoolProperties.ClosedPoolIgnoresSubmits | include/threadpool.hpp:153-158 | on a pool that is not running every submission returns invalid/`Closed`, even with a full queue, and the pool stays exactly the same |
| PoolProperties.FixedModeKeepsRegistry | include/threadpool.hpp:187-193 | in FIXED mode no sequence of submissions changes the registry |
| PoolProperties.RegistryGrowsAtMostOncePerSubmit | include/threadpool.hpp:187-193 | n submissions add at most n workers |
| PoolProperties.CachedModeAddsWorkerPerSubmit | include/threadpool.hpp:187-193 | with the counter-neutral `createThread` of this model, in CACHED mode with idle <= size, total < max and room for every task, each submission adds a worker and the total counter stays put |
| PoolProperties.NeverRunning | src/threadpool.cc:11-31 | no sequence of setter, `createThread`, `start` and `submit` calls turns on the running flag or changes the queue of a pool that is not running |
| PoolProperties.ConstructedPoolOnlyCloses | src/threadpool.cc:3-31 | after construction and any setter, `createThread`, `start` and `submit` calls, the queue is empty and the next submission is rejected with `Closed` |
| PoolProperties.TimeOutNeedsLoweredThreshold | include/threadpool.hpp:169-178 | no `TimeOut` while size <= capacity; on a running pool, setting the capacity below the size makes the next submission time out |
| PoolProperties.SubmitThenGetValue | include/threadpool.hpp:149-196 | reading a submission's result yields the task's own value when it was accepted, and otherwise throws `InvalidResult("info")` |
| ThreadPools.ThreadPool.constructor | src/threadpool.cc:3-7 | the new object's state is `FreshPool` of the hardware concurrency, and it satisfies the invariant |
| ThreadPools.ThreadPool.SetMode | src/threadpool.cc:11-13 | the new state is `SetModeStep` of the old one: only the mode changes, running or not |
| ThreadPools.ThreadPool.SetTaskQueueThreshold | src/threadpool.cc:15-17 | the new state is `SetTaskQueueThresholdStep` of the old one: only the capacity changes |
| ThreadPools.ThreadPool.SetInitThreadSize | src/threadpool.cc:19-21 | the new state is `SetInitThreadSizeStep` of the old one: only the initial thread count changes |
| ThreadPools.ThreadPool.CreateThread | include/threadpool.hpp:130 | returns the id that was fresh before the call, and the new state is `CreateThreadStep` of the old one |
| ThreadPools.ThreadPool.StartThread | include/threadpool.hpp:192 | the new state is `StartThreadStep` of the old one for the registered worker `id` |
| ThreadPools.ThreadPool.RegisterInitialThreads | src/threadpool.cc:23-27 | the first loop of `start` adds `initialNumThreads` unstarted workers under fresh consecutive ids, keeps every earlier entry as it was and changes nothing else |
| ThreadPools.ThreadPool.StartAllThreads | src/threadpool.cc:28-30 | the second loop starts every registered worker, already started ones included, and changes nothing else |
| ThreadPools.ThreadPool.Start | src/threadpool.cc:22-31 | the new state is `StartStep` of the old one |
| ThreadPools.ThreadPool.Submit | include/threadpool.hpp:147-198 | the returned result and the new state are those given by `SubmitStep` on the old state |
| ThreadPools.SubmitAfterStart | tests/test.cc:25-37 | the demonstration's calls on a new pool (two initial threads, CACHED, start, submit) give an invalid `Closed` result whose `getValue` throws `InvalidResult("info")` |

## Left out

- Threads and synchronisation: `std::jthread`, stop tokens, the mutex, both condition variables, `notify_all` and the real timeout of the wait. They exist only for concurrency, so a submission is one atomic step.
- The race between the unlocked fast-path read of the size counter and the locked wait. It has no sequential meaning.
- The singleton accessor using `std::call_once`. It is a thread-safe lazy-initialisation primitive; the model constructs the pool directly.
- Futures and task internals: `std::packaged_task`, `std::future`, `std::bind` and `Task::run`. A task is an id plus the value its future delivers, and the compile-time `static_assert` is dropped.
- The convenience `submit(func, args...)` overload (include/threadpool.hpp:200-207). It only builds a `Task` from the callable and forwards to `Submit`.
- The `Thread` class: its `start`, `stop`, `getId` and id generator are undefined, and its constructor does not match its declaration. Starting a worker is modelled only as setting its `started` flag.
- The worker handler `threadHandler`. Its body is empty, so there is no dispatch or dequeue to model.
- Declared but undefined members: `setNumThreadThreahold`, `setTaskExpireSeconds`, `setThreadExpireSeconds`, `isPoolRunning`, and the unused expiry fields. The empty destructor is left out too.
- Console logging. It is I/O.
- The stray `main` in src/threadpool.cc and the `emplace_back` on an `unordered_map` in `start`. They do not compile; registration is modelled as insertion under a fresh id.
- ThreadPools.ThreadPool.RegisterInitialThreads: the source's loop counter is an `int`, so an initial thread count above 2^31 - 1 overflows it, which is undefined behaviour. The model counts with an unbounded `nat`.
- The worker-id generator does not wrap around: it is an unbounded `nat`.
- Results.GetValue: the source's `getValue` blocks in `m_f.get()` until the task has run. The worker handler is empty and never runs a queued task, so for an accepted task that call would never return. `GetValue` returns the future's value at once instead.
- Results.GetValue: `std::future::get` may be called only once per result. The model is a pure function and does not track whether the future was already read.
- ThreadPools.ThreadPool.Submit: the source's `submit` calls `task.getFuture()` first, which throws `std::future_error` if that task's future was already retrieved. The model's `Task` has no "future retrieved" state, so this exception is not modelled.
