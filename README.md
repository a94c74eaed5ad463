# task-queue: the task-lifecycle service in Dafny

This project models the core of the task-queue service: `TaskQueueService`,
which accepts uniquely identified tasks, hands them to a fixed pool of worker
threads, directly or through a FIFO queue, lets callers stop a task at any point of its life
and look up or wait for its status, and `TaskRecord`, the per-task record that
holds the id, the duration in seconds, the status, a completion latch of count
one and the handle of the executor's future.

The service is modelled as a sequential state machine. Every public operation
(`submitTask`, `checkStatus`, `stopTask`, `awaitCompletion`) and every step of
a worker thread (begin its first task or take the head of the queue, sleep one
second, end the loop) is
one atomic transition of a `TaskQueueService` object. Any interleaving of
these transitions is a possible run, so the races between a stop and a worker
at the granularity of these steps are reachable in the model; races inside one
step are not (see "Left out").

Files:

- `wrappers.dfy` (module `Wrappers`): the `Option` type.
- `strings.dfy` (module `Strings`): `String.contains` as a search for an
  occurrence, with its meaning stated as an existential.
- `task_record.dfy` (module `Model`): `TaskStatus`, the lifecycle edges, the
  latch countdown, and the class `TaskRecord<F>` (generic in the future type so
  that it does not depend on the service).
- `task_queue_service.dfy` (module `Service`): `TaskRunnable` and its
  `toString`, the text of the adapter that `ExecutorService.submit` wraps
  around it, the executor's `FutureTask` with that text and the interrupt flag
  of the thread that runs it, worker threads, the queue filter used by
  `stopTask`, and the class `TaskQueueService` with its invariant `Valid()`.
- `scenarios.dfy` (module `Scenarios`): client runs that drive a service
  through concrete call sequences, including the ones that show the quirks
  below.

The invariant `Valid()` holds between transitions and every transition keeps it:

- every registered record sits under its own id and is QUEUED or RUNNING;
- every record owns exactly one future, whose runnable points back at it;
- a record's latch is open exactly when its status is DONE or STOPPED;
- pending futures are distinct, and their records are QUEUED or STOPPED;
- at most `workerCount` threads exist;
- a thread holds a future that is not pending and that no other thread
  holds; a first task not yet begun belongs to a QUEUED or STOPPED record, a
  running one to a RUNNING or STOPPED record.

Because, with atomic steps, a registered record is always QUEUED or RUNNING,
the final `return false` of `stopTask` (TaskQueueService.java:96) cannot be
reached; the model proves this instead of modelling that branch. It also follows that
`checkStatus` never reports STOPPED: a stopped record has already left the
registry, so its id reports DONE.

Behaviour kept as the code has it:

- The executor is a `ThreadPoolExecutor` whose core and maximum size are both
  `workerCount`, with no thread started in advance (TaskQueueService.java:26-31).
  While fewer than `workerCount` threads exist, `submit` creates a new thread
  with the future as its first task, and the future never enters the queue;
  only once the pool is full are futures queued. A first task is outside the
  queue that `stopTask` searches, so even a removal that works cannot drop it.
  Its thread later finds the record STOPPED, fires the latch again and removes
  the id by key (lines 121-123). If the id was submitted again in between, that
  removal evicts the new record (`Scenarios.StopBeforeStartEvictsResubmit`).

- Removal from the registry is by key, not by record (TaskQueueService.java:81,
  92, 123 and 139). When a task is stopped while it runs, the id is free at
  once and may be submitted again; when the old worker then exits, it removes
  the new record's key. `Scenarios.ResubmitIsEvicted` shows `checkStatus`
  reporting DONE for a task that is still QUEUED.
- `stopTask` removes pending futures whose callable's text contains the
  stopped id (TaskQueueService.java:72). `submit` wraps the runnable in the
  JDK's `Executors.RunnableAdapter`, so that text is
  `java.util.concurrent.Executors$RunnableAdapter@<hash>[Wrapped task = TaskRunnable:<id>]`,
  where `<hash>` is the adapter's identity hash in hexadecimal and
  `TaskRunnable:<id>` is the runnable's own `toString` (lines 114-116). The
  hash is a runtime value, so each future carries it as given at submission.
  Stopping `t1` drops the pending future of `t10`, whose record stays
  registered and QUEUED with nothing left to run it (`Service.SiblingDropped`,
  `Scenarios.PrefixStopStrandsSibling`). An id that occurs in the fixed part
  of the text, such as `java`, `Task`, `Runnable` or the empty id, drops every
  pending future (`Service.FixedTextIdEmptiesQueue`,
  `Scenarios.AdapterNameStrandsAll`), and an id that occurs in some future's
  hash drops that future (`Service.HashIdMatches`).
- The removal reads the future's private `callable` field by reflection and
  answers false when that fails (TaskQueueService.java:69-75). The model takes
  the outcome as a parameter `reflective`: either the filtered queue, or the
  queue unchanged. Either way the record is set STOPPED, so a worker that later
  takes a leftover future drops it without running it
  (`Scenarios.StopWhileQueued`).
- A stop of a RUNNING task sets STOPPED and fires the latch itself, and the
  worker does the same again when it sees the interrupt. The second countdown
  leaves the latch open and the second removal is by key (see above).
- A stop that lands after the last sleep sets STOPPED and fires the latch;
  the worker's loop then ends normally and overwrites the status with DONE
  (TaskQueueService.java:130-133, `Scenarios.LateStopOverwritten`). A waiter
  released by the stop may therefore read STOPPED or DONE, depending on when
  it reads.
- A negative duration runs no sleep and ends DONE.
- `submitTask` accepts the empty id; only a null id is refused, and Dafny
  strings cannot be null.

## Model

| member | source | states |
|---|---|---|
| Strings.Contains | src/main/java/com/example/task/queue/service/TaskQueueService.java:72 | `String.contains`: true exactly when the searched text occurs at some position of the string |
| Model.CountedDown | src/main/java/com/example/task/queue/model/TaskRecord.java:10 | a countdown lowers a positive count and never goes below zero; the latch of count one is open after it exactly when the count was at most one |
| Model.TaskRecord.constructor | src/main/java/com/example/task/queue/model/TaskRecord.java:8-17 | a new record keeps the given id and duration (both immutable), is QUEUED, has a closed latch of count one and no future |
| Model.TaskRecord.SetStatus | src/main/java/com/example/task/queue/model/TaskRecord.java:21-22 | the status read afterwards is the one set; latch and future are unchanged |
| Model.TaskRecord.CountDown | src/main/java/com/example/task/queue/model/TaskRecord.java:10 | the first countdown opens the latch of count one; further countdowns leave it open; status and future are unchanged |
| Model.TaskRecord.SetFuture | src/main/java/com/example/task/queue/model/TaskRecord.java:24-25 | the future read afterwards is the one set; status and latch are unchanged |
| Service.FutureTask.Cancel | src/main/java/com/example/task/queue/service/TaskQueueService.java:88 | `cancel(true)` leaves the interrupt of the thread running the future pending |
| Service.TaskRunnable.ToString | src/main/java/com/example/task/queue/service/TaskQueueService.java:114-116 | the runnable's text contains its record's id |
| Service.AdapterText | src/main/java/com/example/task/queue/service/TaskQueueService.java:47 | the text of the adapter that `submit` wraps around a runnable contains the runnable's own text |
| Service.FutureTask.constructor | src/main/java/com/example/task/queue/service/TaskQueueService.java:47 | a new future holds the given runnable and hash and is not interrupted; its text is by definition the adapter's text around that runnable |
| Service.Matches | src/main/java/com/example/task/queue/service/TaskQueueService.java:66-77 | the removal predicate holds for a future exactly when the stopped id occurs at some position of the future's adapter text |
| Service.PartsMatch | src/main/java/com/example/task/queue/service/TaskQueueService.java:72 | an id occurring in any part of a future's text (class name, hash, label or the runnable's text) matches the future |
| Service.OwnIdMatches | src/main/java/com/example/task/queue/service/TaskQueueService.java:72 | the text of a future contains its own record's id, so its own stop always matches it |
| Service.EmbeddedIdMatches | src/main/java/com/example/task/queue/service/TaskQueueService.java:72 | an id occurring inside a record's id matches that record's future: stopping `t1` matches `t10` |
| Service.HashIdMatches | src/main/java/com/example/task/queue/service/TaskQueueService.java:72 | an id occurring in the identity hash of a future's adapter matches that future |
| Service.FixedTextIdMatchesAll | src/main/java/com/example/task/queue/service/TaskQueueService.java:72 | an id occurring in the adapter's class name, in its `[Wrapped task = ` label or in `TaskRunnable:` matches every future |
| Service.JavaMatchesAll | src/main/java/com/example/task/queue/service/TaskQueueService.java:72 | the id `java` matches every future |
| Service.Unmatched | src/main/java/com/example/task/queue/service/TaskQueueService.java:65-78 | the queue after `removeIf` with the substring predicate is no longer than before |
| Service.UnmatchedMembers | src/main/java/com/example/task/queue/service/TaskQueueService.java:65-78 | a future is left after the filter exactly when it was pending and its text does not contain the id |
| Service.UnmatchedAppend | src/main/java/com/example/task/queue/service/TaskQueueService.java:65-78 | the filter distributes over concatenation, so the futures left keep their relative order |
| Service.UnmatchedDistinct | src/main/java/com/example/task/queue/service/TaskQueueService.java:65-78 | filtering a queue without repeats leaves one without repeats |
| Service.UnmatchedShorter | src/main/java/com/example/task/queue/service/TaskQueueService.java:65-78 | the filter shortens the queue exactly when some pending future matches, which is what `removeIf` reports |
| Service.OwnFutureDropped | src/main/java/com/example/task/queue/service/TaskQueueService.java:65-78 | a removal that works always drops the stopped record's own pending future |
| Service.SiblingDropped | src/main/java/com/example/task/queue/service/TaskQueueService.java:65-78 | a removal that works also drops the pending future of every record whose id contains the stopped id |
| Service.AllMatchEmpties | src/main/java/com/example/task/queue/service/TaskQueueService.java:65-78 | when every pending future matches, a removal that works leaves the queue empty |
| Service.FixedTextIdEmptiesQueue | src/main/java/com/example/task/queue/service/TaskQueueService.java:65-78 | stopping an id that occurs in the fixed part of every future's text leaves any queue empty |
| Service.EmbeddedIdEmptiesQueue | src/main/java/com/example/task/queue/service/TaskQueueService.java:65-78 | stopping an id found inside the id of every pending record leaves the queue empty |
| Service.JavaEmptiesQueue | src/main/java/com/example/task/queue/service/TaskQueueService.java:65-78 | stopping `java` leaves any queue empty |
| Service.RemoveIf | src/main/java/com/example/task/queue/service/TaskQueueService.java:65-78 | the loop over the queue keeps exactly the filtered queue (or the whole queue when reflection fails) and reports whether some pending future matched |
| Service.TaskQueueService.constructor | src/main/java/com/example/task/queue/service/TaskQueueService.java:24-32 | a new service may create `workerCount` threads and has created none; its registry and queue are empty, and it satisfies the invariant |
| Service.TaskQueueService.SubmitTask | src/main/java/com/example/task/queue/service/TaskQueueService.java:39-50 | a registered id is refused with nothing changed; a new id gets a fresh QUEUED record with a closed latch and the given duration, and exactly its future, with the given hash, goes to a new thread while the pool is not full and to the tail of the queue once it is; the invariant is kept |
| Service.TaskQueueService.Register | src/main/java/com/example/task/queue/service/TaskQueueService.java:43-44 | putting a new QUEUED record under its id keeps the invariant |
| Service.TaskQueueService.Execute | src/main/java/com/example/task/queue/service/TaskQueueService.java:47 | with core and maximum pool size `workerCount`, a future becomes the first task of a new thread while fewer than `workerCount` threads exist and leaves the queue alone; otherwise it joins the tail of the queue and no thread is created; the invariant is kept |
| Service.TaskQueueService.CheckStatus | src/main/java/com/example/task/queue/service/TaskQueueService.java:52-56 | an unknown id reports DONE; a registered id reports its record's status, which is QUEUED or RUNNING; STOPPED is never reported |
| Service.TaskQueueService.AwaitCompletion | src/main/java/com/example/task/queue/service/TaskQueueService.java:99-104 | no record exactly for an unknown id; otherwise the record registered under the id, whose latch has not opened yet |
| Service.TaskQueueService.StatusAfterAwait | src/main/java/com/example/task/queue/service/TaskQueueService.java:102-103 | once a record's latch has opened, its status is DONE or STOPPED |
| Service.TaskQueueService.Complete | src/main/java/com/example/task/queue/service/TaskQueueService.java:133-140 | every exit path sets a terminal status, opens the latch and removes the key, keeping the invariant |
| Service.TaskQueueService.StopQueued | src/main/java/com/example/task/queue/service/TaskQueueService.java:63-83 | a QUEUED record becomes STOPPED with its latch open and its key removed; the queue is filtered or unchanged |
| Service.TaskQueueService.StopRunning | src/main/java/com/example/task/queue/service/TaskQueueService.java:85-94 | a RUNNING record's worker gets a pending interrupt; the record becomes STOPPED with its latch open and its key removed |
| Service.TaskQueueService.StopTask | src/main/java/com/example/task/queue/service/TaskQueueService.java:58-97 | true exactly for a registered id; an unknown id changes nothing; a stopped record moves along a lifecycle edge to STOPPED, opens its latch and loses its key; the queue is filtered only for a QUEUED record whose removal works; the worker is interrupted only for a RUNNING record; the invariant is kept |
| Service.TaskQueueService.Take | src/main/java/com/example/task/queue/service/TaskQueueService.java:26-31 | the executor takes the head of its FIFO queue; that future is pending nowhere else and no thread holds it |
| Service.TaskQueueService.Discard | src/main/java/com/example/task/queue/service/TaskQueueService.java:121-124 | a record found STOPPED when a worker reaches it gets its latch opened and its key removed, and is never set RUNNING |
| Service.TaskQueueService.Begin | src/main/java/com/example/task/queue/service/TaskQueueService.java:127 | a record found QUEUED becomes RUNNING on the worker that took it |
| Service.TaskQueueService.WorkerStart | src/main/java/com/example/task/queue/service/TaskQueueService.java:119-127 | a new thread begins its first task, an idle thread takes the head of a non-empty queue; a STOPPED record stays STOPPED, its latch opens, its key goes and the thread is idle; a QUEUED record moves to RUNNING and the thread becomes busy; a busy thread, or an idle one with nothing queued, changes nothing, and the frame is exactly the record it would take |
| Service.TaskQueueService.TakeFirst | src/main/java/com/example/task/queue/service/TaskQueueService.java:119 | a new thread picks up the task it was created for: the thread is then idle, and the future is pending in no queue and held by no thread; its record is QUEUED, or STOPPED if a stop came first |
| Service.TaskQueueService.WorkerTick | src/main/java/com/example/task/queue/service/TaskQueueService.java:130-136 | one sleep while sleeps remain: with an interrupt pending the record ends STOPPED with its latch open and key removed and the worker is idle; otherwise only the sleep count grows; the record's future is never changed, and with no sleep left nothing changes |
| Service.TaskQueueService.WorkerFinish | src/main/java/com/example/task/queue/service/TaskQueueService.java:133-140 | once all sleeps are done the record becomes DONE, its latch opens, its key goes and the worker is idle; the record's future is never changed, and with sleeps left nothing changes |
| Service.TaskQueueService.Run | src/main/java/com/example/task/queue/service/TaskQueueService.java:119-141 | a run left to itself completes exactly the remaining sleeps and ends DONE, or, when an interrupt was pending with sleeps left, completes none and ends STOPPED; either way the latch opens, the key goes, the worker is idle and the record keeps its future |
| Scenarios.SubmitRunAwait | src/main/java/com/example/task/queue/service/TaskQueueService.java:39-141 | a two-second task is seen QUEUED, then RUNNING, then DONE after two sleeps, and a waiter on its record reads DONE |
| Scenarios.DuplicateRejected | src/main/java/com/example/task/queue/service/TaskQueueService.java:41 | a second submission of a live id is refused; the first record keeps its status and duration, its future went to the pool's one new thread and nothing is queued |
| Scenarios.StopWhileQueued | src/main/java/com/example/task/queue/service/TaskQueueService.java:119-124 | a task stopped before the thread created for it begins it is STOPPED, is not dropped even by a removal that works, and is dropped by that thread, which stays idle |
| Scenarios.StopWhileQueuedRemoved | src/main/java/com/example/task/queue/service/TaskQueueService.java:63-83 | a task waiting in the queue of a full pool, stopped with the removal working, leaves the queue empty |
| Scenarios.StopWhileRunning | src/main/java/com/example/task/queue/service/TaskQueueService.java:85-94 | a ten-second task stopped after one sleep ends STOPPED at its next sleep, and its id reports DONE from the stop on |
| Scenarios.LateStopOverwritten | src/main/java/com/example/task/queue/service/TaskQueueService.java:130-133 | a stop after the last sleep is seen as STOPPED and then overwritten with DONE |
| Scenarios.UnknownIdReportsDone | src/main/java/com/example/task/queue/service/TaskQueueService.java:53-54 | an id never submitted reports DONE |
| Scenarios.PrefixStopStrandsSibling | src/main/java/com/example/task/queue/service/TaskQueueService.java:72 | with `t1` on the pool's one thread and `t10` queued, stopping `t1` empties the queue, and `t10` stays QUEUED |
| Scenarios.AdapterNameStrandsAll | src/main/java/com/example/task/queue/service/TaskQueueService.java:72 | with `java` on the pool's one thread and `t1` queued, stopping `java` empties the queue, and `t1` stays QUEUED |
| Scenarios.ResubmitIsEvicted | src/main/java/com/example/task/queue/service/TaskQueueService.java:139 | a stopped task's worker exit removes the key of a record resubmitted under the same id, which then reports DONE while still QUEUED |
| Scenarios.StopBeforeStartEvictsResubmit | src/main/java/com/example/task/queue/service/TaskQueueService.java:121-123 | a task stopped before its new thread begins it and then resubmitted is queued; the thread's discard of the old record removes the key of the new one, which then reports DONE while QUEUED |

## Left out

- Spring wiring and shutdown (`@Service`, the `worker.count` property,
  `@PostConstruct`, `@PreDestroy` with `shutdownNow`): configuration and
  process lifecycle. The worker count is the constructor's parameter, and it
  must be positive, as `ThreadPoolExecutor` requires.
- Threads, `synchronized`, `ConcurrentHashMap` and the blocking queue: each
  operation and worker step is atomic, and interleavings are sequences of
  these steps. Interleavings finer than one step are not modelled.
- `Service.TaskQueueService.StatusAfterAwait`: holds because a stop and a
  thread beginning a task are atomic. In the source a `stopTask` on a QUEUED
  record (TaskQueueService.java:63-82) can overlap a thread beginning it
  (TaskQueueService.java:119-127), with two outcomes the model cannot reach:
  the thread sets RUNNING after the stop's check at line 63, so the removal
  finds nothing, no cancel is issued and the task sleeps its whole duration
  and ends DONE; or line 79 runs before line 127, so RUNNING overwrites
  STOPPED after the latch has opened and a waiter reads RUNNING. The latch
  clause of `RecordsValid` holds for the same reason. The `return false` at
  TaskQueueService.java:96 is also unreachable only under atomic steps: in the
  source a second stop, or a stop racing a worker's last steps, can read
  STOPPED or DONE for a record that is still registered.
- `TimeUnit.SECONDS.sleep` is one `WorkerTick`; wall-clock time is not
  modelled, so timing claims (a stop taking effect within one second, the
  total time of a full pool) appear only as step counts.
- A thread's start is separate from the `submit` that created it, so
  interleavings in which other operations run before a new thread begins its
  first task are reachable. The time it takes the runtime to start a thread is
  not modelled.
- `Service.TaskQueueService.AwaitCompletion`: does not block; it returns the
  record, and `StatusAfterAwait` states what a waiter reads once the latch has
  opened. An interrupt of the waiting thread is not modelled.
- Reflection on `FutureTask.callable` is reduced to its outcome, the
  `reflective` parameter. The model does not decide when the lookup fails.
  Where the runtime does not open `java.util.concurrent` to the application,
  `setAccessible` throws, the predicate answers false and nothing is removed.
- `Service.TaskQueueService.SubmitTask`: the adapter's identity hash is a
  parameter that may be any string. The model does not compute it. Java's
  `Integer.toHexString` gives one to eight lower-case hexadecimal digits, so
  the model also allows matches that Java cannot produce, such as an id `t1`
  found in a hash. The adapter text follows JDK releases whose
  `RunnableAdapter` prints the wrapped task; on releases where it prints only
  its class name and hash, the runnable's id is not part of the text.
- A `FutureTask` cancelled by `cancel(true)` also refuses to run later; in the
  model only RUNNING records are cancelled, and their future is no longer
  pending, so that state is not needed.
- `TaskStatus.java` is not part of this model (the four statuses are a
  datatype), nor are `TaskRequest.java` and `TaskController.java` (the HTTP
  layer, which maps a missing record to DONE and always answers STOPPED to a
  stop).
- Getters of `TaskRecord` are reads of its fields; `id` and `timeSeconds` are
  `const`, so no operation can change them.
- `int` overflow of the duration does not arise: the loop counter only counts
  up to `timeSeconds`.
