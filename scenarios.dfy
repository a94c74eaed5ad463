/**
 * Client runs of the service: each method builds a service, drives it
 * through one sequence of calls and worker steps, and states what a caller
 * observes along the way.
 */
module Scenarios {
  import opened Strings
  import opened Model
  import opened Service

  /** A two-second task on one worker: QUEUED, then RUNNING, then DONE. */
  method SubmitRunAwait() returns (before: TaskStatus, during: TaskStatus, sleeps: nat, after: TaskStatus, awaited: TaskStatus)
    ensures before == Queued && during == Running
    ensures sleeps == 2 && after == Done && awaited == Done
  {
    var s := new TaskQueueService(1);
    var _ := s.SubmitTask("t1", 2, "1b6d3586");
    before := s.CheckStatus("t1");
    var r := s.AwaitCompletion("t1").value;
    var _ := s.WorkerStart(0);
    during := s.CheckStatus("t1");
    sleeps := s.Run(0);
    after := s.CheckStatus("t1");
    awaited := s.StatusAfterAwait(r);
  }

  /**
   * A second submission under a live id is refused and leaves the first
   * alone. The first future went straight to the pool's new thread, so
   * nothing is pending.
   */
  method DuplicateRejected() returns (first: bool, second: bool, status: TaskStatus, time: int, threads: nat, pending: nat)
    ensures first && !second
    ensures status == Queued && time == 5 && threads == 1 && pending == 0
  {
    var s := new TaskQueueService(1);
    first := s.SubmitTask("t1", 5, "4554617c");
    second := s.SubmitTask("t1", 7, "74a14482");
    status := s.CheckStatus("t1");
    time := s.AwaitCompletion("t1").value.timeSeconds;
    threads := |s.workers|;
    pending := |s.queue|;
  }

  /**
   * A task stopped before the thread created for it begins it. Its future
   * is not in the queue, so even a removal that works leaves it; the thread
   * then finds the record STOPPED, drops it without running it and stays
   * idle.
   */
  method StopWhileQueued() returns (stopped: bool, status: TaskStatus, took: bool, later: TaskStatus, idle: bool)
    ensures stopped && status == Stopped
    ensures took && later == Stopped && idle
  {
    var s := new TaskQueueService(1);
    var _ := s.SubmitTask("t2", 5, "1540e19d");
    var r := s.AwaitCompletion("t2").value;
    stopped := s.StopTask("t2", true);
    status := r.status;
    took := s.WorkerStart(0);
    later := r.status;
    idle := s.workers[0] == Idle;
  }

  /**
   * A task waiting in the queue of a full pool, stopped with a removal that
   * works: its future leaves the queue at once.
   */
  method StopWhileQueuedRemoved() returns (stopped: bool, status: TaskStatus, pending: nat)
    ensures stopped && status == Stopped && pending == 0
  {
    var s := new TaskQueueService(1);
    var _ := s.SubmitTask("t1", 5, "7f31245a");
    var _ := s.SubmitTask("t2", 5, "677327b6");
    var r := s.AwaitCompletion("t2").value;
    OwnIdMatches(s.queue[0]);
    stopped := s.StopTask("t2", true);
    status := r.status;
    pending := |s.queue|;
  }

  /**
   * A task stopped while it sleeps ends STOPPED at its next sleep, long
   * before its duration; from the stop on, checkStatus reports DONE.
   */
  method StopWhileRunning() returns (stopped: bool, reported: TaskStatus, status: TaskStatus, idle: bool)
    ensures stopped && reported == Done && status == Stopped && idle
  {
    var s := new TaskQueueService(1);
    var _ := s.SubmitTask("t3", 10, "14ae5a5");
    var r := s.AwaitCompletion("t3").value;
    var _ := s.WorkerStart(0);
    var _ := s.WorkerTick(0);
    stopped := s.StopTask("t3", true);
    reported := s.CheckStatus("t3");
    var _ := s.WorkerTick(0);
    status := r.status;
    idle := s.workers[0] == Idle;
  }

  /**
   * A stop that lands after the last sleep: the stop sets STOPPED and
   * fires the latch, then the worker's loop ends normally and overwrites
   * the status with DONE.
   */
  method LateStopOverwritten() returns (stopped: bool, afterStop: TaskStatus, final: TaskStatus)
    ensures stopped && afterStop == Stopped && final == Done
  {
    var s := new TaskQueueService(1);
    var _ := s.SubmitTask("t4", 1, "3d4eac69");
    var r := s.AwaitCompletion("t4").value;
    var _ := s.WorkerStart(0);
    var _ := s.WorkerTick(0);
    stopped := s.StopTask("t4", true);
    afterStop := r.status;
    var _ := s.WorkerFinish(0);
    final := r.status;
  }

  /** An id never submitted reports DONE. */
  method UnknownIdReportsDone() returns (status: TaskStatus)
    ensures status == Done
  {
    var s := new TaskQueueService(2);
    status := s.CheckStatus("never-submitted-id");
  }

  /**
   * "t1" goes to the pool's one thread and "t10" waits in the queue.
   * Stopping "t1" drops the pending future of "t10": that record stays
   * registered and QUEUED, and no worker will ever take it.
   */
  method PrefixStopStrandsSibling() returns (stopped: bool, sibling: TaskStatus, pending: nat)
    ensures stopped && sibling == Queued && pending == 0
  {
    var s := new TaskQueueService(1);
    var _ := s.SubmitTask("t1", 1, "568db2f2");
    var _ := s.SubmitTask("t10", 1, "378bf509");
    assert OccursAt("t10", "t1", 0);
    EmbeddedIdEmptiesQueue(s.queue, "t1");
    ghost var t10 := s.tasks["t10"];
    assert t10 != s.tasks["t1"];
    stopped := s.StopTask("t1", true);
    sibling := s.CheckStatus("t10");
    pending := |s.queue|;
  }

  /**
   * "java" goes to the pool's one thread and "t1" waits in the queue.
   * Stopping "java", an id that occurs in the adapter's class name, drops
   * every pending future: "t1" stays registered and QUEUED with nothing
   * left to run it.
   */
  method AdapterNameStrandsAll() returns (stopped: bool, other: TaskStatus, pending: nat)
    ensures stopped && other == Queued && pending == 0
  {
    var s := new TaskQueueService(1);
    var _ := s.SubmitTask("java", 1, "30f39991");
    var _ := s.SubmitTask("t1", 1, "452b3a41");
    JavaEmptiesQueue(s.queue);
    ghost var t1 := s.tasks["t1"];
    assert t1 != s.tasks["java"];
    stopped := s.StopTask("java", true);
    other := s.CheckStatus("t1");
    pending := |s.queue|;
  }

  /**
   * Resubmitting an id while its stopped predecessor is still sleeping:
   * the predecessor's exit removes the key, so checkStatus reports DONE
   * for the new task although it is QUEUED.
   */
  method ResubmitIsEvicted() returns (resubmitted: bool, reported: TaskStatus, actual: TaskStatus)
    ensures resubmitted && reported == Done && actual == Queued
  {
    var s := new TaskQueueService(1);
    var _ := s.SubmitTask("t1", 3, "5fd0d5ae");
    var _ := s.WorkerStart(0);
    var _ := s.StopTask("t1", true);
    resubmitted := s.SubmitTask("t1", 1, "2a84aee7");
    var r := s.AwaitCompletion("t1").value;
    var _ := s.WorkerTick(0);
    reported := s.CheckStatus("t1");
    actual := r.status;
  }

  /**
   * A task stopped before the thread created for it begins it, then
   * submitted again. The pool is full, so the new future is queued. The
   * thread then begins its first task, finds the old record STOPPED and
   * removes its id by key, which evicts the new record: checkStatus reports
   * DONE although the new task is QUEUED.
   */
  method StopBeforeStartEvictsResubmit() returns (resubmitted: bool, reported: TaskStatus, actual: TaskStatus, pending: nat)
    ensures resubmitted && reported == Done && actual == Queued && pending == 1
  {
    var s := new TaskQueueService(1);
    var _ := s.SubmitTask("t1", 1, "6d06d69c");
    var _ := s.StopTask("t1", true);
    resubmitted := s.SubmitTask("t1", 1, "7852e922");
    var r := s.AwaitCompletion("t1").value;
    var _ := s.WorkerStart(0);
    reported := s.CheckStatus("t1");
    actual := r.status;
    pending := |s.queue|;
  }
}
