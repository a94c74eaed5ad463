/**
 * The per-task record: an immutable id and duration, a status that setters
 * overwrite, a completion latch of count one, and the handle of the future
 * that runs the task.
 */
module Model {

  import opened Wrappers

  datatype TaskStatus = Queued | Running | Done | Stopped
  {
    /** A status a registered record may have. */
    predicate Active() { this == Queued || this == Running }

    /** DONE and STOPPED: no work remains. */
    predicate Terminal() { this == Done || this == Stopped }
  }

  /**
   * The edges of the lifecycle graph: QUEUED -> RUNNING -> {DONE, STOPPED},
   * plus the QUEUED -> STOPPED shortcut taken by a cancellation before a
   * worker begins the task.
   */
  predicate Edge(from: TaskStatus, to: TaskStatus)
  {
    || (from == Queued && (to == Running || to == Stopped))
    || (from == Running && (to == Done || to == Stopped))
  }

  /** A countdown on a latch: one step towards zero, never below it. */
  function CountedDown(count: nat): (next: nat)
    ensures count > 0 ==> next < count
    ensures next == 0 <==> count <= 1
  {
    if count == 0 then 0 else count - 1
  }

  /**
   * The record of one submitted task. `F` is the type of the future the
   * executor hands back; the record only stores it.
   */
  class TaskRecord<F> {
    const id: string
    const timeSeconds: int
    /** The count of the record's CountDownLatch; it opens at zero. */
    var latchCount: nat
    var status: TaskStatus
    var future: Option<F>

    constructor (id: string, timeSeconds: int)
      ensures this.id == id && this.timeSeconds == timeSeconds
      ensures status == Queued
      ensures latchCount == 1 && !IsDone()
      ensures future == None
    {
      this.id := id;
      this.timeSeconds := timeSeconds;
      latchCount := 1;
      status := Queued;
      future := None;
    }

    /** The latch is open: every waiter has been released. */
    predicate IsDone()
      reads this
    {
      latchCount == 0
    }

    method SetStatus(s: TaskStatus)
      modifies this`status
      ensures status == s
      ensures latchCount == old(latchCount) && future == old(future)
    {
      status := s;
    }

    /** CountDownLatch.countDown: the first call opens a latch of count one; later calls leave it open. */
    method CountDown()
      modifies this`latchCount
      ensures latchCount == CountedDown(old(latchCount))
      ensures old(latchCount) == 1 ==> IsDone()
      ensures old(IsDone()) ==> IsDone()
      ensures status == old(status) && future == old(future)
    {
      if latchCount > 0 {
        latchCount := latchCount - 1;
      }
    }

    method SetFuture(f: F)
      modifies this`future
      ensures future == Some(f)
      ensures status == old(status) && latchCount == old(latchCount)
    {
      future := Some(f);
    }
  }

}
