/**
 * The task-lifecycle service: a registry from id to record, the executor's
 * FIFO queue of pending futures, and a fixed set of worker threads. Every
 * public operation and every worker step is one atomic transition of a
 * `TaskQueueService` object.
 */
module Service {

  import opened Wrappers
  import opened Strings
  import opened Model

  type Record = TaskRecord<FutureTask>

  /** The runnable submitted to the executor for one record. */
  datatype TaskRunnable = TaskRunnable(record: Record)
  {
    /** TaskRunnable.toString: the class label, then the record's id. */
    function ToString(): (s: string)
      ensures Contains(s, record.id)
    {
      var s := "TaskRunnable:" + record.id;
      assert OccursAt(s, record.id, 13);
      s
    }
  }

  /** The package of the JDK's executor classes. */
  const ExecutorPackage: string := "java.util.concurrent."

  /** What the JDK's RunnableAdapter prints before its identity hash. */
  const AdapterClass: string := ExecutorPackage + "Executors$RunnableAdapter@"

  /** What the RunnableAdapter prints before the text of the runnable it wraps. */
  const WrappedLabel: string := "[Wrapped task = "

  /**
   * The text of the callable inside the executor's future. `submit` wraps
   * the runnable in a RunnableAdapter, whose toString gives its class name,
   * its identity hash and, in brackets, the wrapped runnable's text.
   */
  function AdapterText(hash: string, task: TaskRunnable): (t: string)
    ensures Contains(t, task.ToString())
  {
    var inner := task.ToString();
    var head := AdapterClass + hash + WrappedLabel;
    assert OccursAt(inner, inner, 0);
    ContainsRight(head, inner, inner);
    ContainsLeft(head + inner, "]", inner);
    head + inner + "]"
  }

  /**
   * The executor's future around a runnable. `hash` is the identity hash
   * of the adapter around the runnable; `interrupted` is the interrupt
   * status of the worker thread that runs it, which cancel(true) sets.
   */
  class FutureTask {
    const callable: TaskRunnable
    const hash: string
    /** The text the future's callable prints: the adapter's text around the runnable. */
    const text: string := AdapterText(hash, callable)
    var interrupted: bool

    constructor (callable: TaskRunnable, hash: string)
      ensures this.callable == callable && this.hash == hash && !interrupted
    {
      this.callable := callable;
      this.hash := hash;
      interrupted := false;
    }

    /** Future.cancel(true) on a running task: interrupt the thread running it. */
    method Cancel()
      modifies this
      ensures interrupted
    {
      interrupted := true;
    }
  }

  /**
   * A worker thread: idle; just created with its first task, which it has
   * not begun yet; or running a future after `slept` one-second sleeps.
   */
  datatype Worker = Idle | Starting(task: FutureTask) | Busy(task: FutureTask, slept: nat)

  /** No element appears twice. */
  ghost predicate Distinct<T>(q: seq<T>)
  {
    forall i, j :: 0 <= i < j < |q| ==> q[i] != q[j]
  }

  /** The removeIf predicate of stopTask: the text of the future's callable contains the id. */
  function Matches(f: FutureTask, id: string): (b: bool)
    ensures b <==> exists i :: OccursAt(AdapterText(f.hash, f.callable), id, i)
  {
    Contains(f.text, id)
  }

  /**
   * An id occurring in any part of a future's text matches it: the
   * adapter's class name, its hash, the wrapped label or the runnable's text.
   */
  lemma PartsMatch(f: FutureTask, id: string)
    requires || Contains(AdapterClass, id) || Contains(f.hash, id)
             || Contains(WrappedLabel, id) || Contains(f.callable.ToString(), id)
    ensures Matches(f, id)
  {
    var a, h, inner := AdapterClass, f.hash, f.callable.ToString();
    if Contains(a, id) {
      ContainsLeft(a, h, id);
    } else if Contains(h, id) {
      ContainsRight(a, h, id);
    }
    if Contains(a + h, id) {
      ContainsLeft(a + h, WrappedLabel, id);
    } else if Contains(WrappedLabel, id) {
      ContainsRight(a + h, WrappedLabel, id);
    }
    var head := a + h + WrappedLabel;
    if Contains(head, id) {
      ContainsLeft(head, inner, id);
    } else {
      ContainsRight(head, inner, id);
    }
    ContainsLeft(head + inner, "]", id);
  }

  /** A future's text contains its own record's id, so a removal that works drops the stopped record's own future. */
  lemma OwnIdMatches(f: FutureTask)
    ensures Matches(f, f.callable.record.id)
  {
    PartsMatch(f, f.callable.record.id);
  }

  /** An id occurring inside another record's id matches that record's future too: stopping "t1" also drops "t10". */
  lemma EmbeddedIdMatches(f: FutureTask, id: string)
    requires Contains(f.callable.record.id, id)
    ensures Matches(f, id)
  {
    ContainsTransitive(f.callable.ToString(), f.callable.record.id, id);
    PartsMatch(f, id);
  }

  /** An id occurring in the hexadecimal identity hash of a future's adapter matches that future. */
  lemma HashIdMatches(f: FutureTask, id: string)
    requires Contains(f.hash, id)
    ensures Matches(f, id)
  {
    PartsMatch(f, id);
  }

  /** An id occurring in the text every future shares, such as "java", "Task" or the empty id. */
  predicate InFixedText(id: string)
  {
    Contains(AdapterClass, id) || Contains(WrappedLabel, id) || Contains("TaskRunnable:", id)
  }

  /** Such an id matches every future. */
  lemma FixedTextIdMatchesAll(f: FutureTask, id: string)
    requires InFixedText(id)
    ensures Matches(f, id)
  {
    if Contains("TaskRunnable:", id) {
      ContainsLeft("TaskRunnable:", f.callable.record.id, id);
    }
    PartsMatch(f, id);
  }

  /** The queue with every future that matches `id` dropped, the rest in their order. */
  function Unmatched(q: seq<FutureTask>, id: string): (r: seq<FutureTask>)
    ensures |r| <= |q|
  {
    if q == [] then []
    else if Matches(q[|q| - 1], id) then Unmatched(q[..|q| - 1], id)
    else Unmatched(q[..|q| - 1], id) + [q[|q| - 1]]
  }

  /** A future survives the filter exactly when it was pending and does not match. */
  lemma {:induction false} UnmatchedMembers(q: seq<FutureTask>, id: string)
    ensures forall f :: f in Unmatched(q, id) ==> f in q && !Matches(f, id)
    ensures forall f :: f in q && !Matches(f, id) ==> f in Unmatched(q, id)
  {
    if q != [] {
      var init, last := q[..|q| - 1], q[|q| - 1];
      assert q == init + [last];
      UnmatchedMembers(init, id);
    }
  }

  /** Filtering a queue without repeats leaves one without repeats. */
  lemma {:induction false} UnmatchedDistinct(q: seq<FutureTask>, id: string)
    requires Distinct(q)
    ensures Distinct(Unmatched(q, id))
  {
    if q != [] {
      var init, last := q[..|q| - 1], q[|q| - 1];
      assert q == init + [last];
      assert Distinct(init);
      UnmatchedDistinct(init, id);
      UnmatchedMembers(init, id);
      assert last !in init;
    }
  }

  /** The filter shortens the queue exactly when some pending future matches. */
  lemma {:induction false} UnmatchedShorter(q: seq<FutureTask>, id: string)
    ensures |Unmatched(q, id)| < |q| <==> exists f :: f in q && Matches(f, id)
    decreases |q|
  {
    if q != [] {
      var init, last := q[..|q| - 1], q[|q| - 1];
      assert q == init + [last];
      UnmatchedShorter(init, id);
      if Matches(last, id) {
        assert last in q;
      } else {
        assert forall f :: f in q && Matches(f, id) ==> f in init;
      }
    }
  }

  /** Filtering distributes over concatenation, so the kept futures keep their relative order. */
  lemma {:induction false} UnmatchedAppend(a: seq<FutureTask>, b: seq<FutureTask>, id: string)
    ensures Unmatched(a + b, id) == Unmatched(a, id) + Unmatched(b, id)
    decreases |b|
  {
    if b == [] {
      assert a + b == a;
    } else {
      var init, last := b[..|b| - 1], b[|b| - 1];
      assert (a + b)[..|a + b| - 1] == a + init;
      assert (a + b)[|a + b| - 1] == last;
      UnmatchedAppend(a, init, id);
    }
  }

  /** One more element of the queue: it is kept exactly when it does not match. */
  lemma UnmatchedStep(q: seq<FutureTask>, i: nat, id: string)
    requires i < |q|
    ensures Unmatched(q[..i + 1], id) == Unmatched(q[..i], id) + (if Matches(q[i], id) then [] else [q[i]])
  {
    assert q[..i + 1][..i] == q[..i];
  }

  /** A removal that works always drops the stopped record's own future. */
  lemma OwnFutureDropped(q: seq<FutureTask>, f: FutureTask)
    requires f in q
    ensures f !in Unmatched(q, f.callable.record.id)
  {
    OwnIdMatches(f);
    UnmatchedMembers(q, f.callable.record.id);
  }

  /**
   * A removal that works also drops the future of every record whose id
   * contains the stopped id, although that record stays registered.
   */
  lemma SiblingDropped(q: seq<FutureTask>, id: string, f: FutureTask)
    requires f in q && Contains(f.callable.record.id, id)
    ensures f !in Unmatched(q, id)
  {
    EmbeddedIdMatches(f, id);
    UnmatchedMembers(q, id);
  }

  /** When every pending future matches, a removal that works empties the queue. */
  lemma {:induction false} AllMatchEmpties(q: seq<FutureTask>, id: string)
    requires forall i :: 0 <= i < |q| ==> Matches(q[i], id)
    ensures Unmatched(q, id) == []
    decreases |q|
  {
    if q != [] {
      AllMatchEmpties(q[..|q| - 1], id);
    }
  }

  /** Stopping an id found inside the id of every pending record empties the whole queue. */
  lemma EmbeddedIdEmptiesQueue(q: seq<FutureTask>, id: string)
    requires forall i :: 0 <= i < |q| ==> Contains(q[i].callable.record.id, id)
    ensures Unmatched(q, id) == []
  {
    forall i | 0 <= i < |q|
      ensures Matches(q[i], id)
    {
      EmbeddedIdMatches(q[i], id);
    }
    AllMatchEmpties(q, id);
  }

  /** Stopping an id found in the text every future shares empties the whole queue. */
  lemma FixedTextIdEmptiesQueue(q: seq<FutureTask>, id: string)
    requires InFixedText(id)
    ensures Unmatched(q, id) == []
  {
    forall i | 0 <= i < |q|
      ensures Matches(q[i], id)
    {
      FixedTextIdMatchesAll(q[i], id);
    }
    AllMatchEmpties(q, id);
  }

  /** "java" begins the adapter's class name, so it matches every future. */
  lemma JavaMatchesAll(f: FutureTask)
    ensures Matches(f, "java")
  {
    FixedTextIdMatchesAll(f, "java");
  }

  /** Stopping "java" empties the whole queue. */
  lemma JavaEmptiesQueue(q: seq<FutureTask>)
    ensures Unmatched(q, "java") == []
  {
    forall i | 0 <= i < |q|
      ensures Matches(q[i], "java")
    {
      JavaMatchesAll(q[i]);
    }
    AllMatchEmpties(q, "java");
  }

  /**
   * The queue's removeIf with the reflective predicate of stopTask. When the
   * reflective lookup fails the predicate answers false for every element,
   * so nothing is removed.
   */
  method RemoveIf(q: seq<FutureTask>, id: string, reflective: bool) returns (kept: seq<FutureTask>, removed: bool)
    ensures kept == if reflective then Unmatched(q, id) else q
    ensures removed <==> reflective && exists f :: f in q && Matches(f, id)
  {
    if !reflective {
      return q, false;
    }
    kept, removed := [], false;
    var i := 0;
    while i < |q|
      invariant 0 <= i <= |q|
      invariant kept == Unmatched(q[..i], id)
      invariant removed <==> |kept| < i
    {
      UnmatchedStep(q, i, id);
      if Matches(q[i], id) {
        removed := true;
      } else {
        kept := kept + [q[i]];
      }
      i := i + 1;
    }
    assert q[..i] == q;
    UnmatchedShorter(q, id);
  }

  class TaskQueueService {
    /** The executor's core and maximum pool size. */
    const workerCount: nat
    /** The registry from id to record. */
    var tasks: map<string, Record>
    /** The executor's pending queue, head first. */
    var queue: seq<FutureTask>
    /** The executor's worker threads, in the order it created them. */
    var workers: seq<Worker>
    /** Every record this service has created. */
    ghost var records: set<Record>

    /** Registered records sit under their own id and are QUEUED or RUNNING. */
    ghost predicate RegistryValid()
      reads this, records
    {
      forall k :: k in tasks ==> tasks[k] in records && tasks[k].id == k && tasks[k].status.Active()
    }

    /** Each record has its one future, and its latch is open exactly when its status is terminal. */
    ghost predicate RecordsValid()
      reads this, records
    {
      forall r :: r in records ==>
        && r.future.Some? && r.future.value.callable.record == r
        && r.latchCount <= 1 && (r.IsDone() <==> r.status.Terminal())
    }

    /** `f` is the future of one of this service's records. */
    ghost predicate Owned(f: FutureTask)
      reads this, records
    {
      f.callable.record in records && f.callable.record.future == Some(f)
    }

    /** Pending futures are distinct, and their records are QUEUED or already STOPPED. */
    ghost predicate QueueValid()
      reads this, records
    {
      && Distinct(queue)
      && forall f :: f in queue ==>
           && Owned(f)
           && (f.callable.record.status == Queued || f.callable.record.status == Stopped)
    }

    /**
     * At most `workerCount` threads exist. A thread that holds a future holds
     * one no other thread holds and that is not pending; a first task not yet
     * begun belongs to a QUEUED or STOPPED record, a running one to a RUNNING
     * or STOPPED record.
     */
    ghost predicate WorkersValid()
      reads this, records
    {
      && |workers| <= workerCount
      && (forall w :: 0 <= w < |workers| && !workers[w].Idle? ==>
            Owned(workers[w].task) && workers[w].task !in queue)
      && (forall w :: 0 <= w < |workers| && workers[w].Starting? ==>
            workers[w].task.callable.record.status == Queued || workers[w].task.callable.record.status == Stopped)
      && (forall w :: 0 <= w < |workers| && workers[w].Busy? ==>
            workers[w].task.callable.record.status == Running || workers[w].task.callable.record.status == Stopped)
      && (forall v, w :: 0 <= v < w < |workers| && !workers[v].Idle? && !workers[w].Idle? ==>
            workers[v].task != workers[w].task)
    }

    /** No thread holds `f`. */
    ghost predicate Unheld(f: FutureTask)
      reads this
    {
      forall w :: 0 <= w < |workers| && !workers[w].Idle? ==> workers[w].task != f
    }

    ghost predicate Valid()
      reads this, records
    {
      RegistryValid() && RecordsValid() && QueueValid() && WorkersValid()
    }

    /** A service whose executor may create `workerCount` threads and has created none yet. */
    constructor (workerCount: nat)
      requires workerCount > 0
      ensures Valid()
      ensures this.workerCount == workerCount
      ensures tasks == map[] && queue == [] && workers == [] && records == {}
    {
      this.workerCount := workerCount;
      tasks := map[];
      queue := [];
      workers := [];
      records := {};
    }

    /**
     * submitTask: rejects an id that is already registered; otherwise
     * registers a fresh QUEUED record under it and hands its future to the
     * executor. `hash` is the identity hash the runtime gives the adapter
     * around the new runnable.
     */
    method SubmitTask(id: string, time: int, hash: string) returns (ok: bool)
      requires Valid()
      modifies this
      ensures Valid()
      ensures ok <==> id !in old(tasks)
      ensures !ok ==> tasks == old(tasks) && queue == old(queue) && workers == old(workers) && records == old(records)
      ensures ok ==>
        && id in tasks && fresh(tasks[id])
        && tasks == old(tasks)[id := tasks[id]]
        && tasks[id].timeSeconds == time && tasks[id].status == Queued && !tasks[id].IsDone()
        && tasks[id].future.Some? && fresh(tasks[id].future.value)
        && tasks[id].future.value.hash == hash
        && !tasks[id].future.value.interrupted
        && records == old(records) + {tasks[id]}
        && Executed(tasks[id].future.value, old(queue), old(workers))
    {
      if id in tasks {
        return false;
      }
      var record := new TaskRecord<FutureTask>(id, time);
      var f := new FutureTask(TaskRunnable(record), hash);
      record.SetFuture(f);
      Register(record);
      Execute(f);
      ok := true;
    }

    /**
     * What `execute` does with `f`, given the queue and the threads before:
     * while fewer than `workerCount` threads exist, a new thread is created
     * with `f` as its first task and the queue is left alone; otherwise `f`
     * joins the tail of the queue.
     */
    ghost predicate Executed(f: FutureTask, queue0: seq<FutureTask>, workers0: seq<Worker>)
      reads this
    {
      if |workers0| < workerCount then queue == queue0 && workers == workers0 + [Starting(f)]
      else queue == queue0 + [f] && workers == workers0
    }

    /** Puts a new QUEUED record under its id. */
    method Register(r: Record)
      requires Valid() && r.id !in tasks && r !in records
      requires r.status == Queued && r.latchCount == 1 && r.future.Some? && r.future.value.callable.record == r
      modifies this`tasks, this`records
      ensures Valid()
      ensures tasks == old(tasks)[r.id := r] && records == old(records) + {r}
    {
      tasks := tasks[r.id := r];
      records := records + {r};
    }

    /**
     * ThreadPoolExecutor.execute for a pool whose core and maximum size are
     * both `workerCount`: a new thread takes `f` as its first task while the
     * pool is not full, and `f` is queued once it is.
     */
    method Execute(f: FutureTask)
      requires Valid() && Owned(f) && f.callable.record.status == Queued && f !in queue && Unheld(f)
      modifies this`queue, this`workers
      ensures Valid()
      ensures Executed(f, old(queue), old(workers))
    {
      if |workers| < workerCount {
        workers := workers + [Starting(f)];
      } else {
        queue := queue + [f];
      }
    }

    /** checkStatus: the status of the registered record, DONE for an unknown id. */
    function CheckStatus(id: string): (s: TaskStatus)
      reads this, records
      requires Valid()
      ensures id !in tasks ==> s == Done
      ensures id in tasks ==> s == tasks[id].status && s.Active()
      ensures s != Stopped
    {
      if id !in tasks then Done else tasks[id].status
    }

    /**
     * awaitCompletion without the blocking: no record for an unknown id,
     * otherwise the registered record, whose latch has not fired yet.
     */
    function AwaitCompletion(id: string): (r: Option<Record>)
      reads this, records
      requires Valid()
      ensures r.None? <==> id !in tasks
      ensures r.Some? ==> r.value == tasks[id] && r.value.id == id && !r.value.IsDone()
    {
      if id !in tasks then None else Some(tasks[id])
    }

    /** What a waiter reads once the latch it awaited has opened: a terminal status. */
    function StatusAfterAwait(r: Record): (s: TaskStatus)
      reads this, records
      requires Valid() && r in records && r.IsDone()
      ensures s.Terminal()
    {
      r.status
    }

    /** What a stop of `id` may change besides the service: the record registered under it and its future. */
    ghost function Registered(id: string): set<object>
      reads this, records
      requires RegistryValid() && RecordsValid()
    {
      if id in tasks then {tasks[id], tasks[id].future.value} else {}
    }

    /** What a start of worker `w` may change besides the service: the record of the future it would take. */
    ghost function TakenBy(w: nat): set<object>
      reads this
    {
      if w >= |workers| then {}
      else if workers[w].Starting? then {workers[w].task.callable.record}
      else if workers[w].Idle? && queue != [] then {queue[0].callable.record}
      else {}
    }

    /** What worker `w`'s steps may change besides the service: the record it runs. */
    ghost function RunBy(w: nat): set<object>
      reads this
    {
      if w < |workers| && workers[w].Busy? then {workers[w].task.callable.record} else {}
    }

    /**
     * The step every exit path ends with: set a terminal status, fire the
     * latch and remove the record's id from the registry. Removal is by key,
     * so it evicts whatever record that id names now.
     */
    method Complete(r: Record, s: TaskStatus)
      requires Valid() && r in records && s.Terminal()
      requires s == Stopped || r.future.value !in queue
      requires s == Stopped || Unheld(r.future.value)
      modifies this`tasks, r`status, r`latchCount
      ensures Valid()
      ensures r.status == s && r.IsDone()
      ensures tasks == old(tasks) - {r.id}
    {
      assert s == Stopped || forall g :: g in queue ==> g.callable.record != r;
      assert s == Stopped || forall w :: 0 <= w < |workers| && !workers[w].Idle? ==> workers[w].task.callable.record != r;
      r.SetStatus(s);
      r.CountDown();
      tasks := tasks - {r.id};
      assert RecordsValid() && QueueValid();
    }

    /**
     * The queue after a removal: what is left of it, without repeats. A
     * separate step so that the invariant is re-established away from the
     * text matching of the removal itself.
     */
    method Retain(kept: seq<FutureTask>)
      requires Valid() && Distinct(kept) && forall f :: f in kept ==> f in queue
      modifies this`queue
      ensures Valid() && queue == kept
    {
      queue := kept;
    }

    /**
     * stopTask on a QUEUED record: remove the pending futures whose text
     * contains the id (or none, when the reflective lookup fails), then the
     * terminal step with STOPPED.
     */
    method StopQueued(r: Record, reflective: bool)
      requires Valid() && r.id in tasks && tasks[r.id] == r && r.status == Queued
      modifies this`queue, this`tasks, r`status, r`latchCount
      ensures Valid()
      ensures r.status == Stopped && r.IsDone()
      ensures tasks == old(tasks) - {r.id}
      ensures queue == if reflective then Unmatched(old(queue), r.id) else old(queue)
    {
      var kept, _ := RemoveIf(queue, r.id, reflective);
      UnmatchedMembers(queue, r.id);
      UnmatchedDistinct(queue, r.id);
      Retain(kept);
      Complete(r, Stopped);
    }

    /**
     * stopTask on a RUNNING record: cancel its future, which interrupts the
     * worker running it, then the terminal step with STOPPED.
     */
    method StopRunning(r: Record)
      requires Valid() && r.id in tasks && tasks[r.id] == r && r.status == Running
      modifies this`tasks, r`status, r`latchCount, r.future.value
      ensures Valid()
      ensures r.status == Stopped && r.IsDone()
      ensures tasks == old(tasks) - {r.id}
      ensures r.future == old(r.future) && r.future.value.interrupted
    {
      var f := r.future;
      if f.Some? {
        f.value.Cancel();
      }
      Complete(r, Stopped);
    }

    /**
     * stopTask. An unknown id: false, nothing changes. A QUEUED record: its
     * pending future is removed by substring match (or nothing is removed
     * when the reflective lookup fails), and the record is set STOPPED, its
     * latch fired and its key removed. A RUNNING record: its thread is
     * interrupted, then the same terminal step is taken.
     */
    method StopTask(id: string, reflective: bool) returns (ok: bool)
      requires Valid()
      modifies this, Registered(id)
      ensures Valid()
      ensures ok <==> id in old(tasks)
      ensures workers == old(workers) && records == old(records)
      ensures !ok ==> tasks == old(tasks) && queue == old(queue)
      ensures ok ==>
        var r := old(tasks[id]);
        && Edge(old(r.status), r.status)
        && r.status == Stopped && r.IsDone()
        && tasks == old(tasks) - {id}
        && queue == (if old(r.status) == Queued && reflective then Unmatched(old(queue), id) else old(queue))
        && r.future == old(r.future)
        && r.future.value.interrupted == (old(r.status) == Running || old(r.future.value.interrupted))
    {
      if id !in tasks {
        return false;
      }
      var r := tasks[id];
      if r.status == Queued {
        StopQueued(r, reflective);
        return true;
      }
      if r.status == Running {
        StopRunning(r);
        return true;
      }
      // A registered record is QUEUED or RUNNING, so no call reaches here.
      assert false;
    }

    /**
     * The queue's take(): remove and return the head. The future taken is
     * pending nowhere else and no worker runs it yet.
     */
    method Take() returns (f: FutureTask)
      requires Valid() && queue != []
      modifies this`queue
      ensures Valid()
      ensures f == old(queue[0]) && queue == old(queue[1..])
      ensures Owned(f) && f !in queue && Unheld(f)
      ensures f.callable.record.status == Queued || f.callable.record.status == Stopped
    {
      f := queue[0];
      queue := queue[1..];
    }

    /**
     * A thread created with a first task begins it: the thread holds nothing
     * else, and the future is pending nowhere and held by no other thread.
     */
    method TakeFirst(w: nat) returns (f: FutureTask)
      requires Valid() && w < |workers| && workers[w].Starting?
      modifies this`workers
      ensures Valid()
      ensures f == old(workers[w].task) && workers == old(workers)[w := Idle]
      ensures Owned(f) && f !in queue && Unheld(f)
      ensures f.callable.record.status == Queued || f.callable.record.status == Stopped
    {
      f := workers[w].task;
      workers := workers[w := Idle];
    }

    /**
     * The worker's skip for a record stopped while queued: fire the latch
     * once more and remove the record's key, without touching its status.
     */
    method Discard(r: Record)
      requires Valid() && r in records && r.status == Stopped
      modifies this`tasks, r`latchCount
      ensures Valid()
      ensures r.IsDone() && tasks == old(tasks) - {r.id}
    {
      r.CountDown();
      tasks := tasks - {r.id};
    }

    /** Worker `w` begins a future it has just taken: its record becomes RUNNING. */
    method Begin(w: nat, f: FutureTask)
      requires Valid() && w < |workers| && workers[w] == Idle
      requires Owned(f) && f !in queue && f.callable.record.status == Queued && Unheld(f)
      modifies this`workers, f.callable.record`status
      ensures Valid()
      ensures f.callable.record.status == Running && workers == old(workers)[w := Busy(f, 0)]
    {
      var r := f.callable.record;
      assert forall g :: g in queue ==> g.callable.record != r;
      assert forall v :: 0 <= v < |workers| && !workers[v].Idle? ==> workers[v].task.callable.record != r;
      r.SetStatus(Running);
      workers := workers[w := Busy(f, 0)];
    }

    /**
     * A worker starts its next future: a new thread its first task, an idle
     * thread the head of the queue. A record stopped before it started is
     * not run: its latch fires again and its key is removed. Any other
     * record becomes RUNNING.
     */
    method WorkerStart(w: nat) returns (took: bool)
      requires Valid() && w < |workers|
      modifies this, TakenBy(w)
      ensures Valid()
      ensures took <==> old(workers[w].Starting? || (workers[w].Idle? && queue != []))
      ensures records == old(records)
      ensures !took ==> tasks == old(tasks) && queue == old(queue) && workers == old(workers)
      ensures took ==>
        var first := old(workers[w].Starting?);
        var f := if first then old(workers[w].task) else old(queue[0]);
        var r := f.callable.record;
        && queue == (if first then old(queue) else old(queue[1..]))
        && (old(r.status) == Stopped ==>
              r.status == Stopped && r.IsDone() && tasks == old(tasks) - {r.id} && workers == old(workers)[w := Idle])
        && (old(r.status) != Stopped ==>
              && old(r.status) == Queued && Edge(old(r.status), r.status)
              && r.status == Running && !r.IsDone()
              && tasks == old(tasks) && workers == old(workers)[w := Busy(f, 0)])
        && r.future == old(r.future)
    {
      var f;
      if workers[w].Starting? {
        f := TakeFirst(w);
      } else if workers[w].Idle? && queue != [] {
        f := Take();
      } else {
        return false;
      }
      if f.callable.record.status == Stopped {
        Discard(f.callable.record);
      } else {
        Begin(w, f);
      }
      took := true;
    }

    /**
     * One one-second sleep of the worker's loop. A pending interrupt makes
     * the sleep throw: the record becomes STOPPED, its latch fires, its key
     * is removed and the worker is idle again.
     */
    method WorkerTick(w: nat) returns (ticked: bool)
      requires Valid() && w < |workers|
      modifies this, RunBy(w)
      ensures Valid()
      ensures ticked <==> old(workers[w].Busy? && workers[w].slept < workers[w].task.callable.record.timeSeconds)
      ensures queue == old(queue) && records == old(records)
      ensures !ticked ==> tasks == old(tasks) && workers == old(workers)
      ensures old(workers[w].Busy?) ==>
        var r := old(workers[w].task.callable.record);
        && r.future == old(r.future)
        && (!ticked ==> r.status == old(r.status) && r.latchCount == old(r.latchCount))
      ensures ticked ==>
        var f := old(workers[w].task);
        var r := f.callable.record;
        if f.interrupted then
          && (old(r.status) == Running ==> Edge(old(r.status), r.status))
          && r.status == Stopped && r.IsDone()
          && tasks == old(tasks) - {r.id} && workers == old(workers)[w := Idle]
        else
          && r.status == old(r.status) && r.latchCount == old(r.latchCount)
          && tasks == old(tasks) && workers == old(workers)[w := Busy(f, old(workers[w].slept) + 1)]
    {
      if !(workers[w].Busy? && workers[w].slept < workers[w].task.callable.record.timeSeconds) {
        return false;
      }
      var f := workers[w].task;
      if f.interrupted {
        workers := workers[w := Idle];
        Complete(f.callable.record, Stopped);
      } else {
        workers := workers[w := Busy(f, workers[w].slept + 1)];
      }
      ticked := true;
    }

    /**
     * The worker's loop is exhausted: the record becomes DONE, its latch
     * fires, its key is removed and the worker is idle again.
     */
    method WorkerFinish(w: nat) returns (finished: bool)
      requires Valid() && w < |workers|
      modifies this, RunBy(w)
      ensures Valid()
      ensures finished <==> old(workers[w].Busy? && workers[w].slept >= workers[w].task.callable.record.timeSeconds)
      ensures queue == old(queue) && records == old(records)
      ensures !finished ==> tasks == old(tasks) && workers == old(workers)
      ensures old(workers[w].Busy?) ==>
        var r := old(workers[w].task.callable.record);
        && r.future == old(r.future)
        && (!finished ==> r.status == old(r.status) && r.latchCount == old(r.latchCount))
      ensures finished ==>
        var r := old(workers[w].task).callable.record;
        && (old(r.status) == Running ==> Edge(old(r.status), r.status))
        && r.status == Done && r.IsDone()
        && tasks == old(tasks) - {r.id} && workers == old(workers)[w := Idle]
    {
      if !(workers[w].Busy? && workers[w].slept >= workers[w].task.callable.record.timeSeconds) {
        return false;
      }
      var f := workers[w].task;
      var r := f.callable.record;
      workers := workers[w := Idle];
      assert r.future.value == f;
      Complete(r, Done);
      finished := true;
    }

    /**
     * TaskRunnable.run from the point the worker began the record, with no
     * other transition in between: the remaining sleeps, then DONE, unless
     * an interrupt is pending, which makes the next sleep throw at once and
     * ends the run STOPPED. Either way the latch fires and the key is
     * removed. `sleeps` counts the one-second sleeps that completed.
     */
    method Run(w: nat) returns (sleeps: nat)
      requires Valid() && w < |workers| && workers[w].Busy?
      modifies this, RunBy(w)
      ensures Valid()
      ensures queue == old(queue) && records == old(records)
      ensures
        var f := old(workers[w].task);
        var r := f.callable.record;
        var left := r.timeSeconds - old(workers[w].slept);
        && sleeps == (if f.interrupted || left <= 0 then 0 else left)
        && r.status == (if f.interrupted && left > 0 then Stopped else Done)
        && r.IsDone() && r.future == old(r.future)
        && tasks == old(tasks) - {r.id} && workers == old(workers)[w := Idle]
    {
      var f := workers[w].task;
      var r := f.callable.record;
      var slept := workers[w].slept;
      var n := slept;
      while n < r.timeSeconds && workers[w].Busy?
        invariant Valid() && |workers| == |old(workers)|
        invariant queue == old(queue) && records == old(records) && r.future == old(r.future)
        invariant slept <= n && (n <= r.timeSeconds || n == slept)
        invariant f.interrupted ==> n == slept
        invariant workers[w].Busy? ==>
          && workers == old(workers)[w := Busy(f, n)] && tasks == old(tasks)
          && r.status == old(r.status) && r.latchCount == old(r.latchCount)
        invariant !workers[w].Busy? ==>
          && workers == old(workers)[w := Idle] && tasks == old(tasks) - {r.id}
          && r.status == Stopped && r.IsDone() && f.interrupted && slept < r.timeSeconds
        decreases r.timeSeconds - n + (if workers[w].Busy? then 1 else 0)
      {
        var _ := WorkerTick(w);
        if workers[w].Busy? {
          n := n + 1;
        }
      }
      var _ := WorkerFinish(w);
      sleeps := n - slept;
    }
  }

}
