/** The in-memory task store: task id -> task record, status-gated result reads. */
module TaskStore {
  import opened Results

  /** A timestamp; 0 stands for Go's zero `time.Time`. */
  type Time = int

  /** Go's `TaskStatus` is a named string; any string can be stored. */
  type TaskStatus = string

  const StatusInProgress: TaskStatus := "in_progress"
  const StatusReady: TaskStatus := "ready"

  /** `ErrNotFound` and `ErrNotReady`. */
  datatype TaskError = NotFound | NotReady

  datatype Task = Task(id: string, status: TaskStatus, createdAt: Time, updatedAt: Time, result: string)

  type Tasks = map<string, Task>

  // ---------------------------------------------------------------------------
  // Specification: one function per store operation, over the `tasks` map.
  // ---------------------------------------------------------------------------

  /** The map after `CreateTask` stored a fresh record under `id` at time `now`. */
  function CreateStep(tasks: Tasks, id: string, now: Time): (r: Tasks)
    ensures r.Keys == tasks.Keys + {id}
    ensures r[id].id == id && r[id].status == StatusInProgress && r[id].result == ""
    ensures r[id].createdAt == now && r[id].updatedAt == now
    ensures forall k :: k in tasks && k != id ==> r[k] == tasks[k]
  {
    tasks[id := Task(id, StatusInProgress, now, now, "")]
  }

  /** The error and the map after `SetStatus(id, status)` at time `now`. */
  function SetStatusStep(tasks: Tasks, id: string, status: TaskStatus, now: Time): (r: (Outcome<TaskError>, Tasks))
    ensures id !in tasks ==> r == (Fail(NotFound), tasks)
    ensures id in tasks ==> r.0 == Pass && r.1.Keys == tasks.Keys
    ensures id in tasks ==> r.1[id].status == status && r.1[id].updatedAt == now
    ensures id in tasks ==> r.1[id].id == tasks[id].id && r.1[id].createdAt == tasks[id].createdAt
                            && r.1[id].result == tasks[id].result
    ensures forall k :: k in tasks && k != id ==> r.1[k] == tasks[k]
  {
    if id !in tasks then (Fail(NotFound), tasks)
    else (Pass, tasks[id := tasks[id].(status := status, updatedAt := now)])
  }

  /** The error and the map after `SetResult(id, result)` at time `now`. */
  function SetResultStep(tasks: Tasks, id: string, result: string, now: Time): (r: (Outcome<TaskError>, Tasks))
    ensures id !in tasks ==> r == (Fail(NotFound), tasks)
    ensures id in tasks ==> r.0 == Pass && r.1.Keys == tasks.Keys
    ensures id in tasks ==> r.1[id].result == result && r.1[id].updatedAt == now
    ensures id in tasks ==> r.1[id].id == tasks[id].id && r.1[id].createdAt == tasks[id].createdAt
                            && r.1[id].status == tasks[id].status
    ensures forall k :: k in tasks && k != id ==> r.1[k] == tasks[k]
  {
    if id !in tasks then (Fail(NotFound), tasks)
    else (Pass, tasks[id := tasks[id].(result := result, updatedAt := now)])
  }

  /** What `GetStatus(id)` answers. */
  function StatusOf(tasks: Tasks, id: string): (r: Result<TaskStatus, TaskError>)
    ensures r.Err? <==> id !in tasks
    ensures r.Err? ==> r.error == NotFound
    ensures r.Ok? ==> r.value == tasks[id].status
  {
    if id !in tasks then Err(NotFound) else Ok(tasks[id].status)
  }

  /** What `GetResult(id)` answers: the result is visible only once the status is ready. */
  function ResultOf(tasks: Tasks, id: string): (r: Result<string, TaskError>)
    ensures r == Err(NotFound) <==> id !in tasks
    ensures r == Err(NotReady) <==> id in tasks && tasks[id].status != StatusReady
    ensures r.Ok? <==> id in tasks && tasks[id].status == StatusReady
    ensures r.Ok? ==> r.value == tasks[id].result
  {
    if id !in tasks then Err(NotFound)
    else if tasks[id].status != StatusReady then Err(NotReady)
    else Ok(tasks[id].result)
  }

  // ---------------------------------------------------------------------------
  // Sequences of writes, as callers issue them one after another.
  // ---------------------------------------------------------------------------

  /** A write to the store, with the time its `time.Now()` reads. */
  datatype TaskOp =
    | CreateOp(id: string, now: Time)
    | SetStatusOp(id: string, status: TaskStatus, now: Time)
    | SetResultOp(id: string, result: string, now: Time)

  function Apply(tasks: Tasks, op: TaskOp): Tasks
  {
    match op
    case CreateOp(id, now) => CreateStep(tasks, id, now)
    case SetStatusOp(id, status, now) => SetStatusStep(tasks, id, status, now).1
    case SetResultOp(id, result, now) => SetResultStep(tasks, id, result, now).1
  }

  /** The map after the writes `ops`, applied in order. */
  function Run(tasks: Tasks, ops: seq<TaskOp>): Tasks
    decreases |ops|
  {
    if ops == [] then tasks else Run(Apply(tasks, ops[0]), ops[1..])
  }

  /** The ids that `CreateTask` calls among `ops` were given. */
  function CreatedIds(ops: seq<TaskOp>): set<string>
    decreases |ops|
  {
    if ops == [] then {}
    else (if ops[0].CreateOp? then {ops[0].id} else {}) + CreatedIds(ops[1..])
  }

  /** True when `op` marks task `id` ready. */
  predicate MarksReady(op: TaskOp, id: string)
  {
    op.SetStatusOp? && op.id == id && op.status == StatusReady
  }

  // ---------------------------------------------------------------------------
  // Properties.
  // ---------------------------------------------------------------------------

  /** No operation deletes a task, and only `CreateTask` adds one. */
  lemma {:induction false} RunKeys(tasks: Tasks, ops: seq<TaskOp>)
    ensures Run(tasks, ops).Keys == tasks.Keys + CreatedIds(ops)
    decreases |ops|
  {
    if ops != [] {
      RunKeys(Apply(tasks, ops[0]), ops[1..]);
    }
  }

  /** A task's creation time is fixed until its id is handed out again by the generator. */
  lemma {:induction false} CreatedAtStable(tasks: Tasks, ops: seq<TaskOp>, id: string)
    requires id in tasks && id !in CreatedIds(ops)
    ensures id in Run(tasks, ops) && Run(tasks, ops)[id].createdAt == tasks[id].createdAt
    ensures Run(tasks, ops)[id].id == tasks[id].id
    decreases |ops|
  {
    if ops != [] {
      CreatedAtStable(Apply(tasks, ops[0]), ops[1..], id);
    }
  }

  /**
   * The read-side contract: a task whose result is not visible stays invisible
   * until some write marks it ready, however many results are written meanwhile.
   */
  lemma {:induction false} ResultHiddenUntilReady(tasks: Tasks, ops: seq<TaskOp>, id: string)
    requires !ResultOf(tasks, id).Ok?
    requires forall i :: 0 <= i < |ops| ==> !MarksReady(ops[i], id)
    ensures !ResultOf(Run(tasks, ops), id).Ok?
    decreases |ops|
  {
    if ops != [] {
      ResultHiddenUntilReady(Apply(tasks, ops[0]), ops[1..], id);
    }
  }

  /** A task just created reports `in_progress` and refuses its result with `NotReady`. */
  lemma CreatedIsInProgress(tasks: Tasks, id: string, now: Time)
    ensures StatusOf(CreateStep(tasks, id, now), id) == Ok(StatusInProgress)
    ensures ResultOf(CreateStep(tasks, id, now), id) == Err(NotReady)
  {
  }

  /** Create, then write the result, then mark ready: the reader sees exactly that result. */
  lemma {:induction false} CompletionRoundTrip(tasks: Tasks, id: string, result: string, t0: Time, t1: Time, t2: Time)
    ensures ResultOf(Run(tasks, [CreateOp(id, t0), SetResultOp(id, result, t1), SetStatusOp(id, StatusReady, t2)]), id)
            == Ok(result)
  {
    var ops := [CreateOp(id, t0), SetResultOp(id, result, t1), SetStatusOp(id, StatusReady, t2)];
    var m1 := CreateStep(tasks, id, t0);
    var m2 := SetResultStep(m1, id, result, t1).1;
    var m3 := SetStatusStep(m2, id, StatusReady, t2).1;
    assert ops[1..][1..][1..] == [];
    calc {
      Run(tasks, ops);
      Run(m1, ops[1..]);
      Run(m2, ops[1..][1..]);
      Run(m3, ops[1..][1..][1..]);
      m3;
    }
  }

  /** A successful write of a result leaves the answer of `GetStatus` unchanged for every id. */
  lemma SetResultKeepsStatus(tasks: Tasks, id: string, result: string, now: Time, other: string)
    ensures StatusOf(SetResultStep(tasks, id, result, now).1, other) == StatusOf(tasks, other)
  {
  }

  // ---------------------------------------------------------------------------
  // The store itself.
  // ---------------------------------------------------------------------------

  class InMemoryTaskStore {
    var tasks: Tasks

    /** `NewInMemoryTaskStore`: an empty map. */
    constructor ()
      ensures tasks == map[]
    {
      tasks := map[];
    }

    /** `CreateTask`: `id` is what the id generator returned, `now` the clock. Never fails. */
    method CreateTask(id: string, now: Time) returns (taskId: string)
      modifies this
      ensures taskId == id
      ensures tasks == CreateStep(old(tasks), id, now)
    {
      tasks := tasks[id := Task(id, StatusInProgress, now, now, "")];
      taskId := id;
    }

    method SetStatus(id: string, status: TaskStatus, now: Time) returns (err: Outcome<TaskError>)
      modifies this
      ensures (err, tasks) == SetStatusStep(old(tasks), id, status, now)
    {
      if id !in tasks {
        return Fail(NotFound);
      }
      var t := tasks[id];
      t := t.(status := status);
      t := t.(updatedAt := now);
      tasks := tasks[id := t];
      err := Pass;
    }

    method SetResult(id: string, result: string, now: Time) returns (err: Outcome<TaskError>)
      modifies this
      ensures (err, tasks) == SetResultStep(old(tasks), id, result, now)
    {
      if id !in tasks {
        return Fail(NotFound);
      }
      var t := tasks[id];
      t := t.(result := result);
      t := t.(updatedAt := now);
      tasks := tasks[id := t];
      err := Pass;
    }

    method GetStatus(id: string) returns (r: Result<TaskStatus, TaskError>)
      ensures r.Err? <==> id !in tasks
      ensures r.Err? ==> r.error == NotFound
      ensures r.Ok? ==> r.value == tasks[id].status
    {
      if id !in tasks {
        return Err(NotFound);
      }
      r := Ok(tasks[id].status);
    }

    method GetResult(id: string) returns (r: Result<string, TaskError>)
      ensures r == ResultOf(tasks, id)
    {
      if id !in tasks {
        return Err(NotFound);
      }
      var t := tasks[id];
      if t.status != StatusReady {
        return Err(NotReady);
      }
      r := Ok(t.result);
    }
  }

  /**
   * The effect of the background worker the task handler spawns per task:
   * write the payload, then mark the task ready (both writes ignore their error).
   */
  method CompleteTask(store: InMemoryTaskStore, id: string, payload: string, t1: Time, t2: Time)
    modifies store
    ensures store.tasks == Run(old(store.tasks), [SetResultOp(id, payload, t1), SetStatusOp(id, StatusReady, t2)])
    ensures id in old(store.tasks) ==> ResultOf(store.tasks, id) == Ok(payload)
    ensures id !in old(store.tasks) ==> store.tasks == old(store.tasks)
  {
    ghost var before := store.tasks;
    var _ := store.SetResult(id, payload, t1);
    ghost var middle := store.tasks;
    var _ := store.SetStatus(id, StatusReady, t2);
    ghost var ops := [SetResultOp(id, payload, t1), SetStatusOp(id, StatusReady, t2)];
    assert ops[1..][1..] == [];
    assert Run(before, ops) == Run(middle, ops[1..]);
  }

  /**
   * Creating a task, reading it at once, then letting the worker finish:
   * the first read is refused with `NotReady`, the last one sees the payload.
   */
  method TaskLifecycle(id: string, payload: string, t0: Time, t1: Time, t2: Time)
    returns (status: Result<TaskStatus, TaskError>, early: Result<string, TaskError>, late: Result<string, TaskError>)
    ensures status == Ok(StatusInProgress)
    ensures early == Err(NotReady)
    ensures late == Ok(payload)
  {
    var store := new InMemoryTaskStore();
    var taskId := store.CreateTask(id, t0);
    status := store.GetStatus(taskId);
    early := store.GetResult(taskId);
    CompleteTask(store, taskId, payload, t1, t2);
    late := store.GetResult(taskId);
  }
}
