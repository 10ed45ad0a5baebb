/**
 * The in-process background task engine (`services/task_service.py`).
 *
 * The engine keeps a registry of task records keyed by id, a FIFO queue of
 * task ids waiting for a worker, and the durable `Task` rows of the
 * database. Worker threads are replaced by one atomic `Step`: it dequeues the
 * oldest id and runs the task, whose callable's outcome (a returned value or a
 * raised error) is a parameter. Clock readings and generated ids are
 * parameters too.
 */
module TaskService {
  import opened Wrappers

  datatype TaskStatus = Pending | Running | Completed | Failed | Cancelled

  /** The statuses `cleanup_old_tasks` may delete. */
  predicate IsFinal(s: TaskStatus) {
    s == Completed || s == Failed || s == Cancelled
  }

  /** An entry of the in-memory registry `_tasks`. */
  datatype TaskInfo = TaskInfo(
    name: string,
    description: Option<string>,
    status: TaskStatus,
    createdAt: int,
    updatedAt: int,
    userId: Option<int>,
    notifyUser: bool,
    error: Option<string>,
    result: Option<string>
  )

  /** A durable `Task` row as the engine writes it. */
  datatype TaskRow = TaskRow(
    name: string,
    description: Option<string>,
    status: TaskStatus,
    userId: Option<int>,
    createdAt: int,
    updatedAt: int,
    completedAt: Option<int>,
    error: Option<string>
  )

  /** What the task's callable did when a worker ran it. */
  datatype Outcome = Returns(value: string) | Raises(message: string)

  /** A completion notification sent to the task's owner. */
  datatype Notice = Notice(userId: Option<int>, succeeded: bool)

  /** The dictionary returned by `get_task_status`. */
  datatype StatusView = StatusView(
    id: string,
    name: string,
    status: TaskStatus,
    createdAt: int,
    updatedAt: int,
    error: Option<string>,
    result: Option<string>
  )

  /** The dictionary returned by `get_queue_stats`. */
  datatype QueueStats = QueueStats(
    total: nat,
    pending: nat,
    running: nat,
    completed: nat,
    failed: nat,
    cancelled: nat,
    queueSize: nat,
    activeWorkers: nat
  )

  const MaxWorkers: nat := 3
  const SecondsPerDay: int := 86400

  /**
   * The durable row after `_update_task_status(id, status)` at time `now`,
   * where `error` is the registry entry's error, if it has one.
   */
  function RowAfterStatus(row: TaskRow, status: TaskStatus, now: int, error: Option<string>): (r: TaskRow)
    ensures r.status == status && r.updatedAt == now
    ensures r.completedAt == if status == Completed then Some(now) else row.completedAt
    ensures r.error == if error.Some? then error else row.error
    ensures r.name == row.name && r.userId == row.userId && r.createdAt == row.createdAt
  {
    row.(status := status, updatedAt := now,
         completedAt := if status == Completed then Some(now) else row.completedAt,
         error := if error.Some? then error else row.error)
  }

  /** The registry entry after a worker ran it with the given outcome. */
  function InfoAfterRun(t: TaskInfo, outcome: Outcome, now: int): (r: TaskInfo)
    ensures r.status == (if outcome.Returns? then Completed else Failed)
    ensures r.updatedAt == now
    ensures outcome.Returns? ==> r.result == Some(outcome.value) && r.error == t.error
    ensures outcome.Raises? ==> r.error == Some(outcome.message) && r.result == t.result
  {
    match outcome
    case Returns(v) => t.(result := Some(v), status := Completed, updatedAt := now)
    case Raises(e) => t.(error := Some(e), status := Failed, updatedAt := now)
  }

  /** The durable row after a worker ran its task: `running`, then the final status. */
  function RowAfterRun(row: TaskRow, t: TaskInfo, outcome: Outcome, now: int): (r: TaskRow)
    ensures r.status == (if outcome.Returns? then Completed else Failed) && r.updatedAt == now
    ensures r.completedAt == if outcome.Returns? then Some(now) else row.completedAt
    ensures outcome.Raises? ==> r.error == Some(outcome.message)
  {
    var running := RowAfterStatus(row, Running, now, t.error);
    var done := InfoAfterRun(t, outcome, now);
    RowAfterStatus(running, done.status, now, done.error)
  }

  /** `updated_at < cutoff` and a final status: what `cleanup_old_tasks` deletes. */
  predicate Stale(status: TaskStatus, updatedAt: int, cutoff: int) {
    updatedAt < cutoff && IsFinal(status)
  }

  /** The rows `get_user_tasks` selects before ordering and limiting. */
  predicate Selected(row: TaskRow, userId: int, status: Option<TaskStatus>) {
    row.userId == Some(userId) && (status.None? || row.status == status.value)
  }

  /** The registered ids with status `s`. */
  function WithStatus(tasks: map<string, TaskInfo>, s: TaskStatus): (ids: set<string>)
    ensures forall id :: id in ids <==> id in tasks && tasks[id].status == s
  {
    set id | id in tasks && tasks[id].status == s
  }

  function CountStatus(tasks: map<string, TaskInfo>, s: TaskStatus): nat
  {
    |WithStatus(tasks, s)|
  }

  /** The five status counts always add up to the number of registered tasks. */
  lemma CountsPartition(tasks: map<string, TaskInfo>)
    ensures CountStatus(tasks, Pending) + CountStatus(tasks, Running) + CountStatus(tasks, Completed)
            + CountStatus(tasks, Failed) + CountStatus(tasks, Cancelled) == |tasks|
  {
    var a1 := AddStatus(tasks, {}, {}, Pending);
    var a2 := AddStatus(tasks, a1, {Pending}, Running);
    var a3 := AddStatus(tasks, a2, {Pending, Running}, Completed);
    var a4 := AddStatus(tasks, a3, {Pending, Running, Completed}, Failed);
    var a5 := AddStatus(tasks, a4, {Pending, Running, Completed, Failed}, Cancelled);
    assert a5 == tasks.Keys;
  }

  /** The ids whose status is in `done`, extended by those with status `s`, counted. */
  lemma AddStatus(tasks: map<string, TaskInfo>, acc: set<string>, done: set<TaskStatus>, s: TaskStatus) returns (acc': set<string>)
    requires s !in done
    requires forall id :: id in acc <==> id in tasks && tasks[id].status in done
    ensures |acc'| == |acc| + CountStatus(tasks, s)
    ensures forall id :: id in acc' <==> id in tasks && tasks[id].status in done + {s}
  {
    acc' := acc + WithStatus(tasks, s);
    DisjointUnion(acc, WithStatus(tasks, s));
  }

  lemma {:induction false} DisjointUnion<T>(a: set<T>, b: set<T>)
    requires a !! b
    ensures |a + b| == |a| + |b|
  {
    if a != {} {
      var x :| x in a;
      DisjointUnion(a - {x}, b);
      assert a + b == (a - {x}) + b + {x};
    }
  }

  /** A map that differs from `m` at most at `k` is `m` with `k` set to its value there. */
  lemma SameKeyUpdates<K, V>(m: map<K, V>, m': map<K, V>, k: K)
    requires k in m'
    requires m'.Keys == m.Keys + {k}
    requires forall x :: x in m && x != k ==> m'[x] == m[x]
    ensures m' == m[k := m'[k]]
  {
  }

  /** The query of `get_user_tasks` over the durable rows: selected, latest first, at most `limit`. */
  method LatestFirst(rows: map<string, TaskRow>, userId: int, status: Option<TaskStatus>, limit: nat) returns (r: seq<string>)
    ensures |r| <= limit
    ensures forall i :: 0 <= i < |r| ==> r[i] in rows && Selected(rows[r[i]], userId, status)
    ensures forall i, j :: 0 <= i < j < |r| ==> r[i] != r[j]
    ensures forall i, j :: 0 <= i < j < |r| ==> rows[r[i]].createdAt >= rows[r[j]].createdAt
    ensures forall id :: id in rows && Selected(rows[id], userId, status) && id !in r ==>
      |r| == limit && forall i :: 0 <= i < |r| ==> rows[id].createdAt <= rows[r[i]].createdAt
  {
    var pool := set id | id in rows && Selected(rows[id], userId, status);
    r := [];
    while |r| < limit && pool != {}
      invariant |r| <= limit
      invariant Picked(rows, userId, status, pool, r)
      decreases pool
    {
      ghost var best := Latest(pool, rows);
      var m :| m in pool && forall y :: y in pool ==> rows[y].createdAt <= rows[m].createdAt;
      PickedStep(rows, userId, status, pool, r, m);
      r := r + [m];
      pool := pool - {m};
    }
  }

  /**
   * The loop state of `LatestFirst`: `r` holds distinct selected ids, latest
   * first, none later than what is left in `pool`; every selected id is in
   * one of the two.
   */
  ghost predicate Picked(rows: map<string, TaskRow>, userId: int, status: Option<TaskStatus>, pool: set<string>, r: seq<string>) {
    && pool <= rows.Keys
    && (forall id :: id in pool ==> Selected(rows[id], userId, status))
    && (forall i :: 0 <= i < |r| ==> r[i] in rows && Selected(rows[r[i]], userId, status) && r[i] !in pool)
    && (forall i, j :: 0 <= i < j < |r| ==> r[i] != r[j])
    && (forall i, j :: 0 <= i < j < |r| ==> rows[r[i]].createdAt >= rows[r[j]].createdAt)
    && (forall i, y :: 0 <= i < |r| && y in pool ==> rows[y].createdAt <= rows[r[i]].createdAt)
    && (forall id :: id in rows && Selected(rows[id], userId, status) ==> id in pool || id in r)
  }

  /** Moving a latest id of the pool to the end of `r` keeps the loop state. */
  lemma PickedStep(rows: map<string, TaskRow>, userId: int, status: Option<TaskStatus>, pool: set<string>, r: seq<string>, m: string)
    requires Picked(rows, userId, status, pool, r)
    requires m in pool && forall y :: y in pool ==> rows[y].createdAt <= rows[m].createdAt
    ensures Picked(rows, userId, status, pool - {m}, r + [m])
  {
  }

  /** Some id in a non-empty set has the latest `created_at`. */
  lemma {:induction false} Latest(pool: set<string>, rows: map<string, TaskRow>) returns (m: string)
    requires pool != {} && pool <= rows.Keys
    ensures m in pool
    ensures forall y :: y in pool ==> rows[y].createdAt <= rows[m].createdAt
  {
    var x :| x in pool;
    if pool == {x} {
      m := x;
    } else {
      var other := Latest(pool - {x}, rows);
      m := if rows[x].createdAt <= rows[other].createdAt then other else x;
    }
  }

  class TaskEngine {
    var tasks: map<string, TaskInfo>
    var queue: seq<string>
    var rows: map<string, TaskRow>
    var notices: seq<Notice>

    /**
     * Between steps: the queue holds each id at most once, no task is left
     * `running`, a queued task that is still registered has not been run, and
     * a registered task has a result iff it completed and an error iff it failed.
     */
    ghost predicate Valid()
      reads this
    {
      (forall i, j :: 0 <= i < j < |queue| ==> queue[i] != queue[j])
      && (forall id :: id in tasks ==> tasks[id].status != Running)
      && (forall id :: id in tasks ==> (tasks[id].result.Some? <==> tasks[id].status == Completed))
      && (forall id :: id in tasks ==> (tasks[id].error.Some? <==> tasks[id].status == Failed))
      && (forall i :: 0 <= i < |queue| && queue[i] in tasks ==>
            tasks[queue[i]].status == Pending || tasks[queue[i]].status == Cancelled)
    }

    constructor ()
      ensures Valid()
      ensures tasks == map[] && queue == [] && rows == map[] && notices == []
    {
      tasks, queue, rows, notices := map[], [], map[], [];
    }

    /**
     * `_update_task_status`: no check of the current status. An unknown id
     * changes nothing; otherwise the registry entry and, when it exists, the
     * durable row get the new status and `now`.
     */
    method UpdateStatus(id: string, status: TaskStatus, now: int)
      modifies this
      ensures id !in old(tasks) ==> tasks == old(tasks) && rows == old(rows)
      ensures id in old(tasks) ==>
        tasks == old(tasks)[id := old(tasks[id]).(status := status, updatedAt := now)]
      ensures id in old(tasks) && id in old(rows) ==>
        rows == old(rows)[id := RowAfterStatus(old(rows[id]), status, now, old(tasks[id].error))]
      ensures id in old(tasks) && id !in old(rows) ==> rows == old(rows)
      ensures queue == old(queue) && notices == old(notices)
    {
      if id in tasks {
        var t := tasks[id];
        tasks := tasks[id := t.(status := status, updatedAt := now)];
        if id in rows {
          rows := rows[id := RowAfterStatus(rows[id], status, now, t.error)];
        }
      }
    }

    /**
     * `submit_task` with the generated id `id`. The registry entry is written
     * first; only when the durable insert commits is the id enqueued and
     * returned. A failed commit leaves a pending entry that never runs.
     */
    method Submit(id: string, name: string, description: Option<string>, userId: Option<int>,
                  notifyUser: bool, now: int, committed: bool) returns (r: Option<string>)
      requires Valid()
      requires id !in tasks && id !in rows && id !in queue
      modifies this
      ensures Valid()
      ensures tasks == old(tasks)[id := TaskInfo(name, description, Pending, now, now, userId, notifyUser, None, None)]
      ensures committed ==> r == Some(id) && queue == old(queue) + [id]
      ensures committed ==> rows == old(rows)[id := TaskRow(name, description, Pending, userId, now, now, None, None)]
      ensures !committed ==> r == None && queue == old(queue) && rows == old(rows)
      ensures notices == old(notices)
    {
      tasks := tasks[id := TaskInfo(name, description, Pending, now, now, userId, notifyUser, None, None)];
      if !committed {
        return None;
      }
      rows := rows[id := TaskRow(name, description, Pending, userId, now, now, None, None)];
      queue := queue + [id];
      r := Some(id);
    }

    /**
     * `_execute_task`: the task is moved to `running` whatever its status, so
     * a cancelled task runs too. If its registry entry was already removed,
     * the failing lookup ends the execution and nothing changes.
     */
    method Execute(id: string, outcome: Outcome, now: int)
      modifies this
      ensures id !in old(tasks) ==> tasks == old(tasks) && rows == old(rows) && notices == old(notices)
      ensures id in old(tasks) ==> tasks == old(tasks)[id := InfoAfterRun(old(tasks[id]), outcome, now)]
      ensures id in old(tasks) && id in old(rows) ==>
        rows == old(rows)[id := RowAfterRun(old(rows[id]), old(tasks[id]), outcome, now)]
      ensures id in old(tasks) && id !in old(rows) ==> rows == old(rows)
      ensures id in old(tasks) ==>
        notices == old(notices) + (if old(tasks[id].notifyUser) then [Notice(old(tasks[id].userId), outcome.Returns?)] else [])
      ensures queue == old(queue)
    {
      if id !in tasks {
        return;
      }
      var t := tasks[id];
      ghost var tasks0, rows0 := tasks, rows;
      UpdateStatus(id, Running, now);
      match outcome {
        case Returns(v) =>
          tasks := tasks[id := tasks[id].(result := Some(v))];
          UpdateStatus(id, Completed, now);
        case Raises(e) =>
          tasks := tasks[id := tasks[id].(error := Some(e))];
          UpdateStatus(id, Failed, now);
      }
      assert tasks[id] == InfoAfterRun(t, outcome, now);
      SameKeyUpdates(tasks0, tasks, id);
      if id in rows0 {
        assert rows[id] == RowAfterRun(rows0[id], t, outcome, now);
        SameKeyUpdates(rows0, rows, id);
      }
      if t.notifyUser {
        notices := notices + [Notice(t.userId, outcome.Returns?)];
      }
    }

    /** One worker iteration: dequeue the oldest id, if any, and execute it. */
    method Step(outcome: Outcome, now: int) returns (ran: bool)
      requires Valid()
      modifies this
      ensures Valid()
      ensures ran == (old(queue) != [])
      ensures !ran ==> queue == old(queue) && tasks == old(tasks) && rows == old(rows) && notices == old(notices)
      ensures ran ==> queue == old(queue[1..])
      ensures ran && old(queue[0]) !in old(tasks) ==>
        tasks == old(tasks) && rows == old(rows) && notices == old(notices)
      ensures ran && old(queue[0]) in old(tasks) ==>
        tasks == old(tasks)[old(queue[0]) := InfoAfterRun(old(tasks[queue[0]]), outcome, now)]
      ensures ran && old(queue[0]) in old(tasks) && old(queue[0]) in old(rows) ==>
        rows == old(rows)[old(queue[0]) := RowAfterRun(old(rows[queue[0]]), old(tasks[queue[0]]), outcome, now)]
      ensures ran && old(queue[0]) in old(tasks) && old(queue[0]) !in old(rows) ==> rows == old(rows)
      ensures ran && old(queue[0]) in old(tasks) ==>
        notices == old(notices) + (if old(tasks[queue[0]].notifyUser)
                                   then [Notice(old(tasks[queue[0]].userId), outcome.Returns?)] else [])
    {
      if queue == [] {
        return false;
      }
      ran := true;
      var id := queue[0];
      queue := queue[1..];
      assert forall i :: 0 <= i < |queue| ==> queue[i] == old(queue)[i + 1] && queue[i] != id;
      Execute(id, outcome, now);
      assert forall k :: k in tasks && k != id ==> tasks[k] == old(tasks)[k];
    }

    /** `get_task_status`: `None` for an unknown id, else the entry's fields. */
    function GetTaskStatus(id: string): (r: Option<StatusView>)
      reads this
      ensures r.None? <==> id !in tasks
      ensures r.Some? ==> r.value.id == id && r.value.name == tasks[id].name
      ensures r.Some? ==> r.value.status == tasks[id].status && r.value.error == tasks[id].error
      ensures r.Some? ==> r.value.result == tasks[id].result
      ensures r.Some? ==> r.value.createdAt == tasks[id].createdAt && r.value.updatedAt == tasks[id].updatedAt
    {
      if id in tasks then
        var t := tasks[id];
        Some(StatusView(id, t.name, t.status, t.createdAt, t.updatedAt, t.error, t.result))
      else None
    }

    /**
     * `get_user_tasks`: the ids of the user's durable rows (with the given
     * status, if one is given), latest `created_at` first, at most `limit`.
     */
    method GetUserTasks(userId: int, status: Option<TaskStatus>, limit: nat) returns (r: seq<string>)
      ensures |r| <= limit
      ensures forall i :: 0 <= i < |r| ==> r[i] in rows && Selected(rows[r[i]], userId, status)
      ensures forall i, j :: 0 <= i < j < |r| ==> r[i] != r[j]
      ensures forall i, j :: 0 <= i < j < |r| ==> rows[r[i]].createdAt >= rows[r[j]].createdAt
      ensures forall id :: id in rows && Selected(rows[id], userId, status) && id !in r ==>
        |r| == limit && forall i :: 0 <= i < |r| ==> rows[id].createdAt <= rows[r[i]].createdAt
    {
      r := LatestFirst(rows, userId, status, limit);
    }

    /** `cancel_task`: only a registered `pending` task is cancelled. */
    method Cancel(id: string, now: int) returns (ok: bool)
      requires Valid()
      modifies this
      ensures Valid()
      ensures ok == (id in old(tasks) && old(tasks[id].status) == Pending)
      ensures ok ==> tasks == old(tasks)[id := old(tasks[id]).(status := Cancelled, updatedAt := now)]
      ensures ok && id in old(rows) ==>
        rows == old(rows)[id := RowAfterStatus(old(rows[id]), Cancelled, now, old(tasks[id].error))]
      ensures !ok || id !in old(rows) ==> rows == old(rows)
      ensures !ok ==> tasks == old(tasks)
      ensures queue == old(queue) && notices == old(notices)
    {
      if id !in tasks {
        return false;
      }
      if tasks[id].status == Pending {
        UpdateStatus(id, Cancelled, now);
        return true;
      }
      return false;
    }

    /**
     * `cleanup_old_tasks(days)`: deletes the durable rows and the registry
     * entries whose status is final and whose `updated_at` is before
     * `now - days`; returns the number of deleted rows.
     */
    method Cleanup(days: int, now: int) returns (deleted: nat)
      requires Valid()
      modifies this
      ensures Valid()
      ensures deleted == |set id | id in old(rows) && Stale(old(rows[id]).status, old(rows[id]).updatedAt, now - days * SecondsPerDay)|
      ensures forall id :: id in rows <==>
        id in old(rows) && !Stale(old(rows[id]).status, old(rows[id]).updatedAt, now - days * SecondsPerDay)
      ensures forall id :: id in rows ==> rows[id] == old(rows[id])
      ensures forall id :: id in tasks <==>
        id in old(tasks) && !Stale(old(tasks[id]).status, old(tasks[id]).updatedAt, now - days * SecondsPerDay)
      ensures forall id :: id in tasks ==> tasks[id] == old(tasks[id])
      ensures queue == old(queue) && notices == old(notices)
    {
      var cutoff := now - days * SecondsPerDay;
      var doomedRows := set id | id in rows && Stale(rows[id].status, rows[id].updatedAt, cutoff);
      deleted := |doomedRows|;
      rows := map id | id in rows && id !in doomedRows :: rows[id];
      var doomed := set id | id in tasks && Stale(tasks[id].status, tasks[id].updatedAt, cutoff);
      var kept := tasks;
      var left := doomed;
      while left != {}
        invariant left <= doomed
        invariant forall id :: id in kept <==> id in tasks && (id !in doomed || id in left)
        invariant forall id :: id in kept ==> kept[id] == tasks[id]
        decreases left
      {
        var id :| id in left;
        kept := kept - {id};
        left := left - {id};
      }
      tasks := kept;
    }

    /** `get_queue_stats`: per-status counts of the registry and the queue length. */
    function Stats(): (s: QueueStats)
      reads this
      ensures s.total == |tasks| && s.queueSize == |queue| && s.activeWorkers == MaxWorkers
      ensures s.pending + s.running + s.completed + s.failed + s.cancelled == s.total
      ensures s.pending == |WithStatus(tasks, Pending)| && s.running == |WithStatus(tasks, Running)|
      ensures s.completed == |WithStatus(tasks, Completed)| && s.failed == |WithStatus(tasks, Failed)|
      ensures s.cancelled == |WithStatus(tasks, Cancelled)|
    {
      CountsPartition(tasks);
      QueueStats(|tasks|, CountStatus(tasks, Pending), CountStatus(tasks, Running),
                 CountStatus(tasks, Completed), CountStatus(tasks, Failed),
                 CountStatus(tasks, Cancelled), |queue|, MaxWorkers)
    }
  }

  /** Between steps the registry holds no `running` task. */
  lemma NoneRunningBetweenSteps(e: TaskEngine)
    requires e.Valid()
    ensures e.Stats().running == 0
  {
    assert WithStatus(e.tasks, Running) == {};
  }
}
