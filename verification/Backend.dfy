/** The table and the backend that claims and runs its tasks. */
module Backend {
  import opened Options
  import opened Rows

  /**
   How a run ends: the task returns, the task (or starting it) raises, or the
   task returns and a receiver of task_finished raises after the result was saved.
   */
  datatype Outcome =
    | Returned(value: Value)
    | RaisedError(path: string)
    | ReceiverRaised(value: Value, path: string)

  /** The row the finishing writes of a run leave. */
  function FinishedRow(row: Row, copyErrors: seq<TaskError>, outcome: Outcome, now: int): Row {
    match outcome
    case Returned(value) => SucceededRow(row, value, now)
    case RaisedError(path) => FailedRow(row, copyErrors, Raised(path), now)
    case ReceiverRaised(value, path) => FailedRow(SucceededRow(row, value, now), row.errors, Raised(path), now)
  }

  /** The row after a worker with an up-to-date copy claims it and runs it. */
  function RanRow(row: Row, wid: string, outcome: Outcome, now: int): Row {
    FinishedRow(ClaimedRow(row, row, wid, now), row.errors, outcome, now)
  }

  /** A worker's own copy of a row, updated as it works. */
  class DatabaseTask {
    const id: TaskId
    var row: Row

    constructor (id: TaskId, row: Row)
      ensures this.id == id && this.row == row
    {
      this.id := id;
      this.row := row;
    }
  }

  class TaskTable {
    var rows: map<TaskId, Row>

    constructor ()
      ensures rows == map[]
    {
      rows := map[];
    }

    /** Saves a new task under an id not used before: READY, never attempted, and the only row that changes. */
    method Enqueue(id: TaskId, path: string, queue: string, backend: string, priority: int, runAfter: Option<int>,
                   now: int)
      requires id !in rows
      modifies this
      ensures rows.Keys == old(rows).Keys + {id} && forall other :: other in old(rows) ==>
        rows[other] == old(rows)[other]
      ensures rows[id].status.Ready? && rows[id].Unattempted() && rows[id].enqueuedAt == now
      ensures rows[id].path == path && rows[id].queue == queue && rows[id].backend == backend
      ensures rows[id].priority == priority && rows[id].runAfter == runAfter
    {
      rows := rows[id := NewRow(path, queue, backend, priority, runAfter, now)];
    }

    /** Moves a READY row to RUNNING. Nothing is written otherwise. */
    method ClaimTask(task: DatabaseTask, wid: string, now: int) returns (claimed: bool)
      modifies this, task
      ensures claimed == (task.id in old(rows) && old(rows)[task.id].status.Ready?)
      ensures claimed ==>
        && rows == old(rows)[task.id := ClaimedRow(old(rows)[task.id], old(rows)[task.id], wid, now)]
        && task.row == ClaimedRow(old(task.row), old(rows)[task.id], wid, now)
        && var stored := old(rows)[task.id];
        && rows[task.id] == stored.(status := Running, lastAttemptedAt := Some(now),
             startedAt := if stored.startedAt.Some? then stored.startedAt else Some(now),
             workerIds := if wid == "" then stored.workerIds else stored.workerIds + [wid])
        && task.row == old(task.row).(status := Running, lastAttemptedAt := Some(now),
             startedAt := rows[task.id].startedAt, workerIds := rows[task.id].workerIds)
      ensures !claimed ==> rows == old(rows) && task.row == old(task.row)
    {
      if task.id !in rows || !rows[task.id].status.Ready? {
        return false;
      }
      var stored := rows[task.id];
      rows := rows[task.id := ClaimedRow(rows[task.id], stored, wid, now)];
      task.row := ClaimedRow(task.row, stored, wid, now);
      return true;
    }

    /** Marks the row FAILED with the error after the copy's errors; a deleted row cannot be saved. */
    method RecordError(task: DatabaseTask, path: string, now: int) returns (saved: bool)
      modifies this, task
      ensures saved == (task.id in old(rows))
      ensures rows == if saved
        then old(rows)[task.id := FailedRow(old(rows)[task.id], old(task.row).errors, Raised(path), now)]
        else old(rows)
      ensures saved ==> task.row == rows[task.id] == old(rows)[task.id].(status := Failed,
        errors := old(task.row).errors + [Raised(path)], finishedAt := Some(now))
    {
      var errors := task.row.errors;
      task.row := FailedRow(task.row, errors, Raised(path), now);
      if task.id !in rows {
        return false;
      }
      rows := rows[task.id := FailedRow(rows[task.id], errors, Raised(path), now)];
      task.row := rows[task.id];
      return true;
    }

    /**
     Runs a claimed task. The writes look at no status: whatever the row has
     become meanwhile, it is overwritten. None when the row was deleted, which
     the caller sees as an exception.
     */
    method RunClaimedTask(task: DatabaseTask, outcome: Outcome, now: int) returns (result: Option<Row>)
      modifies this, task
      ensures task.id !in old(rows) ==> result.None? && rows == old(rows)
      ensures task.id in old(rows) ==>
        && rows == old(rows)[task.id := FinishedRow(old(rows)[task.id], old(task.row).errors, outcome, now)]
        && result == Some(rows[task.id])
        && task.row == rows[task.id]
        && match outcome
           case Returned(value) =>
             rows[task.id] == old(rows)[task.id].(
               status := Successful, returnValue := Some(value), finishedAt := Some(now))
           case RaisedError(path) =>
             rows[task.id] == old(rows)[task.id].(
               status := Failed, errors := old(task.row).errors + [Raised(path)], finishedAt := Some(now))
           case ReceiverRaised(value, path) =>
             rows[task.id] == old(rows)[task.id].(
               status := Failed, returnValue := Some(value), finishedAt := Some(now),
               errors := old(rows)[task.id].errors + [Raised(path)])
    {
      var saved: bool;
      if outcome.RaisedError? {
        saved := RecordError(task, outcome.path, now);
      } else if task.id !in rows {
        // The save raises, and so does recording that.
        saved := RecordError(task, "django.db.utils.DatabaseError", now);
      } else {
        rows := rows[task.id := SucceededRow(rows[task.id], outcome.value, now)];
        task.row := rows[task.id];
        saved := true;
        if outcome.ReceiverRaised? {
          saved := RecordError(task, outcome.path, now);
        }
      }
      result := if saved then Some(task.row) else None;
    }

    /** Claims and runs; None when the row was no longer READY, and then nothing is written. */
    method RunTask(task: DatabaseTask, wid: string, outcome: Outcome, now: int) returns (result: Option<Row>)
      modifies this, task
      ensures result.Some? == (task.id in old(rows) && old(rows)[task.id].status.Ready?)
      ensures result.None? ==> rows == old(rows) && task.row == old(task.row)
      ensures result.Some? ==>
        var claimed := ClaimedRow(old(rows)[task.id], old(rows)[task.id], wid, now);
        rows == old(rows)[task.id := FinishedRow(claimed, old(task.row).errors, outcome, now)]
        && result.value == rows[task.id]
    {
      var claimed := ClaimTask(task, wid, now);
      if !claimed {
        return None;
      }
      result := RunClaimedTask(task, outcome, now);
    }

    /** Other workers claim any READY rows they like; none does when alone. */
    method OtherWorkersClaim(alone: bool, now: int)
      modifies this
      ensures rows.Keys == old(rows).Keys
      ensures forall id :: id in rows ==> Spared(old(rows)[id], rows[id], alone, now)
    {
      var ids := rows.Keys;
      while ids != {}
        invariant ids <= rows.Keys == old(rows).Keys
        invariant forall id :: id in ids ==> rows[id] == old(rows)[id]
        invariant forall id :: id in rows ==> Spared(old(rows)[id], rows[id], alone, now)
        decreases |ids|
      {
        var id :| id in ids;
        ids := ids - {id};
        var take: bool := *;
        var wid: string := *;
        if take && !alone && rows[id].status.Ready? {
          TakenBy(rows[id], wid, now);
          rows := rows[id := ClaimedRow(rows[id], rows[id], wid, now)];
        }
      }
    }
  }

  /** Another worker claimed the row. */
  ghost predicate Taken(before: Row, after: Row, now: int) {
    before.status.Ready? && exists wid :: after == ClaimedRow(before, before, wid, now)
  }

  lemma TakenBy(row: Row, wid: string, now: int)
    requires row.status.Ready?
    ensures Taken(row, ClaimedRow(row, row, wid, now), now)
  {
  }

  /** What a row is after others had their turn. */
  ghost predicate Spared(before: Row, after: Row, alone: bool, now: int) {
    after == before || (!alone && Taken(before, after, now))
  }
}
