/**
 A row of the task table, and the six writes the package makes to one.

 Every write is a function from the stored row (and, where the code uses it,
 the writer's own possibly stale copy) to the row that is stored afterwards.
 The protocol, the backend and the executor all use these definitions.
 Times are integers; ids and JSON values are opaque.
 */
module Rows {
  import opened Options

  type TaskId = nat
  type Value = string

  datatype Status = Ready | Running | Successful | Failed

  /** An entry of errors_json: an exception, or the record that a worker was lost. */
  datatype TaskError =
    | Raised(path: string)
    | WorkerLost(worker: Option<string>, lastAttemptedAt: Option<int>, cutoff: int, attempts: nat)

  datatype Row = Row(
    path: string,
    queue: string,
    backend: string,
    priority: int,
    runAfter: Option<int>,
    enqueuedAt: int,
    status: Status,
    startedAt: Option<int>,
    lastAttemptedAt: Option<int>,
    finishedAt: Option<int>,
    returnValue: Option<Value>,
    errors: seq<TaskError>,
    workerIds: seq<string>
  ) {
    /** No worker has had it, and nothing came of it. */
    predicate Unattempted() {
      && startedAt.None? && lastAttemptedAt.None? && finishedAt.None?
      && returnValue.None? && errors == [] && workerIds == []
    }

    predicate Completed() {
      status.Successful? || status.Failed?
    }
  }

  /** The row enqueue() creates. */
  function NewRow(path: string, queue: string, backend: string, priority: int, runAfter: Option<int>, now: int): Row {
    Row(path, queue, backend, priority, runAfter, now, Ready, None, None, None, None, [], [])
  }

  /** A worker id is recorded only when it is not empty. */
  function WithWorker(ids: seq<string>, wid: string): seq<string> {
    if wid == "" then ids else ids + [wid]
  }

  /** The claiming UPDATE: the list and the start time come from the row the SELECT read. */
  function ClaimedRow(row: Row, stored: Row, wid: string, now: int): Row {
    row.(status := Running,
         startedAt := if stored.startedAt.Some? then stored.startedAt else Some(now),
         lastAttemptedAt := Some(now),
         workerIds := WithWorker(stored.workerIds, wid))
  }

  /** The finishing write of a run that returned. */
  function SucceededRow(row: Row, value: Value, now: int): Row {
    row.(status := Successful, returnValue := Some(value), finishedAt := Some(now))
  }

  /** The finishing write of a run that raised: the errors come from the writer's copy. */
  function FailedRow(row: Row, copyErrors: seq<TaskError>, error: TaskError, now: int): Row {
    row.(status := Failed, errors := copyErrors + [error], finishedAt := Some(now))
  }

  /** The retry of a failed task. */
  function RetriedRow(row: Row): Row {
    row.(status := Ready, finishedAt := None)
  }

  /** Recovery: back in the queue, keeping the worker ids. */
  function RequeuedRow(row: Row): Row {
    row.(status := Ready, startedAt := None, finishedAt := None, returnValue := None)
  }

  function LostError(copy: Row, cutoff: int): TaskError {
    WorkerLost(if copy.workerIds == [] then None else Some(copy.workerIds[|copy.workerIds| - 1]),
               copy.lastAttemptedAt, cutoff, |copy.workerIds|)
  }

  /** Recovery: given up on, with the lost worker recorded after the copy's errors. */
  function GivenUpRow(row: Row, copy: Row, cutoff: int, now: int): Row {
    row.(status := Failed, errors := copy.errors + [LostError(copy, cutoff)], finishedAt := Some(now))
  }

  /** What recovery looks for: RUNNING, and last attempted before the cutoff. */
  predicate Stale(row: Row, cutoff: int) {
    row.status.Running? && row.lastAttemptedAt.Some? && row.lastAttemptedAt.value < cutoff
  }

  /** Recovery may be told to fail every task; otherwise, those that had their attempts, if these are limited. */
  predicate IsGivenUpOn(copy: Row, maxAttempts: nat, markFailed: bool) {
    markFailed || (maxAttempts != 0 && |copy.workerIds| >= maxAttempts)
  }

  /** The row as recovery leaves it. */
  function RecoveredRow(row: Row, copy: Row, maxAttempts: nat, markFailed: bool, cutoff: int, now: int): Row {
    if IsGivenUpOn(copy, maxAttempts, markFailed) then GivenUpRow(row, copy, cutoff, now) else RequeuedRow(row)
  }
}
