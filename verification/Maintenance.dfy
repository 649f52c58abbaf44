/** Recovery of stale tasks and the purge of completed ones. */
module Maintenance {
  import opened Options
  import opened Rows
  import opened Backend
  import Executor

  /** What recovery selects. An empty queue or backend name means every one. */
  predicate Recoverable(row: Row, queue: string, backend: string, cutoff: int) {
    Stale(row, cutoff) && (queue != "" ==> row.queue == queue) && (backend != "" ==> row.backend == backend)
  }

  function StaleIds(rows: map<TaskId, Row>, queue: string, backend: string, cutoff: int): set<TaskId> {
    set id | id in rows && Recoverable(rows[id], queue, backend, cutoff)
  }

  function GivenUpIds(rows: map<TaskId, Row>, ids: set<TaskId>, maxAttempts: nat, markFailed: bool): set<TaskId> {
    set id | id in ids && id in rows && IsGivenUpOn(rows[id], maxAttempts, markFailed)
  }

  datatype Summary = Summary(found: nat, requeued: nat, failed: nat) {
    /** One more task. */
    function Count(givenUp: bool): Summary {
      if givenUp then Summary(found + 1, requeued, failed + 1) else Summary(found + 1, requeued + 1, failed)
    }
  }

  /** The summary the tasks call for. */
  function Expected(rows: map<TaskId, Row>, ids: set<TaskId>, maxAttempts: nat, markFailed: bool): Summary {
    var failed := GivenUpIds(rows, ids, maxAttempts, markFailed);
    Summary(|ids|, |ids - failed|, |failed|)
  }

  /** The table with the given tasks recovered and nothing else touched. */
  function Recovered(rows: map<TaskId, Row>, ids: set<TaskId>, maxAttempts: nat, markFailed: bool, cutoff: int,
                     now: int): map<TaskId, Row> {
    map id | id in rows ::
      if id in ids then RecoveredRow(rows[id], rows[id], maxAttempts, markFailed, cutoff, now) else rows[id]
  }

  lemma ExpectedOneMore(rows: map<TaskId, Row>, ids: set<TaskId>, id: TaskId, maxAttempts: nat, markFailed: bool)
    requires ids <= rows.Keys && id in rows && id !in ids
    ensures Expected(rows, ids + {id}, maxAttempts, markFailed)
         == Expected(rows, ids, maxAttempts, markFailed).Count(IsGivenUpOn(rows[id], maxAttempts, markFailed))
  {
    var was := GivenUpIds(rows, ids, maxAttempts, markFailed);
    var all := GivenUpIds(rows, ids + {id}, maxAttempts, markFailed);
    if IsGivenUpOn(rows[id], maxAttempts, markFailed) {
      assert all == was + {id};
      assert ids + {id} - all == ids - was;
    } else {
      assert all == was;
      assert ids + {id} - all == ids - was + {id};
    }
  }

  lemma RecoveredOneMore(rows: map<TaskId, Row>, ids: seq<TaskId>, maxAttempts: nat, markFailed: bool, cutoff: int,
                         now: int)
    requires ids != [] && NoRepeats(ids) && ids[0] in rows
    ensures var rest := Recovered(rows, Elements(ids[1..]), maxAttempts, markFailed, cutoff, now);
      && rest[ids[0]] == rows[ids[0]]
      && rest[ids[0] := RecoveredRow(rows[ids[0]], rows[ids[0]], maxAttempts, markFailed, cutoff, now)]
         == Recovered(rows, Elements(ids), maxAttempts, markFailed, cutoff, now)
  {
    assert forall i :: 1 <= i < |ids| ==> ids[i] != ids[0];
    assert ids[0] !in Elements(ids[1..]) && Elements(ids) == Elements(ids[1..]) + {ids[0]};
  }

  /** A recovered row is not stale, so what is left to recover is what was, less the ones done. */
  lemma StillStale(rows: map<TaskId, Row>, done: set<TaskId>, maxAttempts: nat, markFailed: bool,
                   queue: string, backend: string, cutoff: int, now: int)
    requires done <= StaleIds(rows, queue, backend, cutoff)
    ensures StaleIds(Recovered(rows, done, maxAttempts, markFailed, cutoff, now), queue, backend, cutoff)
         == StaleIds(rows, queue, backend, cutoff) - done
  {
  }

  /** Up to n of the ids, those last attempted first, and ties as the database has them. */
  method SelectBatch(rows: map<TaskId, Row>, ids: set<TaskId>, n: nat) returns (batch: seq<TaskId>)
    requires forall id :: id in ids ==> id in rows && rows[id].lastAttemptedAt.Some?
    ensures |batch| == if n < |ids| then n else |ids|
    ensures forall i :: 0 <= i < |batch| ==> batch[i] in ids
    ensures forall i, j :: 0 <= i < j < |batch| ==> batch[i] != batch[j]
    ensures forall i, id :: 0 <= i < |batch| && id in ids && id !in batch ==>
      rows[batch[i]].lastAttemptedAt.value <= rows[id].lastAttemptedAt.value
    ensures n >= |ids| ==> forall id :: id in ids ==> id in batch
  {
    batch := [];
    var left := ids;
    while |batch| < n && left != {}
      invariant left <= ids && |batch| + |left| == |ids| && |batch| <= n
      invariant forall i :: 0 <= i < |batch| ==> batch[i] in ids && batch[i] !in left
      invariant forall id :: id in ids && id !in batch ==> id in left
      invariant forall i, j :: 0 <= i < j < |batch| ==> batch[i] != batch[j]
      invariant forall i, id :: 0 <= i < |batch| && id in left ==>
        rows[batch[i]].lastAttemptedAt.value <= rows[id].lastAttemptedAt.value
      decreases |left|
    {
      OldestExists(rows, left);
      var id :| id in left && forall other :: other in left ==>
        rows[id].lastAttemptedAt.value <= rows[other].lastAttemptedAt.value;
      batch := batch + [id];
      left := left - {id};
    }
  }

  lemma {:induction false} OldestExists(rows: map<TaskId, Row>, ids: set<TaskId>)
    requires ids != {} && forall id :: id in ids ==> id in rows && rows[id].lastAttemptedAt.Some?
    ensures exists id :: id in ids && forall other :: other in ids ==>
      rows[id].lastAttemptedAt.value <= rows[other].lastAttemptedAt.value
    decreases |ids|
  {
    var id :| id in ids;
    if ids == {id} {
    } else {
      OldestExists(rows, ids - {id});
      var best :| best in ids - {id} && forall other :: other in ids - {id} ==>
        rows[best].lastAttemptedAt.value <= rows[other].lastAttemptedAt.value;
      var oldest := if rows[best].lastAttemptedAt.value <= rows[id].lastAttemptedAt.value then best else id;
      assert forall other :: other in ids ==> rows[oldest].lastAttemptedAt.value <= rows[other].lastAttemptedAt.value;
    }
  }

  /** The UPDATE of a requeue: whatever was selected, it writes only a row that is RUNNING. */
  method RequeueTask(db: TaskTable, id: TaskId) returns (done: bool)
    modifies db
    ensures done == (id in old(db.rows) && old(db.rows)[id].status.Running?)
    ensures db.rows == if done then old(db.rows)[id := RequeuedRow(old(db.rows)[id])] else old(db.rows)
  {
    done := id in db.rows && db.rows[id].status.Running?;
    if done {
      db.rows := db.rows[id := RequeuedRow(db.rows[id])];
    }
  }

  /** The UPDATE that gives up: it, too, writes only a row that is RUNNING. */
  method GiveUpOnTask(db: TaskTable, id: TaskId, copy: Row, cutoff: int, now: int) returns (done: bool)
    modifies db
    ensures done == (id in old(db.rows) && old(db.rows)[id].status.Running?)
    ensures db.rows
      == if done then old(db.rows)[id := GivenUpRow(old(db.rows)[id], copy, cutoff, now)] else old(db.rows)
  {
    done := id in db.rows && db.rows[id].status.Running?;
    if done {
      db.rows := db.rows[id := GivenUpRow(db.rows[id], copy, cutoff, now)];
    }
  }

  /** Where recovery is after some tasks: the table, the counts, and the tasks queued again. */
  datatype Recovery = Recovery(rows: map<TaskId, Row>, summary: Summary, requeued: seq<TaskId>)

  /** One task after another. */
  function RecoverAll(rows: map<TaskId, Row>, ids: seq<TaskId>, maxAttempts: nat, markFailed: bool, cutoff: int,
                      now: int): Recovery {
    if ids == [] then Recovery(rows, Summary(0, 0, 0), []) else
    var r := RecoverAll(rows, ids[..|ids| - 1], maxAttempts, markFailed, cutoff, now);
    RecoverNext(r, ids[|ids| - 1], maxAttempts, markFailed, cutoff, now)
  }

  /** One more task, if it is still RUNNING. */
  function RecoverNext(r: Recovery, id: TaskId, maxAttempts: nat, markFailed: bool, cutoff: int, now: int): Recovery {
    if id !in r.rows then r else
    var found := r.summary.(found := r.summary.found + 1);
    if !r.rows[id].status.Running? then
      r.(summary := found)
    else if IsGivenUpOn(r.rows[id], maxAttempts, markFailed) then
      r.(rows := r.rows[id := GivenUpRow(r.rows[id], r.rows[id], cutoff, now)],
         summary := found.(failed := found.failed + 1))
    else
      Recovery(r.rows[id := RequeuedRow(r.rows[id])], found.(requeued := found.requeued + 1), r.requeued + [id])
  }

  predicate NoRepeats(ids: seq<TaskId>) {
    forall i, j :: 0 <= i < j < |ids| ==> ids[i] != ids[j]
  }

  /** The list has no id twice, and has the ids of done that are queued again. */
  ghost predicate ListsRequeued(list: seq<TaskId>, rows: map<TaskId, Row>, done: set<TaskId>, maxAttempts: nat,
                                markFailed: bool)
    requires done <= rows.Keys
  {
    NoRepeats(list) && forall id :: id in list <==> id in done && !IsGivenUpOn(rows[id], maxAttempts, markFailed)
  }

  function Elements(s: seq<TaskId>): set<TaskId> {
    set id | id in s
  }

  predicate AllRunning(rows: map<TaskId, Row>, ids: seq<TaskId>) {
    NoRepeats(ids) && forall id :: id in Elements(ids) ==> id in rows && rows[id].status.Running?
  }

  lemma LastApart(ids: seq<TaskId>)
    requires NoRepeats(ids) && ids != []
    ensures NoRepeats(ids[..|ids| - 1])
    ensures ids[|ids| - 1] !in Elements(ids[..|ids| - 1])
    ensures Elements(ids) == Elements(ids[..|ids| - 1]) + {ids[|ids| - 1]}
  {
    assert ids == ids[..|ids| - 1] + [ids[|ids| - 1]];
  }

  /** In whatever order and batches, each task is recovered as its row asks for. */
  lemma {:induction false} RecoverAllRows(rows: map<TaskId, Row>, ids: seq<TaskId>, maxAttempts: nat, markFailed: bool,
                                          cutoff: int, now: int)
    requires AllRunning(rows, ids)
    ensures RecoverAll(rows, ids, maxAttempts, markFailed, cutoff, now).rows
         == Recovered(rows, Elements(ids), maxAttempts, markFailed, cutoff, now)
  {
    if ids == [] {
    } else {
      LastApart(ids);
      RecoverAllRows(rows, ids[..|ids| - 1], maxAttempts, markFailed, cutoff, now);
    }
  }

  /** The counts after one task and another. */
  function Tally(rows: map<TaskId, Row>, ids: seq<TaskId>, maxAttempts: nat, markFailed: bool): Summary
    requires forall id :: id in ids ==> id in rows
  {
    if ids == [] then Summary(0, 0, 0)
    else
      var earlier := Tally(rows, ids[..|ids| - 1], maxAttempts, markFailed);
      earlier.Count(IsGivenUpOn(rows[ids[|ids| - 1]], maxAttempts, markFailed))
  }

  lemma {:induction false} TallyIsExpected(rows: map<TaskId, Row>, ids: seq<TaskId>, maxAttempts: nat, markFailed: bool)
    requires NoRepeats(ids) && forall id :: id in ids ==> id in rows
    ensures Tally(rows, ids, maxAttempts, markFailed) == Expected(rows, Elements(ids), maxAttempts, markFailed)
  {
    if ids == [] {
      assert GivenUpIds(rows, Elements(ids), maxAttempts, markFailed) == {};
    } else {
      var init, id := ids[..|ids| - 1], ids[|ids| - 1];
      LastApart(ids);
      TallyIsExpected(rows, init, maxAttempts, markFailed);
      ExpectedOneMore(rows, Elements(init), id, maxAttempts, markFailed);
    }
  }

  /** And counted once. */
  lemma {:induction false} RecoverAllCounts(rows: map<TaskId, Row>, ids: seq<TaskId>, maxAttempts: nat,
                                            markFailed: bool, cutoff: int, now: int)
    requires AllRunning(rows, ids) && forall id :: id in ids ==> id in rows
    ensures RecoverAll(rows, ids, maxAttempts, markFailed, cutoff, now).summary
      == Tally(rows, ids, maxAttempts, markFailed)
  {
    if ids == [] {
    } else {
      var init, id := ids[..|ids| - 1], ids[|ids| - 1];
      LastApart(ids);
      RecoverAllRows(rows, init, maxAttempts, markFailed, cutoff, now);
      RecoverAllCounts(rows, init, maxAttempts, markFailed, cutoff, now);
      assert RecoverAll(rows, init, maxAttempts, markFailed, cutoff, now).rows[id] == rows[id];
    }
  }

  lemma RecoverAllExpected(rows: map<TaskId, Row>, ids: seq<TaskId>, maxAttempts: nat, markFailed: bool, cutoff: int,
                           now: int)
    requires AllRunning(rows, ids)
    ensures RecoverAll(rows, ids, maxAttempts, markFailed, cutoff, now).summary
         == Expected(rows, Elements(ids), maxAttempts, markFailed)
  {
    assert forall id :: id in ids ==> id in Elements(ids);
    RecoverAllCounts(rows, ids, maxAttempts, markFailed, cutoff, now);
    TallyIsExpected(rows, ids, maxAttempts, markFailed);
  }

  /** And listed once if it is queued again. */
  lemma {:induction false} RecoverAllLists(rows: map<TaskId, Row>, ids: seq<TaskId>, maxAttempts: nat,
                                           markFailed: bool, cutoff: int, now: int)
    requires AllRunning(rows, ids)
    ensures Elements(ids) <= rows.Keys
    ensures ListsRequeued(RecoverAll(rows, ids, maxAttempts, markFailed, cutoff, now).requeued, rows, Elements(ids),
                          maxAttempts, markFailed)
  {
    if ids == [] {
    } else {
      var init, id := ids[..|ids| - 1], ids[|ids| - 1];
      LastApart(ids);
      RecoverAllRows(rows, init, maxAttempts, markFailed, cutoff, now);
      RecoverAllLists(rows, init, maxAttempts, markFailed, cutoff, now);
      assert RecoverAll(rows, init, maxAttempts, markFailed, cutoff, now).rows[id] == rows[id];
    }
  }

  /** One transaction of recovery: every task of the batch is requeued or given up on. */
  method RecoverBatch(db: TaskTable, batch: seq<TaskId>, before: Summary, maxAttempts: nat, markFailed: bool,
                      cutoff: int, now: int, ghost start: map<TaskId, Row>, ghost earlier: seq<TaskId>)
    returns (summary: Summary, requeuedIds: seq<TaskId>)
    requires forall id :: id in batch ==> id in db.rows
    requires var r := RecoverAll(start, earlier, maxAttempts, markFailed, cutoff, now);
             db.rows == r.rows && before == r.summary
    modifies db
    ensures var r := RecoverAll(start, earlier + batch, maxAttempts, markFailed, cutoff, now);
            && db.rows == r.rows && summary == r.summary
            && RecoverAll(start, earlier, maxAttempts, markFailed, cutoff, now).requeued + requeuedIds == r.requeued
  {
    hide RecoverNext;
    summary, requeuedIds := before, [];
    assert earlier + batch[..0] == earlier;
    for i := 0 to |batch|
      invariant db.rows.Keys == old(db.rows).Keys
      invariant var r := RecoverAll(start, earlier + batch[..i], maxAttempts, markFailed, cutoff, now);
                && db.rows == r.rows && summary == r.summary
                && RecoverAll(start, earlier, maxAttempts, markFailed, cutoff, now).requeued + requeuedIds == r.requeued
    {
      var upTo := earlier + batch[..i + 1];
      assert upTo[..|upTo| - 1] == earlier + batch[..i] && upTo[|upTo| - 1] == batch[i];
      summary, requeuedIds := RecoverOne(db, batch[i], summary, requeuedIds, maxAttempts, markFailed, cutoff, now,
                                         RecoverAll(start, earlier, maxAttempts, markFailed, cutoff, now).requeued);
    }
    assert batch[..|batch|] == batch;
  }

  /** One task of a batch. */
  method RecoverOne(db: TaskTable, id: TaskId, before: Summary, ids: seq<TaskId>, maxAttempts: nat, markFailed: bool,
                    cutoff: int, now: int, ghost earlier: seq<TaskId>)
    returns (summary: Summary, requeuedIds: seq<TaskId>)
    requires id in db.rows
    modifies db
    ensures db.rows.Keys == old(db.rows).Keys
    ensures Recovery(db.rows, summary, earlier + requeuedIds)
         == RecoverNext(Recovery(old(db.rows), before, earlier + ids), id, maxAttempts, markFailed, cutoff, now)
  {
    requeuedIds := ids;
    var copy := db.rows[id];
    summary := before.(found := before.found + 1);
    if IsGivenUpOn(copy, maxAttempts, markFailed) {
      var gaveUp := GiveUpOnTask(db, id, copy, cutoff, now);
      if gaveUp {
        summary := summary.(failed := summary.failed + 1);
      }
    } else {
      var requeued := RequeueTask(db, id);
      if requeued {
        summary := summary.(requeued := summary.requeued + 1);
        requeuedIds := requeuedIds + [id];
        assert earlier + requeuedIds == earlier + ids + [id];
      }
    }
  }

  /**
   Recovers the tasks left RUNNING, a batch at a time, whatever the size of a
   batch; a batch size of 0 selects nothing. Returns the summary and the tasks
   the broker is told about.
   */
  method RequeueStaleTasks(db: TaskTable, olderThan: int, queue: string, backend: string, maxAttempts: nat,
                           markFailed: bool, notifyBroker: bool, batchSize: nat, dryRun: bool, now: int)
    returns (summary: Summary, notified: seq<TaskId>)
    modifies db
    ensures dryRun ==> db.rows == old(db.rows) && notified == []
    ensures dryRun ==>
      summary == Expected(db.rows, StaleIds(db.rows, queue, backend, now - olderThan), maxAttempts, markFailed)
    ensures !dryRun ==> RecoveredOver(old(db.rows), db.rows, summary, notified, queue, backend, maxAttempts, markFailed,
                                      notifyBroker, batchSize, now - olderThan, now)
    ensures !dryRun && batchSize > 0 ==> db.rows.Keys == old(db.rows).Keys && forall id :: id in db.rows ==>
      var was, row := old(db.rows)[id], db.rows[id];
      if was.status == Running && was.lastAttemptedAt.Some? && was.lastAttemptedAt.value < now - olderThan
         && (queue == "" || was.queue == queue) && (backend == "" || was.backend == backend)
      then
        if markFailed || (maxAttempts > 0 && |was.workerIds| >= maxAttempts) then
          var worker := if was.workerIds == [] then None else Some(was.workerIds[|was.workerIds| - 1]);
          var lost := WorkerLost(worker, was.lastAttemptedAt, now - olderThan, |was.workerIds|);
          row == was.(status := Failed, errors := was.errors + [lost], finishedAt := Some(now)) && id !in notified
        else
          && row == was.(status := Ready, startedAt := None, finishedAt := None, returnValue := None)
          && (id in notified <==> notifyBroker)
      else
        row == was && id !in notified
    ensures dryRun || batchSize > 0 ==>
      var stale := set id | id in old(db.rows) && old(db.rows)[id].status == Running
        && old(db.rows)[id].lastAttemptedAt.Some? && old(db.rows)[id].lastAttemptedAt.value < now - olderThan
        && (queue == "" || old(db.rows)[id].queue == queue)
        && (backend == "" || old(db.rows)[id].backend == backend);
      var failed := set id | id in stale
        && (markFailed || (maxAttempts > 0 && |old(db.rows)[id].workerIds| >= maxAttempts));
      summary.found == |stale| && summary.failed == |failed| && summary.requeued + summary.failed == summary.found
    ensures forall j, k :: 0 <= j < k < |notified| ==> notified[j] != notified[k]
  {
    hide RecoveredOver, Expected, StaleIds, Recoverable;
    var cutoff := now - olderThan;
    if dryRun {
      summary := DryRun(db, queue, backend, maxAttempts, markFailed, cutoff);
      notified := [];
    } else {
      summary, notified := RecoverInBatches(db, queue, backend, maxAttempts, markFailed, notifyBroker, batchSize,
                                            cutoff, now);
    }
    CountsInFields(old(db.rows), queue, backend, maxAttempts, markFailed, cutoff);
    if !dryRun {
      NotifiedOnce(old(db.rows), db.rows, summary, notified, queue, backend, maxAttempts, markFailed,
                   notifyBroker, batchSize, cutoff, now);
    }
    if !dryRun && batchSize > 0 {
      RowsInFields(old(db.rows), db.rows, summary, notified, queue, backend, maxAttempts, markFailed,
                   notifyBroker, batchSize, cutoff, now);
    }
  }

  /**
   What a recovery leaves: the stale rows recovered and no other touched, none
   still stale, all counted, and the broker told.
   */
  ghost predicate RecoveredOver(before: map<TaskId, Row>, after: map<TaskId, Row>, summary: Summary,
                                notified: seq<TaskId>, queue: string, backend: string,
                                maxAttempts: nat, markFailed: bool,
                                notifyBroker: bool, batchSize: nat, cutoff: int, now: int)
  {
    var stale := StaleIds(before, queue, backend, cutoff);
    var done := if batchSize == 0 then {} else stale;
    && after == Recovered(before, done, maxAttempts, markFailed, cutoff, now)
    && StaleIds(after, queue, backend, cutoff) == stale - done
    && summary == Expected(before, done, maxAttempts, markFailed)
    && ListsRequeued(notified, before, if notifyBroker then done else {}, maxAttempts, markFailed)
  }

  /** How many tasks recovery is about, and how many of them it gives up on. */
  lemma CountsInFields(rows: map<TaskId, Row>, queue: string, backend: string, maxAttempts: nat, markFailed: bool,
                       cutoff: int)
    ensures var stale := set id | id in rows && rows[id].status == Running
        && rows[id].lastAttemptedAt.Some? && rows[id].lastAttemptedAt.value < cutoff
        && (queue == "" || rows[id].queue == queue) && (backend == "" || rows[id].backend == backend);
      var failed := set id | id in stale && (markFailed || (maxAttempts > 0 && |rows[id].workerIds| >= maxAttempts));
      var summary := Expected(rows, StaleIds(rows, queue, backend, cutoff), maxAttempts, markFailed);
      summary.found == |stale| && summary.failed == |failed| && summary.requeued + summary.failed == summary.found
  {
    hide StaleIds, GivenUpIds;
    StaleInFields(rows, queue, backend, cutoff);
    var stale := StaleIds(rows, queue, backend, cutoff);
    GivenUpInFields(rows, stale, maxAttempts, markFailed);
    SummaryAddsUp(rows, stale, maxAttempts, markFailed);
  }

  lemma StaleInFields(rows: map<TaskId, Row>, queue: string, backend: string, cutoff: int)
    ensures StaleIds(rows, queue, backend, cutoff)
         == set id | id in rows && rows[id].status == Running
              && rows[id].lastAttemptedAt.Some? && rows[id].lastAttemptedAt.value < cutoff
              && (queue == "" || rows[id].queue == queue) && (backend == "" || rows[id].backend == backend)
  {
  }

  lemma GivenUpInFields(rows: map<TaskId, Row>, ids: set<TaskId>, maxAttempts: nat, markFailed: bool)
    requires ids <= rows.Keys
    ensures GivenUpIds(rows, ids, maxAttempts, markFailed)
         == set id | id in ids && (markFailed || (maxAttempts > 0 && |rows[id].workerIds| >= maxAttempts))
  {
  }

  lemma RecoverableInFields(row: Row, queue: string, backend: string, cutoff: int)
    ensures Recoverable(row, queue, backend, cutoff) <==>
      && row.status == Running && row.lastAttemptedAt.Some? && row.lastAttemptedAt.value < cutoff
      && (queue == "" || row.queue == queue) && (backend == "" || row.backend == backend)
  {
  }

  lemma RecoveredInFields(was: Row, maxAttempts: nat, markFailed: bool, cutoff: int, now: int)
    ensures IsGivenUpOn(was, maxAttempts, markFailed) <==>
      markFailed || (maxAttempts > 0 && |was.workerIds| >= maxAttempts)
    ensures RecoveredRow(was, was, maxAttempts, markFailed, cutoff, now) ==
      if markFailed || (maxAttempts > 0 && |was.workerIds| >= maxAttempts) then
        var worker := if was.workerIds == [] then None else Some(was.workerIds[|was.workerIds| - 1]);
        var lost := WorkerLost(worker, was.lastAttemptedAt, cutoff, |was.workerIds|);
        was.(status := Failed, errors := was.errors + [lost], finishedAt := Some(now))
      else
        was.(status := Ready, startedAt := None, finishedAt := None, returnValue := None)
  {
  }

  lemma NotifiedOnce(before: map<TaskId, Row>, after: map<TaskId, Row>, summary: Summary, notified: seq<TaskId>,
                     queue: string, backend: string, maxAttempts: nat, markFailed: bool,
                     notifyBroker: bool, batchSize: nat, cutoff: int, now: int)
    requires RecoveredOver(before, after, summary, notified, queue, backend, maxAttempts, markFailed,
                           notifyBroker, batchSize, cutoff, now)
    ensures forall j, k :: 0 <= j < k < |notified| ==> notified[j] != notified[k]
  {
    hide Recovered, Expected, Recoverable;
  }

  /** What becomes of a row. */
  lemma RowInFields(before: map<TaskId, Row>, after: map<TaskId, Row>, summary: Summary, notified: seq<TaskId>,
                    queue: string, backend: string, maxAttempts: nat, markFailed: bool,
                    notifyBroker: bool, batchSize: nat, cutoff: int, now: int, id: TaskId)
    requires batchSize > 0 && id in before
    requires RecoveredOver(before, after, summary, notified, queue, backend, maxAttempts, markFailed,
                           notifyBroker, batchSize, cutoff, now)
    ensures after.Keys == before.Keys
    ensures
      var was, row := before[id], after[id];
      if was.status == Running && was.lastAttemptedAt.Some? && was.lastAttemptedAt.value < cutoff
         && (queue == "" || was.queue == queue) && (backend == "" || was.backend == backend)
      then
        if markFailed || (maxAttempts > 0 && |was.workerIds| >= maxAttempts) then
          var worker := if was.workerIds == [] then None else Some(was.workerIds[|was.workerIds| - 1]);
          var lost := WorkerLost(worker, was.lastAttemptedAt, cutoff, |was.workerIds|);
          row == was.(status := Failed, errors := was.errors + [lost], finishedAt := Some(now)) && id !in notified
        else
          && row == was.(status := Ready, startedAt := None, finishedAt := None, returnValue := None)
          && (id in notified <==> notifyBroker)
      else
        row == was && id !in notified
  {
    hide Recoverable, RecoveredRow, IsGivenUpOn, Expected;
    RecoverableInFields(before[id], queue, backend, cutoff);
    RecoveredInFields(before[id], maxAttempts, markFailed, cutoff, now);
  }

  /** And of all of them. */
  lemma RowsInFields(before: map<TaskId, Row>, after: map<TaskId, Row>, summary: Summary, notified: seq<TaskId>,
                     queue: string, backend: string, maxAttempts: nat, markFailed: bool,
                     notifyBroker: bool, batchSize: nat, cutoff: int, now: int)
    requires batchSize > 0
    requires RecoveredOver(before, after, summary, notified, queue, backend, maxAttempts, markFailed,
                           notifyBroker, batchSize, cutoff, now)
    ensures after.Keys == before.Keys
    ensures forall id :: id in after ==>
      var was, row := before[id], after[id];
      if was.status == Running && was.lastAttemptedAt.Some? && was.lastAttemptedAt.value < cutoff
         && (queue == "" || was.queue == queue) && (backend == "" || was.backend == backend)
      then
        if markFailed || (maxAttempts > 0 && |was.workerIds| >= maxAttempts) then
          var worker := if was.workerIds == [] then None else Some(was.workerIds[|was.workerIds| - 1]);
          var lost := WorkerLost(worker, was.lastAttemptedAt, cutoff, |was.workerIds|);
          row == was.(status := Failed, errors := was.errors + [lost], finishedAt := Some(now)) && id !in notified
        else
          && row == was.(status := Ready, startedAt := None, finishedAt := None, returnValue := None)
          && (id in notified <==> notifyBroker)
      else
        row == was && id !in notified
  {
    hide Recoverable, RecoveredRow, Expected;
    forall id | id in after {
      RowInFields(before, after, summary, notified, queue, backend, maxAttempts, markFailed,
                  notifyBroker, batchSize, cutoff, now, id);
    }
  }

  /** The loop over the batches, until a batch is empty. */
  method RecoverInBatches(db: TaskTable, queue: string, backend: string, maxAttempts: nat, markFailed: bool,
                          notifyBroker: bool, batchSize: nat, cutoff: int, now: int)
    returns (summary: Summary, notified: seq<TaskId>)
    modifies db
    ensures RecoveredOver(old(db.rows), db.rows, summary, notified, queue, backend, maxAttempts, markFailed,
                          notifyBroker, batchSize, cutoff, now)
  {
    ghost var start := db.rows;
    ghost var done: seq<TaskId> := [];
    summary, notified := Summary(0, 0, 0), [];
    StillStale(start, {}, maxAttempts, markFailed, queue, backend, cutoff, now);
    while true
      invariant NoRepeats(done) && Elements(done) <= StaleIds(start, queue, backend, cutoff)
      invariant var r := RecoverAll(start, done, maxAttempts, markFailed, cutoff, now);
                db.rows == r.rows && summary == r.summary && notified == if notifyBroker then r.requeued else []
      invariant StaleIds(db.rows, queue, backend, cutoff) == StaleIds(start, queue, backend, cutoff) - Elements(done)
      invariant batchSize == 0 ==> done == []
      decreases |StaleIds(db.rows, queue, backend, cutoff)|
    {
      var left := StaleIds(db.rows, queue, backend, cutoff);
      var batch := SelectBatch(db.rows, left, batchSize);
      if batch == [] {
        break;
      }
      var requeuedIds: seq<TaskId>;
      summary, requeuedIds := RecoverBatch(db, batch, summary, maxAttempts, markFailed, cutoff, now, start, done);
      if notifyBroker {
        notified := notified + requeuedIds;
      }
      FewerStale(start, done, batch, left, maxAttempts, markFailed, queue, backend, cutoff, now);
      done := done + batch;
    }
    AllRecovered(start, done, queue, backend, maxAttempts, markFailed, notifyBroker, batchSize, cutoff, now);
  }

  /** When the batches have run out. */
  lemma AllRecovered(start: map<TaskId, Row>, done: seq<TaskId>, queue: string, backend: string, maxAttempts: nat,
                     markFailed: bool, notifyBroker: bool, batchSize: nat, cutoff: int, now: int)
    requires NoRepeats(done) && Elements(done) <= StaleIds(start, queue, backend, cutoff)
    requires if batchSize == 0 then done == [] else |StaleIds(start, queue, backend, cutoff) - Elements(done)| == 0
    ensures var r := RecoverAll(start, done, maxAttempts, markFailed, cutoff, now);
            RecoveredOver(start, r.rows, r.summary, if notifyBroker then r.requeued else [], queue, backend,
                          maxAttempts, markFailed, notifyBroker, batchSize, cutoff, now)
  {
    hide RecoverAll, Expected, Recovered, GivenUpIds;
    RecoverAllRows(start, done, maxAttempts, markFailed, cutoff, now);
    RecoverAllExpected(start, done, maxAttempts, markFailed, cutoff, now);
    RecoverAllLists(start, done, maxAttempts, markFailed, cutoff, now);
    StillStale(start, Elements(done), maxAttempts, markFailed, queue, backend, cutoff, now);
    assert Elements(done) == if batchSize == 0 then {} else StaleIds(start, queue, backend, cutoff);
  }

  /** After a batch, what is left is what was left before it, less the batch. */
  lemma FewerStale(start: map<TaskId, Row>, done: seq<TaskId>, batch: seq<TaskId>, left: set<TaskId>,
                   maxAttempts: nat, markFailed: bool, queue: string, backend: string, cutoff: int, now: int)
    requires NoRepeats(done) && Elements(done) <= StaleIds(start, queue, backend, cutoff)
    requires NoRepeats(batch) && batch != [] && forall id :: id in batch ==> id in left
    requires left == StaleIds(start, queue, backend, cutoff) - Elements(done)
    ensures NoRepeats(done + batch)
    ensures var r := RecoverAll(start, done + batch, maxAttempts, markFailed, cutoff, now);
            var after := StaleIds(r.rows, queue, backend, cutoff);
            && after == StaleIds(start, queue, backend, cutoff) - Elements(done + batch)
            && |after| < |left|
  {
    AppendApart(done, batch);
    RecoverAllRows(start, done + batch, maxAttempts, markFailed, cutoff, now);
    StillStale(start, Elements(done + batch), maxAttempts, markFailed, queue, backend, cutoff, now);
    assert batch[0] in Elements(done + batch);
    Executor.SubsetSize(StaleIds(start, queue, backend, cutoff) - Elements(done + batch), left - {batch[0]});
  }

  lemma AppendApart(a: seq<TaskId>, b: seq<TaskId>)
    requires NoRepeats(a) && NoRepeats(b) && forall id :: id in b ==> id !in Elements(a)
    ensures NoRepeats(a + b) && Elements(a + b) == Elements(a) + Elements(b)
  {
    var all := a + b;
    forall i, j | 0 <= i < j < |all| ensures all[i] != all[j] {
      if i < |a| <= j {
        assert all[i] in Elements(a) && all[j] in b;
      }
    }
  }

  /** Counts what recovery would do. */
  method DryRun(db: TaskTable, queue: string, backend: string, maxAttempts: nat, markFailed: bool, cutoff: int)
    returns (summary: Summary)
    ensures summary == Expected(db.rows, StaleIds(db.rows, queue, backend, cutoff), maxAttempts, markFailed)
  {
    var rows := db.rows;
    var stale := StaleIds(rows, queue, backend, cutoff);
    var list := SelectBatch(rows, stale, |stale|);
    summary := Summary(0, 0, 0);
    for i := 0 to |list|
      invariant summary == Tally(rows, list[..i], maxAttempts, markFailed)
    {
      assert list[..i + 1][..i] == list[..i];
      summary := summary.Count(IsGivenUpOn(rows[list[i]], maxAttempts, markFailed));
    }
    assert list[..|list|] == list && Elements(list) == stale;
    TallyIsExpected(rows, list, maxAttempts, markFailed);
  }

  /** found = requeued + failed, and every failure is one recovery gives up on. */
  lemma SummaryAddsUp(rows: map<TaskId, Row>, ids: set<TaskId>, maxAttempts: nat, markFailed: bool)
    requires ids <= rows.Keys
    ensures var s := Expected(rows, ids, maxAttempts, markFailed);
            && s.found == s.requeued + s.failed
            && (markFailed ==> s.requeued == 0)
            && (!markFailed && maxAttempts == 0 ==> s.failed == 0)
  {
    var failed := GivenUpIds(rows, ids, maxAttempts, markFailed);
    assert ids == (ids - failed) + failed;
    assert markFailed ==> failed == ids;
  }

  const DAY: int := 86400

  /** What a purge deletes. An empty path or backend name means every one; 0 days means any age. */
  predicate Purgeable(row: Row, statuses: seq<Status>, days: nat, path: string, backend: string, now: int) {
    && row.status in statuses
    && (path != "" ==> row.path == path)
    && (backend != "" ==> row.backend == backend)
    && (days > 0 ==> row.finishedAt.Some? && row.finishedAt.value < now - days * DAY)
  }

  function PurgeableIds(rows: map<TaskId, Row>, statuses: seq<Status>, days: nat, path: string, backend: string,
                        now: int): set<TaskId> {
    set id | id in rows && Purgeable(rows[id], statuses, days, path, backend, now)
  }

  datatype PurgeResult = Purged(count: nat) | ValueError

  /** Deletes the matching tasks, a batch at a time, and counts them. */
  method PurgeCompletedTasks(db: TaskTable, backend: string, days: int, statuses: Option<seq<Status>>, batchSize: int,
                             dryRun: bool, path: string, now: int) returns (result: PurgeResult)
    modifies db
    ensures result.ValueError? <==>
      days < 0 || batchSize < 1 || (statuses.Some? && exists s :: s in statuses.value && !(s.Successful? || s.Failed?))
    ensures result.ValueError? ==> db.rows == old(db.rows)
    ensures result.Purged? ==>
      var wanted := if statuses.Some? then statuses.value else [Successful, Failed];
      var matching := PurgeableIds(old(db.rows), wanted, days, path, backend, now);
      && result.count == |matching|
      && db.rows == (if dryRun then old(db.rows) else old(db.rows) - matching)
      && (forall id :: id in matching <==>
            && id in old(db.rows)
            && (if statuses.Some? then old(db.rows)[id].status in statuses.value
                else old(db.rows)[id].status == Successful || old(db.rows)[id].status == Failed)
            && (path == "" || old(db.rows)[id].path == path)
            && (backend == "" || old(db.rows)[id].backend == backend)
            && (days == 0 || (old(db.rows)[id].finishedAt.Some?
                              && old(db.rows)[id].finishedAt.value < now - days * 24 * 60 * 60)))
  {
    if days < 0 || batchSize < 1 {
      return ValueError;
    }
    var wanted := if statuses.Some? then statuses.value else [Successful, Failed];
    if exists s :: s in wanted && !(s.Successful? || s.Failed?) {
      return ValueError;
    }
    var matching := PurgeableIds(db.rows, wanted, days, path, backend, now);
    if dryRun {
      return Purged(|matching|);
    }
    var count := DeleteInBatches(db, wanted, days, path, backend, now, batchSize);
    result := Purged(count);
  }

  /** The rows whose ids are not deleted are exactly as before. */
  method DeleteInBatches(db: TaskTable, statuses: seq<Status>, days: nat, path: string, backend: string, now: int,
                         batchSize: nat)
    returns (count: nat)
    requires batchSize >= 1
    modifies db
    ensures var matching := PurgeableIds(old(db.rows), statuses, days, path, backend, now);
            count == |matching| && db.rows == old(db.rows) - matching
  {
    ghost var matching := PurgeableIds(db.rows, statuses, days, path, backend, now);
    count := 0;
    ghost var gone: set<TaskId> := {};
    while true
      invariant gone <= matching && db.rows == old(db.rows) - gone && count == |gone|
      decreases |matching - gone|
    {
      var ids := PurgeableIds(db.rows, statuses, days, path, backend, now);
      assert ids == matching - gone;
      var batch := TakeSome(ids, batchSize);
      if batch == {} {
        break;
      }
      db.rows := db.rows - batch;
      count := count + |batch|;
      assert |gone + batch| == |gone| + |batch|;
      assert matching - (gone + batch) < matching - gone;
      gone := gone + batch;
    }
  }

  /** Any n of the ids, or all when there are fewer. */
  method TakeSome(ids: set<TaskId>, n: nat) returns (batch: set<TaskId>)
    ensures batch <= ids && |batch| == if n < |ids| then n else |ids|
  {
    batch := {};
    while |batch| < n && batch != ids
      invariant batch <= ids && |batch| <= n && |ids - batch| + |batch| == |ids|
      decreases |ids - batch|
    {
      var id :| id in ids - batch;
      assert ids - batch == ids - (batch + {id}) + {id};
      batch := batch + {id};
    }
    if batch != ids {
      assert ids - batch != {};
    }
  }
}
