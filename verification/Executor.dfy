/** Fetching and draining the queue. */
module Executor {
  import opened Options
  import opened Rows
  import opened Backend

  /** What fetch_task may pick. An empty queue name means every queue. */
  predicate IsEligible(row: Row, queue: string, backend: string, now: int) {
    && row.status.Ready?
    && row.backend == backend
    && (row.runAfter.Some? ==> row.runAfter.value <= now)
    && (queue != "" ==> row.queue == queue)
  }

  function Eligible(rows: map<TaskId, Row>, queue: string, backend: string, now: int): (ids: set<TaskId>)
    ensures ids <= rows.Keys
  {
    set id | id in rows && IsEligible(rows[id], queue, backend, now)
  }

  lemma EligibleInFields(rows: map<TaskId, Row>, queue: string, backend: string, now: int)
    ensures forall id :: id in Eligible(rows, queue, backend, now) <==>
      && id in rows && rows[id].status == Ready && rows[id].backend == backend
      && (queue == "" || rows[id].queue == queue) && (rows[id].runAfter.None? || rows[id].runAfter.value <= now)
  {
  }

  /** a may be fetched before b: higher priority, or the same and enqueued no later. */
  predicate NotLater(a: Row, b: Row) {
    a.priority > b.priority || (a.priority == b.priority && a.enqueuedAt <= b.enqueuedAt)
  }

  ghost predicate IsFirst(rows: map<TaskId, Row>, ids: set<TaskId>, id: TaskId)
    requires ids <= rows.Keys
  {
    id in ids && forall other :: other in ids ==> NotLater(rows[id], rows[other])
  }

  /**
   What a task enqueued now changes for the next fetch: one that is more urgent
   than the task that was first goes before it; any other leaves it first.
   */
  lemma NewTaskWaitsItsTurn(rows: map<TaskId, Row>, id: TaskId, row: Row, queue: string, backend: string, now: int,
                            first: TaskId)
    requires id !in rows && IsFirst(rows, Eligible(rows, queue, backend, now), first)
    requires row.enqueuedAt >= rows[first].enqueuedAt
    ensures var after := rows[id := row];
      var ids := Eligible(after, queue, backend, now);
      && ids == Eligible(rows, queue, backend, now) + (if IsEligible(row, queue, backend, now) then {id} else {})
      && if id in ids && row.priority > rows[first].priority then IsFirst(after, ids, id) && !IsFirst(after, ids, first)
         else IsFirst(after, ids, first)
  {
    var after := rows[id := row];
    var ids := Eligible(after, queue, backend, now);
    assert ids == Eligible(rows, queue, backend, now) + if IsEligible(row, queue, backend, now) then {id} else {};
    if id in ids && row.priority > rows[first].priority {
      forall other | other in ids ensures NotLater(after[id], after[other]) {
        assert other != id ==> NotLater(rows[first], rows[other]);
      }
    }
  }

  lemma {:induction false} FirstExists(rows: map<TaskId, Row>, ids: set<TaskId>)
    requires ids <= rows.Keys && ids != {}
    ensures exists id :: IsFirst(rows, ids, id)
    decreases |ids|
  {
    var id :| id in ids;
    if ids == {id} {
      assert IsFirst(rows, ids, id);
    } else {
      FirstExists(rows, ids - {id});
      var best :| IsFirst(rows, ids - {id}, best);
      assert IsFirst(rows, ids, if NotLater(rows[best], rows[id]) then best else id);
    }
  }

  /** The next pending task, or None. Which of several equals comes first is the database's choice. */
  method FetchTask(db: TaskTable, queue: string, backend: string, now: int) returns (task: DatabaseTask?)
    ensures task == null <==> Eligible(db.rows, queue, backend, now) == {}
    ensures task != null ==> fresh(task)
    ensures task != null ==> task.id in db.rows && task.row == db.rows[task.id]
    ensures task != null ==> IsFirst(db.rows, Eligible(db.rows, queue, backend, now), task.id)
    ensures task == null <==> forall id :: id in db.rows ==>
      !(db.rows[id].status == Ready && db.rows[id].backend == backend && (queue == "" || db.rows[id].queue == queue)
        && (db.rows[id].runAfter.None? || db.rows[id].runAfter.value <= now))
    ensures task != null ==>
      && task.row.status == Ready && task.row.backend == backend && (queue == "" || task.row.queue == queue)
      && (task.row.runAfter.None? || task.row.runAfter.value <= now)
      && forall id :: (id in db.rows && db.rows[id].status == Ready && db.rows[id].backend == backend
                       && (queue == "" || db.rows[id].queue == queue)
                       && (db.rows[id].runAfter.None? || db.rows[id].runAfter.value <= now)) ==>
           task.row.priority > db.rows[id].priority
           || (task.row.priority == db.rows[id].priority && task.row.enqueuedAt <= db.rows[id].enqueuedAt)
  {
    var ids := Eligible(db.rows, queue, backend, now);
    EligibleInFields(db.rows, queue, backend, now);
    if ids == {} {
      return null;
    }
    FirstExists(db.rows, ids);
    var id :| id in ids && forall other :: other in ids ==> NotLater(db.rows[id], db.rows[other]);
    task := new DatabaseTask(id, db.rows[id]);
  }

  /** A processed task: its id and the row its run left. */
  datatype Processed = Processed(id: TaskId, row: Row)

  /**
   The state of a drain: what became of the rows of before, given the tasks
   done by this worker. A task is run by it, taken by another worker, or
   untouched.
   */
  ghost predicate Drained(before: map<TaskId, Row>, rows: map<TaskId, Row>, done: seq<Processed>,
                          alone: bool, wid: string, work: TaskId -> Outcome, now: int) {
    && rows.Keys == before.Keys
    && (forall i :: 0 <= i < |done| ==>
          && done[i].id in rows
          && done[i].row == rows[done[i].id] == RanRow(before[done[i].id], wid, work(done[i].id), now))
    && (forall id :: id in rows && (forall i :: 0 <= i < |done| ==> done[i].id != id) ==>
          Spared(before[id], rows[id], alone, now))
  }

  /** Each task once, each pending at the start, in the order of the queue, and before all that is left. */
  ghost predicate InOrder(before: map<TaskId, Row>, done: seq<Processed>, start: set<TaskId>, left: set<TaskId>)
    requires start <= before.Keys
  {
    && left <= start
    && (forall i :: 0 <= i < |done| ==> done[i].id in start && done[i].id !in left)
    && (forall i, j :: 0 <= i < j < |done| ==>
          done[i].id != done[j].id && NotLater(before[done[i].id], before[done[j].id]))
    && (forall i, id :: 0 <= i < |done| && id in left ==> NotLater(before[done[i].id], before[id]))
  }

  lemma StillFewer(before: map<TaskId, Row>, after: map<TaskId, Row>, queue: string, backend: string, alone: bool,
                   now: int)
    requires before.Keys == after.Keys
    requires forall id :: id in after ==> Spared(before[id], after[id], alone, now)
    ensures Eligible(after, queue, backend, now) <= Eligible(before, queue, backend, now)
    ensures alone ==> after == before
  {
  }

  lemma SparedTwice(before: map<TaskId, Row>, middle: map<TaskId, Row>, after: map<TaskId, Row>, alone: bool, now: int)
    requires before.Keys == middle.Keys == after.Keys
    requires forall id :: id in middle ==> Spared(before[id], middle[id], alone, now)
    requires forall id :: id in after ==> Spared(middle[id], after[id], alone, now)
    ensures forall id :: id in after ==> Spared(before[id], after[id], alone, now)
  {
  }

  /** The first pending task, still READY after the others had their turn, is run. */
  lemma RanFirst(before: map<TaskId, Row>, fetched: map<TaskId, Row>, middle: map<TaskId, Row>, id: TaskId,
                 queue: string, backend: string, alone: bool, wid: string, work: TaskId -> Outcome, now: int)
    requires before.Keys == fetched.Keys == middle.Keys
    requires forall id :: id in fetched ==> Spared(before[id], fetched[id], alone, now)
    requires forall id :: id in middle ==> Spared(fetched[id], middle[id], alone, now)
    requires IsFirst(fetched, Eligible(fetched, queue, backend, now), id) && middle[id].status.Ready?
    ensures var row := RanRow(middle[id], wid, work(id), now);
            var after := middle[id := row];
            && middle[id] == fetched[id]
            && Drained(before, after, [Processed(id, row)], alone, wid, work, now)
            && InOrder(before, [Processed(id, row)], Eligible(before, queue, backend, now),
                       Eligible(after, queue, backend, now))
            && (alone ==> Eligible(after, queue, backend, now) == Eligible(before, queue, backend, now) - {id})
  {
    PendingUntouched(before[id], middle[id], alone, now) by {
      SparedTwice(before, fetched, middle, alone, now);
    }
    PendingUntouched(fetched[id], middle[id], alone, now);
    RanDrained(before, middle, id, alone, wid, work, now) by {
      SparedTwice(before, fetched, middle, alone, now);
    }
    RanInOrder(before, fetched, middle, id, RanRow(middle[id], wid, work(id), now), queue, backend, alone, now);
  }

  lemma RanDrained(before: map<TaskId, Row>, middle: map<TaskId, Row>, id: TaskId,
                   alone: bool, wid: string, work: TaskId -> Outcome, now: int)
    requires before.Keys == middle.Keys && id in middle && middle[id] == before[id]
    requires forall id :: id in middle ==> Spared(before[id], middle[id], alone, now)
    ensures var row := RanRow(middle[id], wid, work(id), now);
      Drained(before, middle[id := row], [Processed(id, row)], alone, wid, work, now)
  {
    var done := [Processed(id, RanRow(middle[id], wid, work(id), now))];
    assert done[0].id == id;
  }

  lemma RanInOrder(before: map<TaskId, Row>, fetched: map<TaskId, Row>, middle: map<TaskId, Row>, id: TaskId, row: Row,
                   queue: string, backend: string, alone: bool, now: int)
    requires before.Keys == fetched.Keys == middle.Keys
    requires forall id :: id in fetched ==> Spared(before[id], fetched[id], alone, now)
    requires forall id :: id in middle ==> Spared(fetched[id], middle[id], alone, now)
    requires IsFirst(fetched, Eligible(fetched, queue, backend, now), id)
    requires middle[id] == fetched[id] == before[id] && row.Completed()
    ensures var start, left := Eligible(before, queue, backend, now), Eligible(middle[id := row], queue, backend, now);
      InOrder(before, [Processed(id, row)], start, left) && (alone ==> left == start - {id})
  {
    StillFewer(before, fetched, queue, backend, alone, now);
    StillFewer(fetched, middle, queue, backend, alone, now);
    var start, left := Eligible(before, queue, backend, now), Eligible(middle[id := row], queue, backend, now);
    assert left == Eligible(middle, queue, backend, now) - {id};
    forall other | other in left ensures other in start && NotLater(before[id], before[other]) {
      PendingUntouched(before[other], fetched[other], alone, now);
    }
  }

  /**
   Runs the first pending task, passing over those another worker claims
   between the fetch and the claim. None only when nothing is pending.
   */
  method ProcessOneTask(db: TaskTable, queue: string, backend: string, wid: string, alone: bool,
                        work: TaskId -> Outcome, now: int) returns (result: Option<Processed>)
    modifies db
    ensures Drained(old(db.rows), db.rows, if result.Some? then [result.value] else [], alone, wid, work, now)
    ensures InOrder(old(db.rows), if result.Some? then [result.value] else [],
                    Eligible(old(db.rows), queue, backend, now), Eligible(db.rows, queue, backend, now))
    ensures result.None? ==> Eligible(db.rows, queue, backend, now) == {}
    ensures alone && result.None? ==> Eligible(old(db.rows), queue, backend, now) == {}
    ensures alone && result.Some? ==>
      Eligible(db.rows, queue, backend, now) == Eligible(old(db.rows), queue, backend, now) - {result.value.id}
  {
    while true
      invariant db.rows.Keys == old(db.rows).Keys
      invariant forall id :: id in db.rows ==> Spared(old(db.rows)[id], db.rows[id], alone, now)
      invariant Eligible(db.rows, queue, backend, now) <= Eligible(old(db.rows), queue, backend, now)
      invariant alone ==> db.rows == old(db.rows)
      decreases |Eligible(db.rows, queue, backend, now)|
    {
      var task := FetchTask(db, queue, backend, now);
      if task == null {
        return None;
      }
      ghost var fetched := db.rows;
      db.OtherWorkersClaim(alone, now);
      ghost var middle := db.rows;
      SparedTwice(old(db.rows), fetched, middle, alone, now);
      StillFewer(fetched, db.rows, queue, backend, alone, now);
      var row := db.RunTask(task, wid, work(task.id), now);
      if row.Some? {
        RanFirst(old(db.rows), fetched, middle, task.id, queue, backend, alone, wid, work, now);
        return Some(Processed(task.id, row.value));
      }
      assert task.id in Eligible(fetched, queue, backend, now) - Eligible(db.rows, queue, backend, now);
      SmallerSet(Eligible(db.rows, queue, backend, now), Eligible(fetched, queue, backend, now));
    }
  }

  /** A completed row is neither taken nor run again. */
  lemma DoneStays(before: map<TaskId, Row>, middle: map<TaskId, Row>, after: map<TaskId, Row>,
                  done: seq<Processed>, more: seq<Processed>, queue: string, backend: string,
                  alone: bool, wid: string, work: TaskId -> Outcome, now: int)
    requires Drained(before, middle, done, alone, wid, work, now) && Drained(middle, after, more, alone, wid, work, now)
    requires InOrder(middle, more, Eligible(middle, queue, backend, now), Eligible(after, queue, backend, now))
    ensures forall i :: 0 <= i < |done| ==> after[done[i].id] == middle[done[i].id]
  {
    forall i | 0 <= i < |done| ensures after[done[i].id] == middle[done[i].id] {
      var id := done[i].id;
      RanIsCompleted(before[id], wid, work(id), now);
      assert id !in Eligible(middle, queue, backend, now);
      assert forall j :: 0 <= j < |more| ==> more[j].id != id;
      CompletedStays(middle[id], after[id], alone, now);
    }
  }

  lemma CompletedStays(before: Row, after: Row, alone: bool, now: int)
    requires Spared(before, after, alone, now) && before.Completed()
    ensures after == before
  {
  }

  lemma RanIsCompleted(row: Row, wid: string, outcome: Outcome, now: int)
    ensures RanRow(row, wid, outcome, now).Completed()
  {
  }

  lemma PendingUntouched(before: Row, after: Row, alone: bool, now: int)
    requires Spared(before, after, alone, now) && after.status.Ready?
    ensures after == before
  {
  }

  /** A row still pending is as it was at the start. */
  lemma LeftUntouched(before: map<TaskId, Row>, middle: map<TaskId, Row>, done: seq<Processed>,
                      queue: string, backend: string, alone: bool, wid: string, work: TaskId -> Outcome, now: int)
    requires Drained(before, middle, done, alone, wid, work, now)
    ensures forall id :: id in Eligible(middle, queue, backend, now) ==> middle[id] == before[id]
  {
    forall id | id in Eligible(middle, queue, backend, now) ensures middle[id] == before[id] {
      assert middle[id].status.Ready?;
      forall i | 0 <= i < |done| ensures done[i].id != id {
        RanIsCompleted(before[done[i].id], wid, work(done[i].id), now);
      }
      PendingUntouched(before[id], middle[id], alone, now);
    }
  }

  lemma DrainedOneMore(before: map<TaskId, Row>, middle: map<TaskId, Row>, after: map<TaskId, Row>,
                       done: seq<Processed>, more: seq<Processed>, queue: string, backend: string,
                       alone: bool, wid: string, work: TaskId -> Outcome, now: int)
    requires Drained(before, middle, done, alone, wid, work, now) && Drained(middle, after, more, alone, wid, work, now)
    requires InOrder(middle, more, Eligible(middle, queue, backend, now), Eligible(after, queue, backend, now))
    requires |more| <= 1 && (forall p :: p in more ==> p.id in middle && middle[p.id] == before[p.id])
    ensures Drained(before, after, done + more, alone, wid, work, now)
  {
    hide Taken, Eligible, RanRow;
    DoneStays(before, middle, after, done, more, queue, backend, alone, wid, work, now);
    var all := done + more;
    forall id | id in after && (forall i :: 0 <= i < |all| ==> all[i].id != id)
      ensures Spared(before[id], after[id], alone, now)
    {
      assert forall i :: 0 <= i < |done| ==> all[i] == done[i];
      assert forall i :: 0 <= i < |more| ==> all[|done| + i] == more[i];
      SparedOnceMore(before[id], middle[id], after[id], alone, now);
    }
  }

  lemma SparedOnceMore(before: Row, middle: Row, after: Row, alone: bool, now: int)
    requires Spared(before, middle, alone, now) && Spared(middle, after, alone, now)
    ensures Spared(before, after, alone, now)
  {
  }

  lemma OrderOneMore(before: map<TaskId, Row>, middle: map<TaskId, Row>, done: seq<Processed>, more: seq<Processed>,
                     start: set<TaskId>, between: set<TaskId>, left: set<TaskId>)
    requires start <= before.Keys && between <= middle.Keys
    requires InOrder(before, done, start, between) && InOrder(middle, more, between, left)
    requires forall id :: id in between ==> middle[id] == before[id]
    requires |more| <= 1
    ensures InOrder(before, done + more, start, left)
  {
  }

  /** One more task: the drain of the earlier ones and of this one are a drain of all. */
  lemma DrainOneMore(before: map<TaskId, Row>, middle: map<TaskId, Row>, after: map<TaskId, Row>,
                     done: seq<Processed>, more: seq<Processed>, queue: string, backend: string,
                     alone: bool, wid: string, work: TaskId -> Outcome, now: int)
    requires Drained(before, middle, done, alone, wid, work, now) && Drained(middle, after, more, alone, wid, work, now)
    requires InOrder(before, done, Eligible(before, queue, backend, now), Eligible(middle, queue, backend, now))
    requires InOrder(middle, more, Eligible(middle, queue, backend, now), Eligible(after, queue, backend, now))
    requires |more| <= 1
    ensures Drained(before, after, done + more, alone, wid, work, now)
    ensures InOrder(before, done + more, Eligible(before, queue, backend, now), Eligible(after, queue, backend, now))
  {
    LeftUntouched(before, middle, done, queue, backend, alone, wid, work, now);
    DrainedOneMore(before, middle, after, done, more, queue, backend, alone, wid, work, now);
    OrderOneMore(before, middle, done, more, Eligible(before, queue, backend, now),
                 Eligible(middle, queue, backend, now), Eligible(after, queue, backend, now));
  }

  /** Whether no further task is to be started. Once set it stays set. */
  class StopEvent {
    var stopped: bool

    /** Reads the flag, which anyone may have set by now. */
    method IsSet() returns (stop: bool)
      modifies this
      ensures stop == stopped && (old(stopped) ==> stopped)
    {
      var signalled: bool := *;
      stopped := stopped || signalled;
      stop := stopped;
    }
  }

  /**
   Drains the queue: every pending task is run here, claimed by another worker
   first, or left when the cap is reached or the stop event is set.
   */
  method ProcessTasks(db: TaskTable, queue: string, backend: string, maxTasks: nat, wid: string, stop: StopEvent?,
                      alone: bool, work: TaskId -> Outcome, now: int) returns (results: seq<Processed>)
    modifies db, stop
    ensures Drained(old(db.rows), db.rows, results, alone, wid, work, now)
    ensures InOrder(old(db.rows), results, Eligible(old(db.rows), queue, backend, now),
                    Eligible(db.rows, queue, backend, now))
    ensures forall i, j :: 0 <= i < j < |results| ==>
      var a, b := old(db.rows)[results[i].id], old(db.rows)[results[j].id];
      a.priority > b.priority || (a.priority == b.priority && a.enqueuedAt <= b.enqueuedAt)
    ensures forall i :: 0 <= i < |results| ==>
      var row := old(db.rows)[results[i].id];
      row.status == Ready && row.backend == backend && (queue == "" || row.queue == queue)
      && (row.runAfter.None? || row.runAfter.value <= now)
    ensures forall i, id :: (0 <= i < |results| && id in db.rows && db.rows[id].status == Ready
                             && db.rows[id].backend == backend && (queue == "" || db.rows[id].queue == queue)
                             && (db.rows[id].runAfter.None? || db.rows[id].runAfter.value <= now)) ==>
      var a, b := old(db.rows)[results[i].id], old(db.rows)[id];
      a.priority > b.priority || (a.priority == b.priority && a.enqueuedAt <= b.enqueuedAt)
    ensures forall i :: 0 <= i < |results| ==>
      var was, row := old(db.rows)[results[i].id], results[i].row;
      var base := was.(startedAt := if was.startedAt.Some? then was.startedAt else Some(now),
                       lastAttemptedAt := Some(now), finishedAt := Some(now),
                       workerIds := if wid == "" then was.workerIds else was.workerIds + [wid]);
      match work(results[i].id)
      case Returned(value) => row == base.(status := Successful, returnValue := Some(value))
      case RaisedError(path) => row == base.(status := Failed, errors := was.errors + [Raised(path)])
      case ReceiverRaised(value, path) =>
        row == base.(status := Failed, returnValue := Some(value), errors := was.errors + [Raised(path)])
    ensures maxTasks != 0 ==> |results| <= maxTasks
    ensures (stop == null || !stop.stopped) && (maxTasks == 0 || |results| < maxTasks) ==>
      Eligible(db.rows, queue, backend, now) == {}
    ensures alone ==>
      |Eligible(db.rows, queue, backend, now)| + |results| == |Eligible(old(db.rows), queue, backend, now)|
    ensures alone ==>
      Covers(results, Eligible(old(db.rows), queue, backend, now), Eligible(db.rows, queue, backend, now))
    ensures alone && (stop == null || !stop.stopped) ==>
      var n := |Eligible(old(db.rows), queue, backend, now)|;
      |results| == if maxTasks != 0 && maxTasks < n then maxTasks else n
  {
    hide Drained, InOrder, Eligible, Covers;
    results := Drain(db, queue, backend, maxTasks, wid, stop, alone, work, now);
    DrainedInFields(old(db.rows), db.rows, results, alone, wid, work, now);
    OrderInFields(old(db.rows), db.rows, results, queue, backend, now);
    if alone {
      AloneCovers(old(db.rows), db.rows, results, queue, backend, wid, work, now);
    }
  }

  /** The loop. */
  method Drain(db: TaskTable, queue: string, backend: string, maxTasks: nat, wid: string, stop: StopEvent?,
               alone: bool, work: TaskId -> Outcome, now: int) returns (results: seq<Processed>)
    modifies db, stop
    ensures Drained(old(db.rows), db.rows, results, alone, wid, work, now)
    ensures InOrder(old(db.rows), results, Eligible(old(db.rows), queue, backend, now),
                    Eligible(db.rows, queue, backend, now))
    ensures maxTasks != 0 ==> |results| <= maxTasks
    ensures (stop == null || !stop.stopped) && (maxTasks == 0 || |results| < maxTasks) ==>
      Eligible(db.rows, queue, backend, now) == {}
    ensures alone ==>
      |Eligible(db.rows, queue, backend, now)| + |results| == |Eligible(old(db.rows), queue, backend, now)|
    ensures alone && (stop == null || !stop.stopped) ==>
      var n := |Eligible(old(db.rows), queue, backend, now)|;
      |results| == if maxTasks != 0 && maxTasks < n then maxTasks else n
  {
    hide Drained, InOrder, Eligible, Covers;
    results := [];
    NothingDrained(db.rows, queue, backend, alone, wid, work, now);
    while true
      invariant Drained(old(db.rows), db.rows, results, alone, wid, work, now)
      invariant InOrder(old(db.rows), results, Eligible(old(db.rows), queue, backend, now),
                        Eligible(db.rows, queue, backend, now))
      invariant maxTasks != 0 ==> |results| < maxTasks
      invariant alone ==>
        |Eligible(db.rows, queue, backend, now)| + |results| == |Eligible(old(db.rows), queue, backend, now)|
      decreases |Eligible(db.rows, queue, backend, now)|
    {
      if stop != null {
        var stopping := stop.IsSet();
        if stopping {
          break;
        }
      }
      ghost var middle := db.rows;
      var result := ProcessOneTask(db, queue, backend, wid, alone, work, now);
      DrainOneMore(old(db.rows), middle, db.rows, results, if result.Some? then [result.value] else [],
                   queue, backend, alone, wid, work, now);
      if result.None? {
        assert results + [] == results;
        break;
      }
      results := results + [result.value];
      OneLess(middle, result.value, Eligible(middle, queue, backend, now), Eligible(db.rows, queue, backend, now));
      if maxTasks != 0 && |results| >= maxTasks {
        break;
      }
    }
  }

  /** The order of a drain, in the rows' own fields. */
  lemma OrderInFields(before: map<TaskId, Row>, after: map<TaskId, Row>, done: seq<Processed>,
                      queue: string, backend: string, now: int)
    requires after.Keys == before.Keys
    requires InOrder(before, done, Eligible(before, queue, backend, now), Eligible(after, queue, backend, now))
    ensures forall i :: 0 <= i < |done| ==>
      && done[i].id in before
      && var row := before[done[i].id];
      && row.status == Ready && row.backend == backend && (queue == "" || row.queue == queue)
      && (row.runAfter.None? || row.runAfter.value <= now)
    ensures forall i, j :: 0 <= i < j < |done| ==>
      var a, b := before[done[i].id], before[done[j].id];
      a.priority > b.priority || (a.priority == b.priority && a.enqueuedAt <= b.enqueuedAt)
    ensures forall i, id :: (0 <= i < |done| && id in after && after[id].status == Ready
                             && after[id].backend == backend && (queue == "" || after[id].queue == queue)
                             && (after[id].runAfter.None? || after[id].runAfter.value <= now)) ==>
      var a, b := before[done[i].id], before[id];
      a.priority > b.priority || (a.priority == b.priority && a.enqueuedAt <= b.enqueuedAt)
  {
    EligibleInFields(before, queue, backend, now);
    EligibleInFields(after, queue, backend, now);
  }

  /** And what the drain leaves of them. */
  lemma DrainedInFields(before: map<TaskId, Row>, rows: map<TaskId, Row>, done: seq<Processed>,
                        alone: bool, wid: string, work: TaskId -> Outcome, now: int)
    requires Drained(before, rows, done, alone, wid, work, now)
    ensures rows.Keys == before.Keys && forall i :: 0 <= i < |done| ==> done[i].id in before
    ensures forall i :: 0 <= i < |done| ==>
      var was, row := before[done[i].id], done[i].row;
      var base := was.(startedAt := if was.startedAt.Some? then was.startedAt else Some(now),
                       lastAttemptedAt := Some(now), finishedAt := Some(now),
                       workerIds := if wid == "" then was.workerIds else was.workerIds + [wid]);
      match work(done[i].id)
      case Returned(value) => row == base.(status := Successful, returnValue := Some(value))
      case RaisedError(path) => row == base.(status := Failed, errors := was.errors + [Raised(path)])
      case ReceiverRaised(value, path) =>
        row == base.(status := Failed, returnValue := Some(value), errors := was.errors + [Raised(path)])
  {
    hide RanRow;
    forall i | 0 <= i < |done| {
      RanRowInFields(before[done[i].id], before[done[i].id], wid, work(done[i].id), now);
    }
  }

  lemma NothingDrained(rows: map<TaskId, Row>, queue: string, backend: string,
                       alone: bool, wid: string, work: TaskId -> Outcome, now: int)
    ensures Drained(rows, rows, [], alone, wid, work, now)
    ensures InOrder(rows, [], Eligible(rows, queue, backend, now), Eligible(rows, queue, backend, now))
  {
  }

  /** A task that was processed is no longer pending. */
  lemma OneLess(rows: map<TaskId, Row>, p: Processed, start: set<TaskId>, left: set<TaskId>)
    requires start <= rows.Keys && InOrder(rows, [p], start, left)
    ensures |left| < |start| && (left == start - {p.id} ==> |left| == |start| - 1)
  {
    assert [p][0].id in start - left;
    SmallerSet(left, start);
  }

  lemma AloneCovers(before: map<TaskId, Row>, after: map<TaskId, Row>, done: seq<Processed>,
                    queue: string, backend: string, wid: string, work: TaskId -> Outcome, now: int)
    requires Drained(before, after, done, true, wid, work, now)
    ensures Covers(done, Eligible(before, queue, backend, now), Eligible(after, queue, backend, now))
  {
    forall id | id in Eligible(before, queue, backend, now)
      ensures id in Eligible(after, queue, backend, now) || exists i :: 0 <= i < |done| && done[i].id == id
    {
      if forall i :: 0 <= i < |done| ==> done[i].id != id {
        assert Spared(before[id], after[id], true, now);
      }
    }
  }

  datatype ByIdResult = DoesNotExist | NotExecutable | Ran(row: Row)

  predicate IsExecutable(row: Row, allowRetry: bool) {
    row.status.Ready? || (allowRetry && row.status.Failed?)
  }

  /** The row as it is run: a FAILED one is first put back in READY. */
  function Reset(row: Row): Row {
    if row.status.Failed? then RetriedRow(row) else row
  }

  /** The transaction that selects the task and, for a retry, resets it. */
  method SelectById(db: TaskTable, id: TaskId, allowRetry: bool) returns (task: DatabaseTask?)
    modifies db
    ensures task != null <==>
      id in old(db.rows) && (old(db.rows)[id].status == Ready || (allowRetry && old(db.rows)[id].status == Failed))
    ensures task == null ==> db.rows == old(db.rows)
    ensures task != null ==>
      && fresh(task) && task.id == id
      && db.rows == old(db.rows)[id := Reset(old(db.rows)[id])]
      && task.row == db.rows[id]
      && task.row == old(db.rows)[id].(status := Ready,
           finishedAt := if old(db.rows)[id].status == Failed then None else old(db.rows)[id].finishedAt)
  {
    if id !in db.rows || !IsExecutable(db.rows[id], allowRetry) {
      return null;
    }
    task := new DatabaseTask(id, db.rows[id]);
    if task.row.status.Failed? {
      task.row := RetriedRow(task.row);
      db.rows := db.rows[id := RetriedRow(db.rows[id])];
    }
  }

  /**
   Runs one task by its id. Between selecting and claiming it others may claim
   tasks, that one included: then it is not executable here after all.
   */
  method RunTaskById(db: TaskTable, id: TaskId, wid: string, allowRetry: bool, alone: bool, outcome: Outcome, now: int)
    returns (result: ByIdResult)
    modifies db
    ensures result.DoesNotExist? <==> id !in old(db.rows)
    ensures var executable := id in old(db.rows) && IsExecutable(old(db.rows)[id], allowRetry);
      && (!executable ==> !result.Ran? && db.rows == old(db.rows))
      && (executable && alone ==> result.Ran?)
      && (executable ==> RanById(old(db.rows), db.rows, id, wid, alone, outcome, now, result))
    ensures result.Ran? ==>
      && id in db.rows && result.row == db.rows[id]
      && var was := old(db.rows)[id];
      var base := was.(startedAt := if was.startedAt.Some? then was.startedAt else Some(now),
                       lastAttemptedAt := Some(now), finishedAt := Some(now),
                       workerIds := if wid == "" then was.workerIds else was.workerIds + [wid]);
      match outcome
      case Returned(value) => result.row == base.(status := Successful, returnValue := Some(value))
      case RaisedError(path) => result.row == base.(status := Failed, errors := was.errors + [Raised(path)])
      case ReceiverRaised(value, path) =>
        result.row == base.(status := Failed, returnValue := Some(value), errors := was.errors + [Raised(path)])
    ensures db.rows.Keys == old(db.rows).Keys
    ensures forall other :: other in db.rows && (other != id || !result.Ran?) ==>
      var was, row := old(db.rows)[other], db.rows[other];
      if alone then row == was
      else row == was || ((was.status == Ready || other == id) && row.status == Running)
  {
    if id !in db.rows {
      return DoesNotExist;
    }
    var task := SelectById(db, id, allowRetry);
    if task == null {
      return NotExecutable;
    }
    db.OtherWorkersClaim(alone, now);
    var row := db.RunTask(task, wid, outcome, now);
    result := if row.Some? then Ran(row.value) else NotExecutable;
    RanRowInFields(old(db.rows)[id], Reset(old(db.rows)[id]), wid, outcome, now);
  }

  /**
   What is left of an executable task: it ran here and has its earlier errors
   and worker ids, or another worker claimed it. No other row was written here.
   */
  ghost predicate RanById(before: map<TaskId, Row>, after: map<TaskId, Row>, id: TaskId, wid: string, alone: bool,
                          outcome: Outcome, now: int, result: ByIdResult)
    requires id in before
  {
    && after.Keys == before.Keys
    && (forall other :: other in before && other != id ==> Spared(before[other], after[other], alone, now))
    && match result
       case Ran(row) =>
         && row == after[id] == RanRow(Reset(before[id]), wid, outcome, now)
         && before[id].errors <= row.errors && row.workerIds == WithWorker(before[id].workerIds, wid)
       case _ => !alone && Taken(Reset(before[id]), after[id], now)
  }

  /** What a run leaves of a row, put back in READY or not. */
  lemma RanRowInFields(was: Row, reset: Row, wid: string, outcome: Outcome, now: int)
    requires reset == was || reset == Reset(was)
    ensures var base := was.(startedAt := if was.startedAt.Some? then was.startedAt else Some(now),
                            lastAttemptedAt := Some(now), finishedAt := Some(now),
                            workerIds := if wid == "" then was.workerIds else was.workerIds + [wid]);
      match outcome
      case Returned(value) =>
        RanRow(reset, wid, outcome, now) == base.(status := Successful, returnValue := Some(value))
      case RaisedError(path) =>
        RanRow(reset, wid, outcome, now) == base.(status := Failed, errors := was.errors + [Raised(path)])
      case ReceiverRaised(value, path) =>
        RanRow(reset, wid, outcome, now)
          == base.(status := Failed, returnValue := Some(value), errors := was.errors + [Raised(path)])
  {
  }

  /** Without ties there is one drain order: of two drains, the shorter is the start of the longer. */
  lemma {:induction false} DrainOrderIsUnique(before: map<TaskId, Row>, start: set<TaskId>,
                                              a: seq<Processed>, aLeft: set<TaskId>,
                                              b: seq<Processed>, bLeft: set<TaskId>, k: nat)
    requires start <= before.Keys && forall x, y :: x in start && y in start && x != y ==>
      before[x].priority != before[y].priority || before[x].enqueuedAt != before[y].enqueuedAt
    requires InOrder(before, a, start, aLeft) && Covers(a, start, aLeft)
    requires InOrder(before, b, start, bLeft) && Covers(b, start, bLeft)
    requires k < |a| && k < |b|
    ensures a[k].id == b[k].id
    decreases k
  {
    forall i | 0 <= i < k ensures a[i].id == b[i].id {
      DrainOrderIsUnique(before, start, a, aLeft, b, bLeft, i);
    }
    NotLaterThanRest(before, start, a, aLeft, b, k);
    NotLaterThanRest(before, start, b, bLeft, a, k);
  }

  /** Every pending task was processed or is left. */
  ghost predicate Covers(done: seq<Processed>, start: set<TaskId>, left: set<TaskId>) {
    forall id :: id in start ==> id in left || exists i :: 0 <= i < |done| && done[i].id == id
  }

  /** What one drain runs k-th is not later than what another runs k-th, if they agree before. */
  lemma NotLaterThanRest(before: map<TaskId, Row>, start: set<TaskId>, a: seq<Processed>, left: set<TaskId>,
                         b: seq<Processed>, k: nat)
    requires start <= before.Keys && InOrder(before, a, start, left) && Covers(a, start, left) && k < |a| && k < |b|
    requires b[k].id in start && forall i :: 0 <= i < k ==> a[i].id == b[i].id != b[k].id
    ensures NotLater(before[a[k].id], before[b[k].id])
  {
    if b[k].id !in left {
      var i :| 0 <= i < |a| && a[i].id == b[k].id;
      assert i >= k;
    }
  }

  lemma SmallerSet(a: set<TaskId>, b: set<TaskId>)
    requires a < b
    ensures |a| < |b|
  {
    assert !(b <= a);
    var x :| x in b && x !in a;
    SubsetSize(a, b - {x});
  }

  lemma {:induction false} SubsetSize(a: set<TaskId>, b: set<TaskId>)
    requires a <= b
    ensures |a| <= |b|
    decreases |a|
  {
    if a == {} {
    } else {
      var x :| x in a;
      SubsetSize(a - {x}, b - {x});
    }
  }
}
