/**
 The backend's methods are runs of the protocol: whatever the worker's copy
 is, whatever time passes between its transactions, and whatever others do in
 between, each transaction leaves the table that the protocol's steps leave.
 */
module Linking {
  import opened Options
  import opened Rows
  import opened Protocol
  import opened Backend
  import Executor
  import Maintenance

  /** The protocol can get from s to t. */
  ghost predicate Leads(cfg: Config, s: State, t: State) {
    exists run :: Valid(cfg, s, run) && Exec(cfg, s, run) == t
  }

  lemma LeadsBy(cfg: Config, s: State, run: seq<Action>)
    requires Valid(cfg, s, run)
    ensures Leads(cfg, s, Exec(cfg, s, run))
  {
  }

  lemma LeadsOn(cfg: Config, s: State, t: State, u: State)
    requires Leads(cfg, s, t) && Leads(cfg, t, u)
    ensures Leads(cfg, s, u)
  {
    var a :| Valid(cfg, s, a) && Exec(cfg, s, a) == t;
    var b :| Valid(cfg, t, b) && Exec(cfg, t, b) == u;
    Append(cfg, s, a, b);
    assert Valid(cfg, s, a + b) && Exec(cfg, s, a + b) == u;
  }

  lemma LeadsByStep(cfg: Config, s: State, a: Action)
    requires Enabled(cfg, s, a)
    ensures Leads(cfg, s, Apply(cfg, s, a))
  {
    OneStep(cfg, s, a);
    LeadsBy(cfg, s, [a]);
  }

  /** The state after w claims the task it holds, with whatever copy it has. */
  ghost function Claimed(s: State, w: WorkerKey, now: int): State
    requires Doing(s, w).Holding?
  {
    var d := Doing(s, w);
    if StillReady(s, d.id) then
      var stored := s.rows[d.id];
      Become(Write(s, d.id, ClaimedRow(stored, stored, d.wid, now)), w,
             Executing(d.id, d.wid, ClaimedRow(d.copy, stored, d.wid, now), now, s.clock))
    else
      Become(s, w, Idle)
  }

  /** Whatever the copy, and whether or not the row is still there to claim. */
  lemma ClaimIsARun(cfg: Config, s: State, w: WorkerKey, now: int)
    requires Doing(s, w).Holding? && !Blocked(cfg, s, w, Doing(s, w).id)
    requires GoodStamp(cfg, s, Doing(s, w).since, now) && InTime(cfg, now, s.clock)
    ensures Leads(cfg, s, Claimed(s, w, now))
  {
    var d := Doing(s, w);
    var s1 := Apply(cfg, s, ClaimSelect(w, now));
    LeadsByStep(cfg, s, ClaimSelect(w, now));
    if StillReady(s, d.id) {
      assert forall v :: v != w ==> (v in s1.activities <==> v in s.activities) && Doing(s1, v) == Doing(s, v);
      assert !Blocked(cfg, s1, w, d.id);
      LeadsByStep(cfg, s1, ClaimUpdate(w));
      assert Apply(cfg, s1, ClaimUpdate(w)).activities == Claimed(s, w, now).activities;
      LeadsOn(cfg, s, s1, Apply(cfg, s1, ClaimUpdate(w)));
    }
  }

  /** The state after the run of w ends: nothing is written if the row was deleted. */
  ghost function Finished(s: State, w: WorkerKey, outcome: Outcome): State
    requires Doing(s, w).Executing?
  {
    var d := Doing(s, w);
    var t := if d.id in s.rows
      then Write(s, d.id, FinishedRow(s.rows[d.id], d.copy.errors, outcome, s.clock))
      else s;
    Become(t, w, Idle)
  }

  /** At any later time, over whatever the row has become. */
  lemma FinishIsARun(cfg: Config, s: State, w: WorkerKey, outcome: Outcome)
    requires Doing(s, w).Executing? && !Blocked(cfg, s, w, Doing(s, w).id) && Doing(s, w).since <= s.clock
    ensures Leads(cfg, s, Finished(s, w, outcome))
  {
    match outcome
    case RaisedError(path) =>
      LeadsByStep(cfg, s, Fail(w, Raised(path), s.clock));
    case Returned(value) =>
      var s1 := Apply(cfg, s, Succeed(w, value, s.clock));
      LeadsByStep(cfg, s, Succeed(w, value, s.clock));
      if Doing(s, w).id in s.rows {
        LeadsByStep(cfg, s1, Report(w));
        assert Apply(cfg, s1, Report(w)).activities == Finished(s, w, outcome).activities;
        LeadsOn(cfg, s, s1, Apply(cfg, s1, Report(w)));
      }
    case ReceiverRaised(value, path) =>
      SavedThenRaised(cfg, s, w, value, path);
  }

  lemma SavedThenRaised(cfg: Config, s: State, w: WorkerKey, value: Value, path: string)
    requires Doing(s, w).Executing? && !Blocked(cfg, s, w, Doing(s, w).id) && Doing(s, w).since <= s.clock
    ensures Leads(cfg, s, Finished(s, w, ReceiverRaised(value, path)))
  {
    var d := Doing(s, w);
    var s1 := Apply(cfg, s, Succeed(w, value, s.clock));
    LeadsByStep(cfg, s, Succeed(w, value, s.clock));
    if d.id in s.rows {
      assert forall v :: v != w ==> (v in s1.activities <==> v in s.activities) && Doing(s1, v) == Doing(s, v);
      assert !Blocked(cfg, s1, w, d.id);
      var a := Fail(w, Raised(path), s.clock);
      LeadsByStep(cfg, s1, a);
      assert Apply(cfg, s1, a).activities == Finished(s, w, ReceiverRaised(value, path)).activities;
      assert Apply(cfg, s1, a).rows == Finished(s, w, ReceiverRaised(value, path)).rows;
      LeadsOn(cfg, s, s1, Apply(cfg, s1, a));
    }
  }

  /** The state after w selects a task by its id, to retry it if it failed. */
  ghost function Selected(s: State, w: WorkerKey, wid: string, id: TaskId): State
    requires id in s.rows
  {
    var row := Executor.Reset(s.rows[id]);
    Become(Write(s, id, row), w, Holding(id, wid, row, s.clock))
  }

  lemma SelectIsARun(cfg: Config, s: State, w: WorkerKey, wid: string, id: TaskId)
    requires Doing(s, w).Idle? && id in s.rows && !Blocked(cfg, s, w, id)
    requires Executor.IsExecutable(s.rows[id], cfg.retries)
    ensures Leads(cfg, s, Selected(s, w, wid, id))
  {
    if s.rows[id].status.Ready? {
      LeadsByStep(cfg, s, Fetch(w, wid, id));
      assert Apply(cfg, s, Fetch(w, wid, id)).rows == Selected(s, w, wid, id).rows;
    } else {
      var s1 := Apply(cfg, s, RetrySelect(w, wid, id));
      LeadsByStep(cfg, s, RetrySelect(w, wid, id));
      assert forall v :: v != w ==> (v in s1.activities <==> v in s.activities) && Doing(s1, v) == Doing(s, v);
      assert !Blocked(cfg, s1, w, id);
      LeadsByStep(cfg, s1, RetryUpdate(w));
      assert Apply(cfg, s1, RetryUpdate(w)).activities == Selected(s, w, wid, id).activities;
      LeadsOn(cfg, s, s1, Apply(cfg, s1, RetryUpdate(w)));
    }
  }

  /** From w on, the workers have nothing to do; the others do what they did. */
  ghost predicate SameBelow(s: State, t: State, w: WorkerKey) {
    && (forall v: WorkerKey :: v < w ==> (v in t.activities <==> v in s.activities) && Doing(t, v) == Doing(s, v))
    && IdleFrom(t, w)
  }

  ghost predicate IdleFrom(s: State, w: WorkerKey) {
    forall v: WorkerKey :: v >= w ==> Doing(s, v).Idle?
  }

  /** Worker w goes to work, and comes to rest again once those after it have. */
  lemma BackToRest(s: State, w: WorkerKey, d: Activity, t: State)
    requires IdleFrom(s, w)
    ensures IdleFrom(Become(s, w, d), w + 1)
    ensures SameBelow(Become(s, w, d), t, w + 1) ==> SameBelow(s, Become(t, w, Idle), w)
  {
    var s1, u := Become(s, w, d), Become(t, w, Idle);
    forall v: WorkerKey | v >= w + 1 ensures Doing(s1, v).Idle? {
      assert Doing(s1, v) == Doing(s, v);
    }
    if SameBelow(s1, t, w + 1) {
      forall v: WorkerKey | v >= w ensures Doing(u, v).Idle? {
        assert v > w ==> Doing(u, v) == Doing(t, v);
      }
      forall v: WorkerKey | v < w ensures (v in u.activities <==> v in s.activities) && Doing(u, v) == Doing(s, v) {
        assert (v in t.activities <==> v in s1.activities) && Doing(t, v) == Doing(s1, v);
      }
    }
  }

  /** The table as the tasks were recovered, by workers from w on. */
  ghost predicate AfterBatch(s: State, t: State, ids: seq<TaskId>, w: WorkerKey, cutoff: int,
                             maxAttempts: nat, markFailed: bool)
  {
    && SameBelow(s, t, w) && t.clock == s.clock
    && t.rows == Maintenance.Recovered(s.rows, Maintenance.Elements(ids), maxAttempts, markFailed, cutoff, s.clock)
  }

  /** No worker is in a transaction on any of the rows. */
  ghost predicate NoneBlocked(cfg: Config, s: State, ids: seq<TaskId>) {
    forall v, id :: v in s.activities && id in ids ==> !InTransaction(cfg, s.activities[v], id)
  }

  /**
   A recovery batch is several recoverers, one a row: all select before any
   updates, so that the batch is one transaction under row locks, and the
   table is the one that recovering the tasks one after another leaves.
   */
  lemma {:induction false} BatchIsARun(cfg: Config, s: State, ids: seq<TaskId>, w: WorkerKey, begun: int,
                                       maxAttempts: nat, markFailed: bool)
    requires Maintenance.NoRepeats(ids) && begun <= s.clock
    requires forall id :: id in ids ==> id in s.rows && Stale(s.rows[id], begun - cfg.olderThan)
    requires NoneBlocked(cfg, s, ids) && IdleFrom(s, w)
    ensures exists t :: Leads(cfg, s, t) && AfterBatch(s, t, ids, w, begun - cfg.olderThan, maxAttempts, markFailed)
    decreases |ids|
  {
    hide Leads, AfterBatch;
    var cutoff := begun - cfg.olderThan;
    if ids == [] {
      LeadsBy(cfg, s, []);
      NothingToDo(s, w, cutoff, maxAttempts, markFailed);
    } else {
      var id, rest := ids[0], ids[1..];
      assert id in ids && !Blocked(cfg, s, w, id);
      var a := RecoverSelect(w, id, begun, maxAttempts, markFailed);
      var s1 := Apply(cfg, s, a);
      LeadsByStep(cfg, s, a);
      BackToRest(s, w, Doing(s1, w), s1);
      FirstOutOfTheWay(cfg, s, ids, w, Doing(s1, w));
      BatchIsARun(cfg, s1, rest, w + 1, begun, maxAttempts, markFailed);
      var t1 :| Leads(cfg, s1, t1) && AfterBatch(s1, t1, rest, w + 1, cutoff, maxAttempts, markFailed);
      LastUpdate(cfg, s, t1, ids, w, cutoff, maxAttempts, markFailed);
      var t := Apply(cfg, t1, RecoverUpdate(w, s.clock));
      LeadsByStep(cfg, t1, RecoverUpdate(w, s.clock));
      LeadsOn(cfg, s, s1, t1);
      LeadsOn(cfg, s, t1, t);
    }
  }

  lemma NothingToDo(s: State, w: WorkerKey, cutoff: int, maxAttempts: nat, markFailed: bool)
    requires IdleFrom(s, w)
    ensures AfterBatch(s, s, [], w, cutoff, maxAttempts, markFailed)
  {
    assert Maintenance.Recovered(s.rows, Maintenance.Elements([]), maxAttempts, markFailed, cutoff, s.clock) == s.rows;
  }

  /** And a transaction on the first of the rows is not in the way of the others. */
  lemma FirstOutOfTheWay(cfg: Config, s: State, ids: seq<TaskId>, w: WorkerKey, mine: Activity)
    requires ids != [] && Maintenance.NoRepeats(ids) && NoneBlocked(cfg, s, ids)
    requires mine.Recovering? && mine.id == ids[0]
    ensures Maintenance.NoRepeats(ids[1..]) && NoneBlocked(cfg, Become(s, w, mine), ids[1..])
  {
    var s1, rest := Become(s, w, mine), ids[1..];
    assert forall i :: 0 <= i < |rest| ==> rest[i] == ids[i + 1] != ids[0];
    forall v, other | v in s1.activities && other in rest ensures !InTransaction(cfg, s1.activities[v], other) {
      assert other in ids && (v != w ==> v in s.activities && s1.activities[v] == s.activities[v]);
    }
  }

  /** The recoverer that selected first updates last, a row that no other touched. */
  lemma LastUpdate(cfg: Config, s: State, t: State, ids: seq<TaskId>, w: WorkerKey, cutoff: int,
                   maxAttempts: nat, markFailed: bool)
    requires ids != [] && Maintenance.NoRepeats(ids) && NoneBlocked(cfg, s, ids)
    requires forall id :: id in ids ==> id in s.rows && Stale(s.rows[id], cutoff)
    requires IdleFrom(s, w)
    requires var s1 := Become(s, w, Recovering(ids[0], s.rows[ids[0]], cutoff, maxAttempts, markFailed, s.clock));
      AfterBatch(s1, t, ids[1..], w + 1, cutoff, maxAttempts, markFailed)
    ensures Enabled(cfg, t, RecoverUpdate(w, s.clock))
    ensures AfterBatch(s, Apply(cfg, t, RecoverUpdate(w, s.clock)), ids, w, cutoff, maxAttempts, markFailed)
  {
    hide Valid, Exec, Executor.Eligible;
    var id := ids[0];
    var mine := Recovering(id, s.rows[id], cutoff, maxAttempts, markFailed, s.clock);
    assert id in ids && s.rows[id].status.Running?;
    assert Doing(t, w) == mine && !Blocked(cfg, t, w, id) by {
      NotInTheWay(cfg, s, t, ids, w, mine);
    }
    Maintenance.RecoveredOneMore(s.rows, ids, maxAttempts, markFailed, cutoff, s.clock);
    var u := Apply(cfg, t, RecoverUpdate(w, s.clock));
    BackToRest(s, w, mine, t);
    assert u.activities == Become(t, w, Idle).activities;
    assert SameBelow(s, u, w) by {
      assert forall v: WorkerKey :: Doing(u, v) == Doing(Become(t, w, Idle), v);
    }
  }

  /** Nobody has got into a transaction on the first of the rows. */
  lemma NotInTheWay(cfg: Config, s: State, t: State, ids: seq<TaskId>, w: WorkerKey, mine: Activity)
    requires ids != [] && NoneBlocked(cfg, s, ids) && SameBelow(Become(s, w, mine), t, w + 1)
    ensures Doing(t, w) == mine && !Blocked(cfg, t, w, ids[0])
  {
    assert ids[0] in ids;
    forall v | v in t.activities && v != w ensures !InTransaction(cfg, t.activities[v], ids[0]) {
      assert v < w ==> v in s.activities && Doing(t, v) == Doing(s, v);
      assert v > w ==> Doing(t, v).Idle?;
    }
  }

  /** One batch of a purge. */
  lemma PurgeIsARun(cfg: Config, s: State, w: WorkerKey, ids: set<TaskId>)
    requires Doing(s, w).Idle?
    requires forall id :: id in ids ==> id in s.rows && s.rows[id].Completed() && !Blocked(cfg, s, w, id)
    ensures Leads(cfg, s, Become(s.(rows := s.rows - ids), w, Idle))
  {
    var s1 := Apply(cfg, s, PurgeSelect(w, ids));
    LeadsByStep(cfg, s, PurgeSelect(w, ids));
    assert forall v :: v != w ==> (v in s1.activities <==> v in s.activities) && Doing(s1, v) == Doing(s, v);
    forall id | id in ids ensures !Blocked(cfg, s1, w, id) {
      assert !Blocked(cfg, s, w, id);
    }
    LeadsByStep(cfg, s1, PurgeDelete(w));
    assert Apply(cfg, s1, PurgeDelete(w)).activities == s.activities[w := Idle];
    LeadsOn(cfg, s, s1, Apply(cfg, s1, PurgeDelete(w)));
  }

  /**
   The table's enqueue, alongside the protocol's: same table. Of any queue,
   whoever was to be fetched first is still, unless the new task is due there
   and more urgent; then that one is.
   */
  method EnqueueAlongside(db: TaskTable, id: TaskId, path: string, queue: string, backend: string, priority: int,
                          runAfter: Option<int>, now: int, ghost cfg: Config, ghost s: State)
    returns (ghost t: State)
    requires db.rows == s.rows && now == s.clock && id !in s.known && s.rows.Keys <= s.known
    modifies db
    ensures Leads(cfg, s, t) && db.rows == t.rows && t.known == s.known + {id}
    ensures forall q, b, n, first ::
      Executor.IsFirst(s.rows, Executor.Eligible(s.rows, q, b, n), first) && s.rows[first].enqueuedAt <= now ==>
        var due := b == backend && (q == "" || q == queue) && (runAfter.Some? ==> runAfter.value <= n);
        var next := if due && priority > s.rows[first].priority then id else first;
        Executor.IsFirst(db.rows, Executor.Eligible(db.rows, q, b, n), next)
  {
    LeadsByStep(cfg, s, Enqueue(id, path, queue, backend, priority, runAfter));
    t := Apply(cfg, s, Enqueue(id, path, queue, backend, priority, runAfter));
    db.Enqueue(id, path, queue, backend, priority, runAfter, now);
    ghost var row := NewRow(path, queue, backend, priority, runAfter, now);
    assert db.rows[id] == row;
    assert db.rows == s.rows[id := row];
    forall q, b, n, first |
      Executor.IsFirst(s.rows, Executor.Eligible(s.rows, q, b, n), first) && s.rows[first].enqueuedAt <= now
      ensures
        var due := b == backend && (q == "" || q == queue) && (runAfter.Some? ==> runAfter.value <= n);
        var next := if due && priority > s.rows[first].priority then id else first;
        Executor.IsFirst(db.rows, Executor.Eligible(db.rows, q, b, n), next)
    {
      Executor.NewTaskWaitsItsTurn(s.rows, id, row, q, b, n, first);
    }
  }

  /** The table's claim, alongside the protocol's: same table, and the copy it leaves is the one the run goes by. */
  method ClaimAlongside(db: TaskTable, task: DatabaseTask, wid: string, now: int,
                        ghost cfg: Config, ghost s: State, ghost w: WorkerKey)
    returns (claimed: bool, ghost t: State)
    requires db.rows == s.rows && Doing(s, w).Holding? && !Blocked(cfg, s, w, task.id)
    requires Doing(s, w).id == task.id && Doing(s, w).wid == wid && Doing(s, w).copy == task.row
    requires GoodStamp(cfg, s, Doing(s, w).since, now) && InTime(cfg, now, s.clock)
    modifies db, task
    ensures Leads(cfg, s, t) && db.rows == t.rows
    ensures Doing(t, w) == if claimed then Executing(task.id, wid, task.row, now, s.clock) else Idle
  {
    ClaimIsARun(cfg, s, w, now);
    t := Claimed(s, w, now);
    claimed := db.ClaimTask(task, wid, now);
  }

  /** And the run of a task that was claimed. */
  method RunAlongside(db: TaskTable, task: DatabaseTask, outcome: Outcome, now: int,
                      ghost cfg: Config, ghost s: State, ghost w: WorkerKey)
    returns (result: Option<Row>, ghost t: State)
    requires db.rows == s.rows && now == s.clock && Doing(s, w).Executing? && !Blocked(cfg, s, w, task.id)
    requires Doing(s, w).id == task.id && Doing(s, w).copy == task.row && Doing(s, w).since <= now
    modifies db, task
    ensures Leads(cfg, s, t) && db.rows == t.rows && Doing(t, w).Idle?
  {
    FinishIsARun(cfg, s, w, outcome);
    t := Finished(s, w, outcome);
    result := db.RunClaimedTask(task, outcome, now);
  }

  /** And selecting a task by its id. */
  method SelectAlongside(db: TaskTable, id: TaskId, wid: string,
                         ghost cfg: Config, ghost s: State, ghost w: WorkerKey, allowRetry: bool)
    returns (task: DatabaseTask?, ghost t: State)
    requires db.rows == s.rows && Doing(s, w).Idle? && !Blocked(cfg, s, w, id) && allowRetry == cfg.retries
    modifies db
    ensures Leads(cfg, s, t) && db.rows == t.rows
    ensures task == null ==> t == s
    ensures task != null ==> fresh(task) && task.id == id && Doing(t, w) == Holding(id, wid, task.row, s.clock)
  {
    LeadsBy(cfg, s, []);
    t := s;
    task := Executor.SelectById(db, id, allowRetry);
    if task != null {
      SelectIsARun(cfg, s, w, wid, id);
      t := Selected(s, w, wid, id);
    }
  }

  /** And one transaction of a recovery. */
  method RecoverAlongside(db: TaskTable, batch: seq<TaskId>, maxAttempts: nat, markFailed: bool, cutoff: int, now: int,
                          ghost begun: int, ghost cfg: Config, ghost s: State, ghost w: WorkerKey)
    returns (summary: Maintenance.Summary, ghost t: State)
    requires db.rows == s.rows && now == s.clock && begun <= now && cutoff == begun - cfg.olderThan
    requires Maintenance.NoRepeats(batch) && forall id :: id in batch ==> id in s.rows && Stale(s.rows[id], cutoff)
    requires NoneBlocked(cfg, s, batch) && IdleFrom(s, w)
    modifies db
    ensures Leads(cfg, s, t) && db.rows == t.rows && SameBelow(s, t, w)
  {
    BatchIsARun(cfg, s, batch, w, begun, maxAttempts, markFailed);
    t :| Leads(cfg, s, t) && AfterBatch(s, t, batch, w, cutoff, maxAttempts, markFailed);
    Maintenance.RecoverAllRows(s.rows, batch, maxAttempts, markFailed, cutoff, now);
    assert [] + batch == batch;
    var requeued;
    summary, requeued := Maintenance.RecoverBatch(db, batch, Maintenance.Summary(0, 0, 0), maxAttempts, markFailed,
                                                  cutoff, now, s.rows, []);
  }
}
