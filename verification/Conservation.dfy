/** When no task is lost, and when the purge can lose one. */
module Conservation {
  import opened Options
  import opened Rows
  import opened Protocol
  import opened Locking
  import opened Exclusion
  import opened Scenarios

  /** The step deletes the row while it is completed. */
  ghost predicate PurgesCompleted(s: State, a: Action, id: TaskId) {
    a.PurgeDelete? && Doing(s, a.w).Purging? && id in Doing(s, a.w).ids && id in s.rows && s.rows[id].Completed()
  }

  /** Somewhere in the run the row was purged while completed. */
  ghost predicate PurgedCompleted(cfg: Config, s: State, run: seq<Action>, id: TaskId)
    requires Valid(cfg, s, run)
    decreases |run|
  {
    run != [] && (PurgesCompleted(s, run[0], id) || PurgedCompleted(cfg, Apply(cfg, s, run[0]), run[1..], id))
  }

  /** What a pending purge has selected is still completed. */
  ghost predicate PurgeInv(cfg: Config, s: State) {
    && s.rows.Keys <= s.known
    && (forall w, id :: w in s.activities && s.activities[w].Purging? && id in s.activities[w].ids && id in s.rows ==>
          s.rows[id].Completed())
    && (forall w, id :: w in s.activities && s.activities[w].Purging? && id in s.activities[w].ids ==> id in s.known)
    && (!cfg.retries ==> forall w :: w in s.activities ==> !s.activities[w].Retrying?)
  }

  /** Only a retry turns a completed row into another, and the deployment keeps it away from purges. */
  predicate PurgeSafe(cfg: Config) {
    cfg.atomicPurge || !cfg.retries
  }

  lemma PurgeInvAtWork(cfg: Config, s: State, a: Action)
    requires IsWork(a)
    requires PurgeSafe(cfg) && PurgeInv(cfg, s) && Enabled(cfg, s, a)
    ensures PurgeInv(cfg, Apply(cfg, s, a))
  {
  }

  lemma PurgeInvAtUpkeep(cfg: Config, s: State, a: Action)
    requires !IsWork(a)
    requires PurgeSafe(cfg) && PurgeInv(cfg, s) && Enabled(cfg, s, a)
    ensures PurgeInv(cfg, Apply(cfg, s, a))
  {
  }

  lemma PurgeInvStep(cfg: Config, s: State, a: Action)
    requires PurgeSafe(cfg) && PurgeInv(cfg, s) && Enabled(cfg, s, a)
    ensures PurgeInv(cfg, Apply(cfg, s, a))
  {
    if IsWork(a) {
      PurgeInvAtWork(cfg, s, a);
    } else {
      PurgeInvAtUpkeep(cfg, s, a);
    }
  }

  lemma {:induction false} StoredOrPurged(cfg: Config, s: State, run: seq<Action>, id: TaskId)
    requires PurgeSafe(cfg) && PurgeInv(cfg, s) && Valid(cfg, s, run)
    requires id in s.known ==> id in s.rows
    ensures id in Exec(cfg, s, run).known ==> id in Exec(cfg, s, run).rows || PurgedCompleted(cfg, s, run, id)
    decreases |run|
  {
    if run == [] {
    } else {
      PurgeInvStep(cfg, s, run[0]);
      if !PurgesCompleted(s, run[0], id) {
        StoredOrPurged(cfg, Apply(cfg, s, run[0]), run[1..], id);
      }
    }
  }

  /** Every task ever enqueued is in the table, or was purged once it had completed. */
  ghost predicate Conserves(cfg: Config) {
    forall run, id :: Valid(cfg, Init(), run) && id in Exec(cfg, Init(), run).known ==>
      id in Exec(cfg, Init(), run).rows || PurgedCompleted(cfg, Init(), run, id)
  }

  lemma {:induction false} PurgedIsGone(cfg: Config, s: State, run: seq<Action>, id: TaskId)
    requires Valid(cfg, s, run) && s.rows.Keys <= s.known && PurgedCompleted(cfg, s, run, id)
    ensures id !in Exec(cfg, s, run).rows
    decreases |run|
  {
    var t := Apply(cfg, s, run[0]);
    if PurgesCompleted(s, run[0], id) {
      GoneForGood(cfg, t, run[1..], id);
    } else {
      PurgedIsGone(cfg, t, run[1..], id);
    }
  }

  lemma {:induction false} PurgedExtend(cfg: Config, s: State, run: seq<Action>, a: Action, id: TaskId)
    requires Valid(cfg, s, run) && Enabled(cfg, Exec(cfg, s, run), a) && Valid(cfg, s, run + [a])
    requires PurgedCompleted(cfg, s, run + [a], id)
    ensures PurgedCompleted(cfg, s, run, id) || PurgesCompleted(Exec(cfg, s, run), a, id)
    decreases |run|
  {
    if run == [] {
      assert run + [a] == [a];
    } else {
      assert (run + [a])[1..] == run[1..] + [a];
      if !PurgesCompleted(s, run[0], id) {
        PurgedExtend(cfg, Apply(cfg, s, run[0]), run[1..], a, id);
      }
    }
  }

  /** A purge is about to delete task 0, which is no longer completed. */
  ghost predicate AboutToLose(cfg: Config, s: State) {
    Enabled(cfg, s, PurgeDelete(2)) && 0 in Doing(s, 2).ids && 0 in s.known && StillReady(s, 0)
  }

  /** The state after worker 2 selected a failed task to purge it, and worker 3 retried it. */
  function OvertakenPurge(): State {
    Retried(Become(Attempted(OneTask(), 1, "a"), 2, Purging({0})), 3, "b")
  }

  lemma BackToOvertakenPurge(cfg: Config, goal: State -> bool)
    requires !PurgeSafe(cfg) && Reaches(cfg, OvertakenPurge(), goal)
    ensures Reaches(cfg, Init(), goal)
  {
    hide Reaches;
    var s := Attempted(OneTask(), 1, "a");
    BackToRetry(cfg, Become(s, 2, Purging({0})), 3, "b", goal);
    Back(cfg, s, PurgeSelect(2, {0}), goal);
    BackToAttempt(cfg, OneTask(), 1, "a", goal);
    BackToInit(cfg, goal);
  }

  /** A failed task is retried between the SELECT and the DELETE of a purge. */
  lemma RetryInsidePurge(cfg: Config)
    requires !PurgeSafe(cfg)
    ensures Reaches(cfg, Init(), (s: State) => AboutToLose(cfg, s))
  {
    var bad := (s: State) => AboutToLose(cfg, s);
    assert Doing(OvertakenPurge(), 2) == Purging({0}) && StillReady(OvertakenPurge(), 0);
    Here(cfg, OvertakenPurge(), bad);
    BackToOvertakenPurge(cfg, bad);
  }

  /** Exactly the deployments that never lose a task to a purge. */
  lemma ConservesExactlyWhenPurgeSafe(cfg: Config)
    ensures Conserves(cfg) <==> PurgeSafe(cfg)
  {
    if PurgeSafe(cfg) {
      forall run, id | Valid(cfg, Init(), run) && id in Exec(cfg, Init(), run).known
        ensures id in Exec(cfg, Init(), run).rows || PurgedCompleted(cfg, Init(), run, id)
      {
        StoredOrPurged(cfg, Init(), run, id);
      }
    } else {
      RetryInsidePurge(cfg);
      var goal := (s: State) => AboutToLose(cfg, s);
      assert Reaches(cfg, Init(), goal);
      var run :| Valid(cfg, Init(), run) && goal(Exec(cfg, Init(), run));
      Extend(cfg, Init(), run, PurgeDelete(2));
      var longer := run + [PurgeDelete(2)];
      if PurgedCompleted(cfg, Init(), longer, 0) {
        PurgedExtend(cfg, Init(), run, PurgeDelete(2), 0);
        PurgedIsGone(cfg, Init(), run, 0);
        assert false;
      }
      assert 0 in Exec(cfg, Init(), longer).known;
    }
  }

  /** A live run's row is there: it is RUNNING, so no safe purge takes it. */
  ghost predicate RowKept(s: State) {
    forall w :: w in s.activities && s.activities[w].Executing? ==> s.activities[w].id in s.rows
  }

  lemma RowKeptStep(cfg: Config, s: State, a: Action)
    requires PurgeSafe(cfg) && TimedInv(cfg, s) && PurgeInv(cfg, s) && RowKept(s) && Enabled(cfg, s, a)
    ensures RowKept(Apply(cfg, s, a))
  {
  }

  lemma {:induction false} RowKeptHolds(cfg: Config, s: State, run: seq<Action>)
    requires SafelyTimed(cfg) && PurgeSafe(cfg) && Valid(cfg, s, run)
    requires TimedInv(cfg, s) && PurgeInv(cfg, s) && RowKept(s)
    ensures RowKept(Exec(cfg, s, run))
    decreases |run|
  {
    if run == [] {
    } else {
      TimedInvStep(cfg, s, run[0]);
      PurgeInvStep(cfg, s, run[0]);
      RowKeptStep(cfg, s, run[0]);
      RowKeptHolds(cfg, Apply(cfg, s, run[0]), run[1..]);
    }
  }

  /** Every finishing write of a run lands on the writer's own RUNNING row. */
  lemma FinishLandsOnOwnRow(cfg: Config, run: seq<Action>, w: WorkerKey)
    requires SafelyTimed(cfg) && PurgeSafe(cfg) && Valid(cfg, Init(), run)
    requires Doing(Exec(cfg, Init(), run), w).Executing?
    ensures var s := Exec(cfg, Init(), run);
            var d := Doing(s, w);
            && d.id in s.rows
            && s.rows[d.id].status.Running?
            && s.rows[d.id].lastAttemptedAt == Some(d.stamp)
            && s.clock <= d.stamp + cfg.deadline.value
            && (d.wid != "" ==>
                  s.rows[d.id].workerIds != [] && s.rows[d.id].workerIds[|s.rows[d.id].workerIds| - 1] == d.wid)
  {
    TimedInvHolds(cfg, Init(), run);
    RowKeptHolds(cfg, Init(), run);
    assert Owns(Exec(cfg, Init(), run), Doing(Exec(cfg, Init(), run), w));
  }

  /** A worker that is running a task finds its row stored and RUNNING. */
  ghost predicate OnOwnRow(s: State, w: WorkerKey) {
    var d := Doing(s, w);
    d.Executing? ==> d.id in s.rows && s.rows[d.id].status.Running?
  }

  /** A retry, the claim that follows it and the end of a purge that was under way. */
  lemma PurgedWhileRunning(cfg: Config)
    requires !PurgeSafe(cfg)
    ensures Reaches(cfg, Init(), (s: State) => !OnOwnRow(s, 3))
  {
    var bad := (s: State) => !OnOwnRow(s, 3);
    ClaimedThenPurged(cfg, OvertakenPurge());
    BackToOvertakenPurge(cfg, bad);
  }

  lemma ClaimedThenPurged(cfg: Config, s: State)
    requires StillReady(s, 0) && Unblocked(cfg, s) && !cfg.atomicPurge
    requires Doing(s, 2) == Purging({0})
    requires Doing(s, 3).Holding? && Doing(s, 3).id == 0 && Doing(s, 3).since == s.clock
    ensures Reaches(cfg, s, (s: State) => !OnOwnRow(s, 3))
  {
    var bad := (s: State) => !OnOwnRow(s, 3);
    var s1 := Apply(cfg, s, ClaimSelect(3, s.clock));
    var s2 := Apply(cfg, s1, ClaimUpdate(3));
    var s3 := Apply(cfg, s2, PurgeDelete(2));
    assert 0 !in s3.rows;
    Here(cfg, s3, bad);
    Back(cfg, s2, PurgeDelete(2), bad);
    Back(cfg, s1, ClaimUpdate(3), bad);
    Back(cfg, s, ClaimSelect(3, s.clock), bad);
  }

  /** A second recovery of one lost run requeues the run that followed the first. */
  lemma RequeuedWhileRunning(cfg: Config)
    requires !cfg.locks
    ensures Reaches(cfg, Init(), (s: State) => !OnOwnRow(s, 1))
  {
    var bad := (s: State) => !OnOwnRow(s, 1);
    Here(cfg, RunAgain(cfg), bad);
    BackToRunAgain(cfg, bad);
  }

  /** And so does a recovery of a run that is still going. */
  lemma RequeuedTooEarly(cfg: Config)
    requires cfg.deadline.None? || cfg.olderThan < cfg.deadline.value
    ensures Reaches(cfg, Init(), (s: State) => !OnOwnRow(s, 1))
  {
    var bad := (s: State) => !OnOwnRow(s, 1);
    Here(cfg, TooEarly(cfg), bad);
    BackToTooEarly(cfg, bad);
  }

  ghost predicate AlwaysOnOwnRow(cfg: Config) {
    forall run, w :: Valid(cfg, Init(), run) ==> OnOwnRow(Exec(cfg, Init(), run), w)
  }

  /** Exactly the deployments in which a running worker's row is always there for it to finish. */
  lemma OnOwnRowExactlyWhenTimedAndPurgeSafe(cfg: Config)
    ensures AlwaysOnOwnRow(cfg) <==> SafelyTimed(cfg) && PurgeSafe(cfg)
  {
    if SafelyTimed(cfg) && PurgeSafe(cfg) {
      forall run, w | Valid(cfg, Init(), run) ensures OnOwnRow(Exec(cfg, Init(), run), w) {
        if Doing(Exec(cfg, Init(), run), w).Executing? {
          FinishLandsOnOwnRow(cfg, run, w);
        }
      }
    } else if !PurgeSafe(cfg) {
      PurgedWhileRunning(cfg);
    } else if !cfg.locks {
      RequeuedWhileRunning(cfg);
    } else {
      RequeuedTooEarly(cfg);
    }
  }
}
