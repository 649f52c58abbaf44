/** When a task is never run by two live workers at once. */
module Exclusion {
  import opened Options
  import opened Rows
  import opened Protocol
  import opened Locking
  import opened Scenarios

  predicate Live(d: Activity) {
    d.Executing? || d.Reporting?
  }

  /** No two live workers are on one task. */
  ghost predicate Exclusive(s: State) {
    forall v, w :: (v in s.activities && w in s.activities && v != w
                    && Live(s.activities[v]) && Live(s.activities[w])) ==>
      s.activities[v].id != s.activities[w].id
  }

  /** Row locks, a deadline every live run meets, and recovery no younger than it. */
  predicate SafelyTimed(cfg: Config) {
    cfg.locks && cfg.deadline.Some? && cfg.olderThan >= cfg.deadline.value
  }

  /** What the worker read when it entered its transaction. */
  predicate ReadWell(cfg: Config, d: Activity, clock: int) {
    && (d.Claiming? ==> d.stored.status.Ready?)
    && (d.Retrying? ==> d.copy.status.Failed?)
    && (d.Recovering? ==> Stale(d.copy, d.cutoff) && d.cutoff <= clock - cfg.olderThan)
  }

  /** The row, if it is still there, is the one this live worker is running. */
  predicate Owns(s: State, d: Activity)
    requires Live(d)
  {
    d.id in s.known && (d.id in s.rows ==>
      var row := s.rows[d.id];
      if d.Reporting? then row.status.Successful? else
        && row.status.Running? && row.lastAttemptedAt == Some(d.stamp)
        && (d.wid != "" ==> row.workerIds != [] && row.workerIds[|row.workerIds| - 1] == d.wid))
  }

  ghost predicate TimedInv(cfg: Config, s: State) {
    && LockInv(s)
    && Exclusive(s)
    && (forall w :: w in s.activities ==> ReadWell(cfg, s.activities[w], s.clock))
    && (forall w :: w in s.activities && Live(s.activities[w]) ==> Owns(s, s.activities[w]))
    && (forall w :: w in s.activities && s.activities[w].Executing? ==> InTime(cfg, s.activities[w].stamp, s.clock))
  }

  lemma ReadWellStep(cfg: Config, s: State, a: Action)
    requires TimedInv(cfg, s) && Enabled(cfg, s, a)
    ensures var t := Apply(cfg, s, a); forall w :: w in t.activities ==> ReadWell(cfg, t.activities[w], t.clock)
  {
  }

  lemma ExclusiveAtWork(cfg: Config, s: State, a: Action)
    requires IsWork(a)
    requires TimedInv(cfg, s) && Enabled(cfg, s, a)
    ensures Exclusive(Apply(cfg, s, a))
  {
  }

  lemma ExclusiveAtUpkeep(cfg: Config, s: State, a: Action)
    requires !IsWork(a)
    requires TimedInv(cfg, s) && Enabled(cfg, s, a)
    ensures Exclusive(Apply(cfg, s, a))
  {
  }

  /** A claim finds READY, so nobody owns the row yet. */
  lemma ExclusiveStep(cfg: Config, s: State, a: Action)
    requires TimedInv(cfg, s) && Enabled(cfg, s, a)
    ensures Exclusive(Apply(cfg, s, a))
  {
    if IsWork(a) {
      ExclusiveAtWork(cfg, s, a);
    } else {
      ExclusiveAtUpkeep(cfg, s, a);
    }
  }

  lemma StillOwnsAtWork(cfg: Config, s: State, a: Action, w: WorkerKey)
    requires IsWork(a)
    requires SafelyTimed(cfg) && TimedInv(cfg, s) && Enabled(cfg, s, a)
    requires w in s.activities && Live(s.activities[w])
    requires w in Apply(cfg, s, a).activities && Apply(cfg, s, a).activities[w] == s.activities[w]
    ensures Owns(Apply(cfg, s, a), s.activities[w])
  {
  }

  lemma StillOwnsAtUpkeep(cfg: Config, s: State, a: Action, w: WorkerKey)
    requires !IsWork(a)
    requires SafelyTimed(cfg) && TimedInv(cfg, s) && Enabled(cfg, s, a)
    requires w in s.activities && Live(s.activities[w])
    requires w in Apply(cfg, s, a).activities && Apply(cfg, s, a).activities[w] == s.activities[w]
    ensures Owns(Apply(cfg, s, a), s.activities[w])
  {
  }

  /** Recovery finds the row older than any live run, and the other writes find another status. */
  lemma StillOwnsStep(cfg: Config, s: State, a: Action, w: WorkerKey)
    requires SafelyTimed(cfg) && TimedInv(cfg, s) && Enabled(cfg, s, a)
    requires w in s.activities && Live(s.activities[w])
    requires w in Apply(cfg, s, a).activities && Apply(cfg, s, a).activities[w] == s.activities[w]
    ensures Owns(Apply(cfg, s, a), s.activities[w])
  {
    if IsWork(a) {
      StillOwnsAtWork(cfg, s, a, w);
    } else {
      StillOwnsAtUpkeep(cfg, s, a, w);
    }
  }

  /** A worker that just claimed, or just saved its result. */
  lemma NowOwnsStep(cfg: Config, s: State, a: Action, w: WorkerKey)
    requires TimedInv(cfg, s) && Enabled(cfg, s, a) && (a.ClaimUpdate? || a.Succeed?)
    requires w in Apply(cfg, s, a).activities && Live(Apply(cfg, s, a).activities[w])
    requires Apply(cfg, s, a).activities[w] != Doing(s, w)
    ensures Owns(Apply(cfg, s, a), Apply(cfg, s, a).activities[w])
  {
  }

  /** Nothing else makes a worker live. */
  lemma OnlyThenLive(cfg: Config, s: State, a: Action, w: WorkerKey)
    requires Enabled(cfg, s, a)
    requires w in Apply(cfg, s, a).activities && Live(Apply(cfg, s, a).activities[w])
    requires Apply(cfg, s, a).activities[w] != Doing(s, w)
    ensures a.ClaimUpdate? || a.Succeed?
  {
  }

  /** A claim that took longer than the deadline is not one of these runs, and the clock waits for the others. */
  lemma InTimeStep(cfg: Config, s: State, a: Action, w: WorkerKey)
    requires TimedInv(cfg, s) && Enabled(cfg, s, a)
    requires w in Apply(cfg, s, a).activities && Apply(cfg, s, a).activities[w].Executing?
    ensures InTime(cfg, Apply(cfg, s, a).activities[w].stamp, Apply(cfg, s, a).clock)
  {
  }

  lemma TimedInvStep(cfg: Config, s: State, a: Action)
    requires SafelyTimed(cfg) && TimedInv(cfg, s) && Enabled(cfg, s, a)
    ensures TimedInv(cfg, Apply(cfg, s, a))
  {
    LockInvStep(cfg, s, a);
    ReadWellStep(cfg, s, a);
    ExclusiveStep(cfg, s, a);
    var t := Apply(cfg, s, a);
    forall w | w in t.activities && Live(t.activities[w])
      ensures Owns(t, t.activities[w]) && (t.activities[w].Executing? ==> InTime(cfg, t.activities[w].stamp, t.clock))
    {
      if t.activities[w] == Doing(s, w) {
        StillOwnsStep(cfg, s, a, w);
      } else {
        OnlyThenLive(cfg, s, a, w);
        NowOwnsStep(cfg, s, a, w);
      }
      if t.activities[w].Executing? {
        InTimeStep(cfg, s, a, w);
      }
    }
  }

  lemma {:induction false} TimedInvHolds(cfg: Config, s: State, run: seq<Action>)
    requires SafelyTimed(cfg) && TimedInv(cfg, s) && Valid(cfg, s, run)
    ensures TimedInv(cfg, Exec(cfg, s, run))
    decreases |run|
  {
    if run == [] {
    } else {
      TimedInvStep(cfg, s, run[0]);
      TimedInvHolds(cfg, Apply(cfg, s, run[0]), run[1..]);
    }
  }

  /** Workers 1 and 2 are both running task 0, and neither their copies nor the row holds an error. */
  ghost predicate Overlapping(cfg: Config, s: State) {
    && Unblocked(cfg, s) && 0 in s.rows && s.rows[0].errors == []
    && RunsCleanly(s, 1) && RunsCleanly(s, 2)
  }

  predicate RunsCleanly(s: State, w: WorkerKey) {
    var d := Doing(s, w);
    w in s.activities && d.Executing? && d.id == 0 && d.copy.errors == [] && d.since <= s.clock
  }

  /** A recovery that selected the row before another one requeued it requeues the run that followed. */
  lemma OverlapWithoutLocks(cfg: Config)
    requires !cfg.locks
    ensures Reaches(cfg, Init(), (s: State) => Overlapping(cfg, s))
  {
    var bad := (s: State) => Overlapping(cfg, s);
    var s := Started(RunAgain(cfg), 2, "c");
    assert s.activities[1].Executing? && s.activities[2].Executing?;
    Here(cfg, s, bad);
    BackToStart(cfg, RunAgain(cfg), 2, "c", bad);
    BackToRunAgain(cfg, bad);
  }

  /** Worker 2 claimed the task after worker 1 got to run it. */
  ghost predicate LateOverlap(cfg: Config, s: State) {
    && Overlapping(cfg, s)
    && s.rows[0].lastAttemptedAt.Some? && Doing(s, 1).since < s.rows[0].lastAttemptedAt.value
  }

  /** A run still going when its threshold passes is requeued and starts again elsewhere. */
  lemma OverlapWithoutMargin(cfg: Config)
    requires cfg.deadline.None? || cfg.olderThan < cfg.deadline.value
    ensures Reaches(cfg, Init(), (s: State) => LateOverlap(cfg, s))
  {
    var bad := (s: State) => LateOverlap(cfg, s);
    var s := Started(TooEarly(cfg), 2, "b");
    assert s.activities[1].Executing? && s.activities[2].Executing?;
    Here(cfg, s, bad);
    BackToStart(cfg, TooEarly(cfg), 2, "b", bad);
    BackToTooEarly(cfg, bad);
  }

  lemma OverlapUnlessTimed(cfg: Config)
    requires !SafelyTimed(cfg)
    ensures Reaches(cfg, Init(), (s: State) => Overlapping(cfg, s))
  {
    if !cfg.locks {
      OverlapWithoutLocks(cfg);
    } else {
      OverlapWithoutMargin(cfg);
      Weaken(cfg, Init(), (s: State) => LateOverlap(cfg, s), (s: State) => Overlapping(cfg, s));
    }
  }

  /** No run of the deployment ever has two live workers on one task. */
  ghost predicate AlwaysExclusive(cfg: Config) {
    forall run :: Valid(cfg, Init(), run) ==> Exclusive(Exec(cfg, Init(), run))
  }

  /**
   Exactly the deployments that are safe: row locks, runs that write their
   result within the deadline, and older_than at least that deadline.
   */
  lemma ExclusiveExactlyWhenTimed(cfg: Config)
    ensures AlwaysExclusive(cfg) <==> SafelyTimed(cfg)
  {
    if SafelyTimed(cfg) {
      forall run | Valid(cfg, Init(), run) ensures Exclusive(Exec(cfg, Init(), run)) {
        TimedInvHolds(cfg, Init(), run);
      }
    } else {
      OverlapUnlessTimed(cfg);
      var bad := (s: State) => Overlapping(cfg, s);
      assert Reaches(cfg, Init(), bad);
      var run :| Valid(cfg, Init(), run) && bad(Exec(cfg, Init(), run));
      assert !Exclusive(Exec(cfg, Init(), run));
    }
  }
}
