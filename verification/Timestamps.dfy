/** The order of the recorded times. */
module Timestamps {
  import opened Options
  import opened Rows
  import opened Protocol
  import opened Exclusion
  import opened Scenarios

  /** a <= b wherever both are set. */
  predicate NotAfter(a: Option<int>, b: Option<int>) {
    a.Some? && b.Some? ==> a.value <= b.value
  }

  predicate Ordered(row: Row) {
    && (row.finishedAt.Some? <==> row.Completed())
    && (row.status.Running? ==> row.startedAt.Some?)
    && (row.startedAt.Some? ==> row.lastAttemptedAt.Some?)
    && NotAfter(row.startedAt, row.lastAttemptedAt)
    && NotAfter(row.lastAttemptedAt, row.finishedAt)
  }

  ghost predicate AllOrdered(s: State) {
    forall id :: id in s.rows ==> Ordered(s.rows[id])
  }

  /** A claim under way has read the clock after the row it read was started. */
  ghost predicate TimesInv(s: State) {
    && AllOrdered(s)
    && (forall id :: id in s.rows ==> NotAfter(s.rows[id].lastAttemptedAt, Some(s.clock)))
    && (forall w :: w in s.activities && s.activities[w].Claiming? ==>
          NotAfter(s.activities[w].stored.startedAt, Some(s.activities[w].stamp)) && s.activities[w].stamp <= s.clock)
  }

  lemma RowOrderedAtWork(cfg: Config, s: State, a: Action, id: TaskId)
    requires IsWork(a)
    requires cfg.prompt && TimesInv(s) && Enabled(cfg, s, a) && id in Apply(cfg, s, a).rows
    ensures Ordered(Apply(cfg, s, a).rows[id])
    ensures NotAfter(Apply(cfg, s, a).rows[id].lastAttemptedAt, Some(Apply(cfg, s, a).clock))
  {
  }

  lemma RowOrderedAtUpkeep(cfg: Config, s: State, a: Action, id: TaskId)
    requires !IsWork(a)
    requires cfg.prompt && TimesInv(s) && Enabled(cfg, s, a) && id in Apply(cfg, s, a).rows
    ensures Ordered(Apply(cfg, s, a).rows[id])
    ensures NotAfter(Apply(cfg, s, a).rows[id].lastAttemptedAt, Some(Apply(cfg, s, a).clock))
  {
  }

  lemma RowOrderedStep(cfg: Config, s: State, a: Action, id: TaskId)
    requires cfg.prompt && TimesInv(s) && Enabled(cfg, s, a) && id in Apply(cfg, s, a).rows
    ensures Ordered(Apply(cfg, s, a).rows[id])
    ensures NotAfter(Apply(cfg, s, a).rows[id].lastAttemptedAt, Some(Apply(cfg, s, a).clock))
  {
    if IsWork(a) {
      RowOrderedAtWork(cfg, s, a, id);
    } else {
      RowOrderedAtUpkeep(cfg, s, a, id);
    }
  }

  lemma TimesInvStep(cfg: Config, s: State, a: Action)
    requires cfg.prompt && TimesInv(s) && Enabled(cfg, s, a)
    ensures TimesInv(Apply(cfg, s, a))
  {
    forall id | id in Apply(cfg, s, a).rows
      ensures Ordered(Apply(cfg, s, a).rows[id])
      ensures NotAfter(Apply(cfg, s, a).rows[id].lastAttemptedAt, Some(Apply(cfg, s, a).clock))
    {
      RowOrderedStep(cfg, s, a, id);
    }
  }

  lemma {:induction false} TimesInvHolds(cfg: Config, s: State, run: seq<Action>)
    requires cfg.prompt && TimesInv(s) && Valid(cfg, s, run)
    ensures TimesInv(Exec(cfg, s, run))
    decreases |run|
  {
    if run == [] {
    } else {
      TimesInvStep(cfg, s, run[0]);
      TimesInvHolds(cfg, Apply(cfg, s, run[0]), run[1..]);
    }
  }

  ghost predicate AlwaysOrdered(cfg: Config) {
    forall run :: Valid(cfg, Init(), run) ==> AllOrdered(Exec(cfg, Init(), run))
  }

  /** A claim with a reading of the clock older than the row's first attempt. */
  lemma LateClaim(cfg: Config, s: State)
    requires !cfg.prompt && InTime(cfg, 0, s.clock) && Unblocked(cfg, s)
    requires StillReady(s, 0) && s.rows[0].startedAt == Some(1) && s.clock >= 1
    requires Doing(s, 1).Holding? && Doing(s, 1).id == 0 && Doing(s, 1).since == 0
    ensures Reaches(cfg, s, (s: State) => !AllOrdered(s))
  {
    var bad := (s: State) => !AllOrdered(s);
    var s1 := Apply(cfg, s, ClaimSelect(1, 0));
    var s2 := Apply(cfg, s1, ClaimUpdate(1));
    assert !Ordered(s2.rows[0]);
    Here(cfg, s2, bad);
    Back(cfg, s1, ClaimUpdate(1), bad);
    Back(cfg, s, ClaimSelect(1, 0), bad);
  }

  /** A worker reads the clock, then a run and a retry of the same task go by before its claim. */
  lemma OvertakenClaim(cfg: Config)
    requires cfg.retries && !cfg.prompt && (cfg.deadline.Some? ==> cfg.deadline.value >= 1)
    ensures Reaches(cfg, Init(), (s: State) => !AllOrdered(s))
  {
    var bad := (s: State) => !AllOrdered(s);
    LateClaim(cfg, Overtaken(1));
    BackToOvertaken(cfg, 1, bad);
  }

  /** With or without locks, late finishes included. */
  lemma TimesAreOrdered(cfg: Config)
    requires cfg.prompt
    ensures AlwaysOrdered(cfg)
  {
    forall run | Valid(cfg, Init(), run) ensures AllOrdered(Exec(cfg, Init(), run)) {
      TimesInvHolds(cfg, Init(), run);
    }
  }

  /**
   Runs never overlap, and nothing lets a claim use a reading of the clock
   from before an earlier attempt: no task is retried, or none can be, since
   a deadline of 0 leaves a run no time to be overtaken in.
   */
  predicate PatientlyTimed(cfg: Config) {
    SafelyTimed(cfg) && (!cfg.retries || cfg.deadline.value == 0)
  }

  /** A worker got where it is after the row was last claimed, and after its own claim. */
  predicate ReadLater(cfg: Config, s: State, d: Activity) {
    && (d.Claiming? ==> d.stamp <= s.clock)
    && (d.Executing? ==> d.stamp <= d.since <= s.clock)
    && (d.Recovering? ==> NotAfter(d.copy.lastAttemptedAt, Some(d.since)))
    && (d.Reporting? && d.id in s.rows ==> NotAfter(s.rows[d.id].lastAttemptedAt, Some(d.since)))
    && (!cfg.retries ==> !d.Retrying?)
  }

  predicate RowInTime(cfg: Config, s: State, row: Row) {
    && Ordered(row)
    && NotAfter(row.lastAttemptedAt, Some(s.clock))
    && (!cfg.retries && row.status.Ready? ==> row.startedAt.None?)
  }

  ghost predicate PatientInv(cfg: Config, s: State) {
    TimedInv(cfg, s) && AllInTime(cfg, s)
  }

  ghost predicate AllInTime(cfg: Config, s: State) {
    && (forall id :: id in s.rows ==> RowInTime(cfg, s, s.rows[id]))
    && (forall w :: w in s.activities ==> ReadLater(cfg, s, s.activities[w]))
  }

  /** A finishing write comes after the claim it finishes. */
  lemma FinishInTimeStep(cfg: Config, s: State, a: Action, id: TaskId)
    requires PatientInv(cfg, s) && Enabled(cfg, s, a) && (a.Succeed? || a.Fail?) && id in Apply(cfg, s, a).rows
    ensures RowInTime(cfg, Apply(cfg, s, a), Apply(cfg, s, a).rows[id])
  {
    var d := Doing(s, a.w);
    assert ReadLater(cfg, s, d) && Owns(s, d);
  }

  /** And a claim after the attempt before it, or it is the first of its own. */
  lemma ClaimInTimeStep(cfg: Config, s: State, a: Action, id: TaskId)
    requires PatientlyTimed(cfg) && PatientInv(cfg, s) && Enabled(cfg, s, a) && a.ClaimUpdate?
    requires id in Apply(cfg, s, a).rows
    ensures RowInTime(cfg, Apply(cfg, s, a), Apply(cfg, s, a).rows[id])
  {
    assert ReadLater(cfg, s, Doing(s, a.w));
  }

  lemma RowInTimeAtWork(cfg: Config, s: State, a: Action, id: TaskId)
    requires IsWork(a)
    requires PatientlyTimed(cfg) && PatientInv(cfg, s) && Enabled(cfg, s, a)
      && !(a.Succeed? || a.Fail? || a.ClaimUpdate?)
    requires id in Apply(cfg, s, a).rows
    ensures RowInTime(cfg, Apply(cfg, s, a), Apply(cfg, s, a).rows[id])
  {
  }

  lemma RowInTimeAtUpkeep(cfg: Config, s: State, a: Action, id: TaskId)
    requires !IsWork(a)
    requires PatientlyTimed(cfg) && PatientInv(cfg, s) && Enabled(cfg, s, a)
      && !(a.Succeed? || a.Fail? || a.ClaimUpdate?)
    requires id in Apply(cfg, s, a).rows
    ensures RowInTime(cfg, Apply(cfg, s, a), Apply(cfg, s, a).rows[id])
  {
  }

  lemma RowInTimeStep(cfg: Config, s: State, a: Action, id: TaskId)
    requires PatientlyTimed(cfg) && PatientInv(cfg, s) && Enabled(cfg, s, a)
      && !(a.Succeed? || a.Fail? || a.ClaimUpdate?)
    requires id in Apply(cfg, s, a).rows
    ensures RowInTime(cfg, Apply(cfg, s, a), Apply(cfg, s, a).rows[id])
  {
    if IsWork(a) {
      RowInTimeAtWork(cfg, s, a, id);
    } else {
      RowInTimeAtUpkeep(cfg, s, a, id);
    }
  }

  /** While a worker reports a success, its row is not claimed again. */
  lemma ReportedRowStays(cfg: Config, s: State, a: Action, w: WorkerKey)
    requires TimedInv(cfg, s) && Enabled(cfg, s, a) && Doing(s, w).Reporting?
    requires Doing(s, w).id in Apply(cfg, s, a).rows
    ensures Doing(s, w).id in s.rows
    ensures Apply(cfg, s, a).rows[Doing(s, w).id].lastAttemptedAt == s.rows[Doing(s, w).id].lastAttemptedAt
  {
    assert Owns(s, s.activities[w]);
  }

  lemma StillLaterStep(cfg: Config, s: State, a: Action, w: WorkerKey)
    requires PatientInv(cfg, s) && Enabled(cfg, s, a)
    requires w in s.activities && w in Apply(cfg, s, a).activities && Apply(cfg, s, a).activities[w] == s.activities[w]
    ensures ReadLater(cfg, Apply(cfg, s, a), s.activities[w])
  {
    hide TimedInv;
    var d := s.activities[w];
    assert ReadLater(cfg, s, d);
    assert Apply(cfg, s, a).clock >= s.clock;
    if d.Reporting? && d.id in Apply(cfg, s, a).rows {
      ReportedRowStays(cfg, s, a, w);
    }
  }

  lemma NowLaterAtWork(cfg: Config, s: State, a: Action, w: WorkerKey)
    requires IsWork(a)
    requires AllInTime(cfg, s) && Enabled(cfg, s, a)
    requires w in Apply(cfg, s, a).activities && Apply(cfg, s, a).activities[w] != Doing(s, w)
    ensures ReadLater(cfg, Apply(cfg, s, a), Apply(cfg, s, a).activities[w])
  {
  }

  lemma NowLaterAtUpkeep(cfg: Config, s: State, a: Action, w: WorkerKey)
    requires !IsWork(a)
    requires AllInTime(cfg, s) && Enabled(cfg, s, a)
    requires w in Apply(cfg, s, a).activities && Apply(cfg, s, a).activities[w] != Doing(s, w)
    ensures ReadLater(cfg, Apply(cfg, s, a), Apply(cfg, s, a).activities[w])
  {
  }

  lemma NowLaterStep(cfg: Config, s: State, a: Action, w: WorkerKey)
    requires AllInTime(cfg, s) && Enabled(cfg, s, a)
    requires w in Apply(cfg, s, a).activities && Apply(cfg, s, a).activities[w] != Doing(s, w)
    ensures ReadLater(cfg, Apply(cfg, s, a), Apply(cfg, s, a).activities[w])
  {
    if IsWork(a) {
      NowLaterAtWork(cfg, s, a, w);
    } else {
      NowLaterAtUpkeep(cfg, s, a, w);
    }
  }

  lemma {:induction false} PatientInvHolds(cfg: Config, s: State, run: seq<Action>)
    requires PatientlyTimed(cfg) && PatientInv(cfg, s) && Valid(cfg, s, run)
    ensures PatientInv(cfg, Exec(cfg, s, run))
    decreases |run|
  {
    if run == [] {
    } else {
      var t := Apply(cfg, s, run[0]);
      TimedInvStep(cfg, s, run[0]);
      forall id | id in t.rows ensures RowInTime(cfg, t, t.rows[id]) {
        if run[0].Succeed? || run[0].Fail? {
          FinishInTimeStep(cfg, s, run[0], id);
        } else if run[0].ClaimUpdate? {
          ClaimInTimeStep(cfg, s, run[0], id);
        } else {
          RowInTimeStep(cfg, s, run[0], id);
        }
      }
      forall w | w in t.activities ensures ReadLater(cfg, t, t.activities[w]) {
        if w in s.activities && t.activities[w] == s.activities[w] {
          StillLaterStep(cfg, s, run[0], w);
        } else if t.activities[w] != Doing(s, w) {
          NowLaterStep(cfg, s, run[0], w);
        }
      }
      PatientInvHolds(cfg, t, run[1..]);
    }
  }

  /** Without locks, a recovery gives up, with an earlier reading of the clock, on a run that began since. */
  lemma BackdatedGivingUp(cfg: Config)
    requires !cfg.prompt && !cfg.locks
    ensures Reaches(cfg, Init(), (s: State) => !AllOrdered(s))
  {
    var bad := (s: State) => !AllOrdered(s);
    var s := HalfRecovered(cfg, true);
    var s1 := Apply(cfg, s, Tick(s.clock + 1));
    var s2 := Started(s1, 1, "b");
    var s3 := Apply(cfg, s2, RecoverUpdate(3, s.clock));
    assert !Ordered(s3.rows[0]);
    Here(cfg, s3, bad);
    Back(cfg, s2, RecoverUpdate(3, s.clock), bad);
    BackToStart(cfg, s1, 1, "b", bad);
    Back(cfg, s, Tick(s.clock + 1), bad);
    BackToHalfRecovered(cfg, true, bad);
  }

  /** A run that was recovered from finishes late, with a reading of the clock from before the run that followed. */
  lemma BackdatedFinish(cfg: Config)
    requires !cfg.prompt && (cfg.deadline.None? || cfg.olderThan < cfg.deadline.value)
    ensures Reaches(cfg, Init(), (s: State) => !AllOrdered(s))
  {
    OverlapWithoutMargin(cfg);
    var from := (s: State) => LateOverlap(cfg, s);
    var step := (s: State) => Succeed(1, "v", if Doing(s, 1).Executing? then Doing(s, 1).since else 0);
    forall s | from(s) ensures Enabled(cfg, s, step(s)) && !AllOrdered(Apply(cfg, s, step(s))) {
      assert !Ordered(Apply(cfg, s, step(s)).rows[0]);
    }
    Onward(cfg, Init(), from, step, (s: State) => !AllOrdered(s));
  }

  /**
   Exactly the deployments whose times are in order: those that read the clock
   at the step that uses it, and those whose timing makes up for it.
   */
  lemma OrderedExactlyWhenPromptOrPatient(cfg: Config)
    ensures AlwaysOrdered(cfg) <==> cfg.prompt || PatientlyTimed(cfg)
  {
    if cfg.prompt {
      TimesAreOrdered(cfg);
    } else if PatientlyTimed(cfg) {
      forall run | Valid(cfg, Init(), run) ensures AllOrdered(Exec(cfg, Init(), run)) {
        PatientInvHolds(cfg, Init(), run);
      }
    } else if !cfg.locks {
      BackdatedGivingUp(cfg);
    } else if !SafelyTimed(cfg) {
      BackdatedFinish(cfg);
    } else {
      OvertakenClaim(cfg);
    }
  }
}
