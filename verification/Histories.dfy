/** Which recorded histories can be trusted: worker ids under locks, errors without retries. */
module Histories {
  import opened Rows
  import opened Protocol
  import opened Accounting
  import opened Locking
  import opened Exclusion
  import opened Scenarios

  /** worker_ids_json is the ordered history of the successful claims. */
  ghost predicate KeepsWorkers(cfg: Config) {
    forall run, id :: Valid(cfg, Init(), run) && id in Exec(cfg, Init(), run).rows ==>
      Exec(cfg, Init(), run).rows[id].workerIds == History(cfg, Init(), run, id)
  }

  lemma {:induction false} HistoryExtend(cfg: Config, s: State, run: seq<Action>, a: Action, id: TaskId)
    requires Valid(cfg, s, run) && Enabled(cfg, Exec(cfg, s, run), a) && Valid(cfg, s, run + [a])
    ensures History(cfg, s, run + [a], id) == History(cfg, s, run, id)
      + if ClaimsRow(Exec(cfg, s, run), a, id) then WithWorker([], Doing(Exec(cfg, s, run), a.w).wid) else []
    decreases |run|
  {
    if run == [] {
      assert run + [a] == [a];
    } else {
      assert (run + [a])[1..] == run[1..] + [a];
      HistoryExtend(cfg, Apply(cfg, s, run[0]), run[1..], a, id);
    }
  }

  /** A claim is about to write back a list of worker ids that has since grown. */
  ghost predicate AboutToForget(cfg: Config, s: State) {
    && Enabled(cfg, s, ClaimUpdate(1)) && Doing(s, 1).id == 0 && StillReady(s, 0)
    && |s.rows[0].workerIds| > |Doing(s, 1).stored.workerIds|
  }

  /** Between the SELECT and the UPDATE of a claim, another worker claims the row and a pending recovery requeues it. */
  lemma ClaimInsideClaim(cfg: Config)
    requires !cfg.locks
    ensures Reaches(cfg, Init(), (s: State) => AboutToForget(cfg, s))
  {
    var bad := (s: State) => AboutToForget(cfg, s);
    var s := HalfRecovered(cfg, false);
    var s1 := Apply(cfg, s, Fetch(1, "b", 0));
    ClaimUnderWay(cfg, Apply(cfg, s1, ClaimSelect(1, s.clock)));
    Back(cfg, s1, ClaimSelect(1, s.clock), bad);
    Back(cfg, s, Fetch(1, "b", 0), bad);
    BackToHalfRecovered(cfg, false, bad);
  }

  /** Another worker claims, with a recovery still pending. */
  lemma ClaimUnderWay(cfg: Config, s: State)
    requires !cfg.locks && Unblocked(cfg, s) && StillReady(s, 0) && Doing(s, 2).Idle?
    requires Doing(s, 1).Claiming? && Doing(s, 1).id == 0 && Doing(s, 1).stamp == s.clock
    requires s.rows[0] == Doing(s, 1).stored
    requires Doing(s, 3).Recovering? && Doing(s, 3).id == 0 && Doing(s, 3).since <= s.clock
    requires Doing(s, 3).maxAttempts == 0 && !Doing(s, 3).markFailed
    ensures Reaches(cfg, s, (s: State) => AboutToForget(cfg, s))
  {
    LateRequeue(cfg, Started(s, 2, "c"));
    BackToStart(cfg, s, 2, "c", (s: State) => AboutToForget(cfg, s));
  }

  lemma LateRequeue(cfg: Config, s: State)
    requires !cfg.locks && Unblocked(cfg, s) && 0 in s.rows && s.rows[0].status.Running?
    requires Doing(s, 1).Claiming? && Doing(s, 1).id == 0 && Doing(s, 1).stamp == s.clock
    requires |s.rows[0].workerIds| > |Doing(s, 1).stored.workerIds|
    requires Doing(s, 3).Recovering? && Doing(s, 3).id == 0 && Doing(s, 3).since <= s.clock
    requires Doing(s, 3).maxAttempts == 0 && !Doing(s, 3).markFailed
    ensures Reaches(cfg, s, (s: State) => AboutToForget(cfg, s))
  {
    var bad := (s: State) => AboutToForget(cfg, s);
    var t := Apply(cfg, s, RecoverUpdate(3, s.clock));
    Here(cfg, t, bad);
    Back(cfg, s, RecoverUpdate(3, s.clock), bad);
  }

  /** Row locks are enough for an exact history, whatever the timing. */
  lemma LocksKeepWorkers(cfg: Config)
    requires cfg.locks
    ensures KeepsWorkers(cfg)
  {
    forall run, id | Valid(cfg, Init(), run) && id in Exec(cfg, Init(), run).rows
      ensures Exec(cfg, Init(), run).rows[id].workerIds == History(cfg, Init(), run, id)
    {
      RecordedIsHistory(cfg, Init(), run, id);
    }
  }

  /** And they are necessary, whatever the timing. */
  lemma WorkersKeptExactlyUnderLocks(cfg: Config)
    ensures KeepsWorkers(cfg) <==> cfg.locks
  {
    if cfg.locks {
      LocksKeepWorkers(cfg);
    } else {
      ClaimInsideClaim(cfg);
      var goal := (s: State) => AboutToForget(cfg, s);
      assert Reaches(cfg, Init(), goal);
      var run :| Valid(cfg, Init(), run) && goal(Exec(cfg, Init(), run));
      Extend(cfg, Init(), run, ClaimUpdate(1));
      HistoryExtend(cfg, Init(), run, ClaimUpdate(1), 0);
      assert 0 in Exec(cfg, Init(), run + [ClaimUpdate(1)]).rows;
    }
  }

  /** The step takes no error off any row that stays stored. */
  ghost predicate KeepsErrorsIn(cfg: Config, s: State, a: Action)
    requires Enabled(cfg, s, a)
  {
    forall id :: id in s.rows && id in Apply(cfg, s, a).rows ==> s.rows[id].errors <= Apply(cfg, s, a).rows[id].errors
  }

  /** No step of any run takes an error off a stored row. */
  ghost predicate KeepsErrors(cfg: Config) {
    forall run, a :: Valid(cfg, Init(), run) && Enabled(cfg, Exec(cfg, Init(), run), a) ==>
      KeepsErrorsIn(cfg, Exec(cfg, Init(), run), a)
  }

  /** Without retries a task fails at most once: until then neither the row nor any copy holds an error. */
  ghost predicate ErrorFree(s: State) {
    && (forall id :: id in s.rows && !s.rows[id].status.Failed? ==> s.rows[id].errors == [])
    && (forall w :: w in s.activities ==> CopyErrorFree(s.activities[w]))
  }

  predicate CopyErrorFree(d: Activity) {
    !d.Retrying? && (d.Holding? || d.Claiming? || Live(d) || d.Recovering? ==> d.copy.errors == [])
  }

  lemma CopyErrorFreeAtWork(cfg: Config, s: State, a: Action, w: WorkerKey)
    requires IsWork(a)
    requires SafelyTimed(cfg) && !cfg.retries && TimedInv(cfg, s) && ErrorFree(s) && Enabled(cfg, s, a)
    requires w in Apply(cfg, s, a).activities
    ensures CopyErrorFree(Apply(cfg, s, a).activities[w])
  {
  }

  lemma CopyErrorFreeAtUpkeep(cfg: Config, s: State, a: Action, w: WorkerKey)
    requires !IsWork(a)
    requires SafelyTimed(cfg) && !cfg.retries && TimedInv(cfg, s) && ErrorFree(s) && Enabled(cfg, s, a)
    requires w in Apply(cfg, s, a).activities
    ensures CopyErrorFree(Apply(cfg, s, a).activities[w])
  {
  }

  lemma CopyErrorFreeStep(cfg: Config, s: State, a: Action, w: WorkerKey)
    requires SafelyTimed(cfg) && !cfg.retries && TimedInv(cfg, s) && ErrorFree(s) && Enabled(cfg, s, a)
    requires w in Apply(cfg, s, a).activities
    ensures CopyErrorFree(Apply(cfg, s, a).activities[w])
  {
    if IsWork(a) {
      CopyErrorFreeAtWork(cfg, s, a, w);
    } else {
      CopyErrorFreeAtUpkeep(cfg, s, a, w);
    }
  }

  lemma RowErrorFreeStep(cfg: Config, s: State, a: Action, id: TaskId)
    requires SafelyTimed(cfg) && !cfg.retries && TimedInv(cfg, s) && ErrorFree(s) && Enabled(cfg, s, a)
    requires id in Apply(cfg, s, a).rows && !Apply(cfg, s, a).rows[id].status.Failed?
    ensures Apply(cfg, s, a).rows[id].errors == []
  {
  }

  lemma ErrorFreeStep(cfg: Config, s: State, a: Action)
    requires SafelyTimed(cfg) && !cfg.retries && TimedInv(cfg, s) && ErrorFree(s) && Enabled(cfg, s, a)
    ensures ErrorFree(Apply(cfg, s, a))
  {
    var t := Apply(cfg, s, a);
    forall id | id in t.rows && !t.rows[id].status.Failed? ensures t.rows[id].errors == [] {
      RowErrorFreeStep(cfg, s, a, id);
    }
    forall w | w in t.activities ensures CopyErrorFree(t.activities[w]) {
      CopyErrorFreeStep(cfg, s, a, w);
    }
  }

  lemma {:induction false} ErrorFreeHolds(cfg: Config, s: State, run: seq<Action>)
    requires SafelyTimed(cfg) && !cfg.retries && TimedInv(cfg, s) && ErrorFree(s) && Valid(cfg, s, run)
    ensures ErrorFree(Exec(cfg, s, run))
    decreases |run|
  {
    if run == [] {
    } else {
      TimedInvStep(cfg, s, run[0]);
      ErrorFreeStep(cfg, s, run[0]);
      ErrorFreeHolds(cfg, Apply(cfg, s, run[0]), run[1..]);
    }
  }

  lemma ErrorsKeptAtWork(cfg: Config, s: State, a: Action)
    requires IsWork(a)
    requires SafelyTimed(cfg) && !cfg.retries && TimedInv(cfg, s) && ErrorFree(s) && Enabled(cfg, s, a)
    ensures KeepsErrorsIn(cfg, s, a)
  {
  }

  lemma ErrorsKeptAtUpkeep(cfg: Config, s: State, a: Action)
    requires !IsWork(a)
    requires SafelyTimed(cfg) && !cfg.retries && TimedInv(cfg, s) && ErrorFree(s) && Enabled(cfg, s, a)
    ensures KeepsErrorsIn(cfg, s, a)
  {
  }

  lemma ErrorsKeptStep(cfg: Config, s: State, a: Action)
    requires SafelyTimed(cfg) && !cfg.retries && TimedInv(cfg, s) && ErrorFree(s) && Enabled(cfg, s, a)
    ensures KeepsErrorsIn(cfg, s, a)
  {
    if IsWork(a) {
      ErrorsKeptAtWork(cfg, s, a);
    } else {
      ErrorsKeptAtUpkeep(cfg, s, a);
    }
  }

  /** A run is about to fail whose copy was fetched before the row's error was recorded. */
  ghost predicate AboutToDropError(cfg: Config, s: State) {
    && Enabled(cfg, s, Fail(1, Raised("f"), s.clock)) && Doing(s, 1).id == 0 && Doing(s, 1).copy.errors == []
    && 0 in s.rows && s.rows[0].errors == [Raised("e")]
  }

  /** A worker fetches a task, another runs it, it fails and is retried, and the first worker claims it. */
  lemma StaleCopyRuns(cfg: Config)
    requires cfg.retries
    ensures Reaches(cfg, Init(), (s: State) => AboutToDropError(cfg, s))
  {
    var bad := (s: State) => AboutToDropError(cfg, s);
    StaleClaim(cfg, Overtaken(0));
    BackToOvertaken(cfg, 0, bad);
  }

  lemma StaleClaim(cfg: Config, s: State)
    requires StillReady(s, 0) && s.rows[0].errors == [Raised("e")] && Unblocked(cfg, s) && s.clock == 0
    requires Doing(s, 1).Holding? && Doing(s, 1).id == 0 && Doing(s, 1).copy.errors == [] && Doing(s, 1).since == 0
    ensures Reaches(cfg, s, (s: State) => AboutToDropError(cfg, s))
  {
    var bad := (s: State) => AboutToDropError(cfg, s);
    var s1 := Apply(cfg, s, ClaimSelect(1, 0));
    var s2 := Apply(cfg, s1, ClaimUpdate(1));
    Here(cfg, s2, bad);
    Back(cfg, s1, ClaimUpdate(1), bad);
    Back(cfg, s, ClaimSelect(1, 0), bad);
  }

  /** Of two runs of one task that fail, the second overwrites the error of the first. */
  lemma OverlapDropsError(cfg: Config)
    requires !SafelyTimed(cfg)
    ensures Reaches(cfg, Init(), (s: State) => AboutToDropError(cfg, s))
  {
    OverlapUnlessTimed(cfg);
    var from := (s: State) => Overlapping(cfg, s);
    var step := (s: State) => Fail(2, Raised("e"), s.clock);
    forall s | from(s) ensures Enabled(cfg, s, step(s)) && AboutToDropError(cfg, Apply(cfg, s, step(s))) {
      FirstError(cfg, s);
    }
    Onward(cfg, Init(), from, step, (s: State) => AboutToDropError(cfg, s));
  }

  lemma FirstError(cfg: Config, s: State)
    requires Overlapping(cfg, s)
    ensures Enabled(cfg, s, Fail(2, Raised("e"), s.clock))
    ensures AboutToDropError(cfg, Apply(cfg, s, Fail(2, Raised("e"), s.clock)))
  {
  }

  lemma DropsErrors(cfg: Config)
    requires Reaches(cfg, Init(), (s: State) => AboutToDropError(cfg, s))
    ensures !KeepsErrors(cfg)
  {
    var goal := (s: State) => AboutToDropError(cfg, s);
    assert Reaches(cfg, Init(), goal);
    var run :| Valid(cfg, Init(), run) && goal(Exec(cfg, Init(), run));
    var s := Exec(cfg, Init(), run);
    var a := Fail(1, Raised("f"), s.clock);
    assert Apply(cfg, s, a).rows[0].errors == [Raised("f")];
    assert "e"[0] != "f"[0];
    assert s.rows[0].errors[0] != Apply(cfg, s, a).rows[0].errors[0];
    assert !KeepsErrorsIn(cfg, s, a);
  }

  /** errors_json only grows exactly where runs never overlap and failed tasks are never retried. */
  lemma ErrorsKeptExactlyWhenTimedWithoutRetries(cfg: Config)
    ensures KeepsErrors(cfg) <==> SafelyTimed(cfg) && !cfg.retries
  {
    if !SafelyTimed(cfg) {
      OverlapDropsError(cfg);
      DropsErrors(cfg);
    } else if cfg.retries {
      StaleCopyRuns(cfg);
      DropsErrors(cfg);
    } else {
      forall run, a | Valid(cfg, Init(), run) && Enabled(cfg, Exec(cfg, Init(), run), a)
        ensures KeepsErrorsIn(cfg, Exec(cfg, Init(), run), a)
      {
        TimedInvHolds(cfg, Init(), run);
        ErrorFreeHolds(cfg, Init(), run);
        ErrorsKeptStep(cfg, Exec(cfg, Init(), run), a);
      }
    }
  }
}
