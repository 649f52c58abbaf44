/** Building blocks for showing that a deployment can reach a given state. */
module Scenarios {
  import opened Options
  import opened Rows
  import opened Protocol

  /** Some run of the deployment from s ends in the goal. */
  ghost predicate Reaches(cfg: Config, s: State, goal: State -> bool) {
    exists run :: Valid(cfg, s, run) && goal(Exec(cfg, s, run))
  }

  lemma Here(cfg: Config, s: State, goal: State -> bool)
    requires goal(s)
    ensures Reaches(cfg, s, goal)
  {
    assert Valid(cfg, s, []) && Exec(cfg, s, []) == s;
  }

  lemma Back(cfg: Config, s: State, a: Action, goal: State -> bool)
    requires Enabled(cfg, s, a) && Reaches(cfg, Apply(cfg, s, a), goal)
    ensures Reaches(cfg, s, goal)
  {
    var rest :| Valid(cfg, Apply(cfg, s, a), rest) && goal(Exec(cfg, Apply(cfg, s, a), rest));
    var run := [a] + rest;
    assert run[0] == a && run[1..] == rest;
    assert Valid(cfg, s, run);
  }

  /** No worker is inside a transaction that others wait for. */
  ghost predicate Unblocked(cfg: Config, s: State) {
    forall v, id :: v in s.activities ==> !InTransaction(cfg, s.activities[v], id)
  }

  /** The state after the first enqueue. */
  function OneTask(): State {
    State(0, map[0 := NewRow("p", "q", "b", 0, None, 0)], map[], {0})
  }

  lemma BackToInit(cfg: Config, goal: State -> bool)
    requires Reaches(cfg, OneTask(), goal)
    ensures Reaches(cfg, Init(), goal)
  {
    assert Apply(cfg, Init(), Enqueue(0, "p", "q", "b", 0, None)) == OneTask();
    Back(cfg, Init(), Enqueue(0, "p", "q", "b", 0, None), goal);
  }

  /** The state after w fetches and claims task 0 and starts to run it. */
  function Started(s: State, w: WorkerKey, wid: string): State
    requires 0 in s.rows
  {
    var row := ClaimedRow(s.rows[0], s.rows[0], wid, s.clock);
    Become(Write(s, 0, row), w, Executing(0, wid, row, s.clock, s.clock))
  }

  lemma StartSteps(cfg: Config, s: State, w: WorkerKey, wid: string)
    requires StillReady(s, 0) && Doing(s, w).Idle? && Unblocked(cfg, s)
    ensures Enabled(cfg, s, Fetch(w, wid, 0))
    ensures var s1 := Apply(cfg, s, Fetch(w, wid, 0));
      && Enabled(cfg, s1, ClaimSelect(w, s.clock))
      && var s2 := Apply(cfg, s1, ClaimSelect(w, s.clock));
      && Enabled(cfg, s2, ClaimUpdate(w)) && Apply(cfg, s2, ClaimUpdate(w)) == Started(s, w, wid)
      && Doing(s2, w).Claiming? && Doing(s2, w).id == 0 && StillReady(s2, 0)
  {
    var s1 := Apply(cfg, s, Fetch(w, wid, 0));
    var s2 := Apply(cfg, s1, ClaimSelect(w, s.clock));
    var s3 := Apply(cfg, s2, ClaimUpdate(w));
    assert s3.activities == Started(s, w, wid).activities;
  }

  lemma BackToStart(cfg: Config, s: State, w: WorkerKey, wid: string, goal: State -> bool)
    requires StillReady(s, 0) && Doing(s, w).Idle? && Unblocked(cfg, s)
    requires Reaches(cfg, Started(s, w, wid), goal)
    ensures Reaches(cfg, s, goal)
  {
    hide Enabled, Apply;
    StartSteps(cfg, s, w, wid);
    var s1 := Apply(cfg, s, Fetch(w, wid, 0));
    var s2 := Apply(cfg, s1, ClaimSelect(w, s.clock));
    Back(cfg, s2, ClaimUpdate(w), goal);
    Back(cfg, s1, ClaimSelect(w, s.clock), goal);
    Back(cfg, s, Fetch(w, wid, 0), goal);
  }

  /** The state after w runs task 0 and it raises. */
  function Attempted(s: State, w: WorkerKey, wid: string): State
    requires 0 in s.rows
  {
    var row := ClaimedRow(s.rows[0], s.rows[0], wid, s.clock);
    Become(Write(s, 0, FailedRow(row, row.errors, Raised("e"), s.clock)), w, Idle)
  }

  lemma BackToAttempt(cfg: Config, s: State, w: WorkerKey, wid: string, goal: State -> bool)
    requires StillReady(s, 0) && Doing(s, w).Idle? && Unblocked(cfg, s)
    requires Reaches(cfg, Attempted(s, w, wid), goal)
    ensures Reaches(cfg, s, goal)
  {
    var s1 := Started(s, w, wid);
    assert Apply(cfg, s1, Fail(w, Raised("e"), s.clock)) == Attempted(s, w, wid);
    Back(cfg, s1, Fail(w, Raised("e"), s.clock), goal);
    BackToStart(cfg, s, w, wid, goal);
  }

  /** The state after w requeues task 0. */
  function Requeued(s: State, w: WorkerKey): State
    requires 0 in s.rows
  {
    Become(Write(s, 0, RequeuedRow(s.rows[0])), w, Idle)
  }

  lemma BackToRequeue(cfg: Config, s: State, w: WorkerKey, goal: State -> bool)
    requires 0 in s.rows && Stale(s.rows[0], s.clock - cfg.olderThan) && Doing(s, w).Idle? && Unblocked(cfg, s)
    requires Reaches(cfg, Requeued(s, w), goal)
    ensures Reaches(cfg, s, goal)
  {
    var s1 := Apply(cfg, s, RecoverSelect(w, 0, s.clock, 0, false));
    var s2 := Apply(cfg, s1, RecoverUpdate(w, s.clock));
    assert s2 == Requeued(s, w);
    Back(cfg, s1, RecoverUpdate(w, s.clock), goal);
    Back(cfg, s, RecoverSelect(w, 0, s.clock, 0, false), goal);
  }

  /** The state after w retries task 0 and holds it again. */
  function Retried(s: State, w: WorkerKey, wid: string): State
    requires 0 in s.rows
  {
    var row := RetriedRow(s.rows[0]);
    Become(Write(s, 0, row), w, Holding(0, wid, row, s.clock))
  }

  lemma BackToRetry(cfg: Config, s: State, w: WorkerKey, wid: string, goal: State -> bool)
    requires cfg.retries && 0 in s.rows && s.rows[0].status.Failed? && Doing(s, w).Idle? && Unblocked(cfg, s)
    requires Reaches(cfg, Retried(s, w, wid), goal)
    ensures Reaches(cfg, s, goal)
  {
    var s1 := Apply(cfg, s, RetrySelect(w, wid, 0));
    var s2 := Apply(cfg, s1, RetryUpdate(w));
    assert s2 == Retried(s, w, wid);
    Back(cfg, s1, RetryUpdate(w), goal);
    Back(cfg, s, RetrySelect(w, wid, 0), goal);
  }

  /** What is reached stays within reach one step further. */
  lemma Onward(cfg: Config, s: State, from: State -> bool, step: State -> Action, goal: State -> bool)
    requires Reaches(cfg, s, from)
    requires forall t :: from(t) ==> Enabled(cfg, t, step(t)) && goal(Apply(cfg, t, step(t)))
    ensures Reaches(cfg, s, goal)
  {
    var run :| Valid(cfg, s, run) && from(Exec(cfg, s, run));
    var t := Exec(cfg, s, run);
    Extend(cfg, s, run, step(t));
    assert Valid(cfg, s, run + [step(t)]) && goal(Exec(cfg, s, run + [step(t)]));
  }

  lemma Weaken(cfg: Config, s: State, from: State -> bool, goal: State -> bool)
    requires Reaches(cfg, s, from) && forall t :: from(t) ==> goal(t)
    ensures Reaches(cfg, s, goal)
  {
    var run :| Valid(cfg, s, run) && from(Exec(cfg, s, run));
    assert goal(Exec(cfg, s, run));
  }

  /** The row of task 0 as the worker that was lost claimed it. */
  function LostRow(): Row {
    var row := NewRow("p", "q", "b", 0, None, 0);
    ClaimedRow(row, row, "a", 0)
  }

  /** The state once the run of worker 9, which was lost, has become stale. */
  function Lost(cfg: Config): State {
    State(cfg.olderThan + 1, map[0 := LostRow()], map[9 := Dead], {0})
  }

  lemma BackToLost(cfg: Config, goal: State -> bool)
    requires Reaches(cfg, Lost(cfg), goal)
    ensures Reaches(cfg, Init(), goal)
  {
    hide Reaches;
    var s1 := Started(OneTask(), 9, "a");
    var s2 := Apply(cfg, s1, Crash(9));
    assert Apply(cfg, s2, Tick(cfg.olderThan + 1)) == Lost(cfg);
    Back(cfg, s2, Tick(cfg.olderThan + 1), goal);
    Back(cfg, s1, Crash(9), goal);
    BackToStart(cfg, OneTask(), 9, "a", goal);
    BackToInit(cfg, goal);
  }

  /** And after worker 3 selected its task to recover it, and worker 4 requeued it first. */
  function HalfRecovered(cfg: Config, markFailed: bool): State {
    State(cfg.olderThan + 1, map[0 := RequeuedRow(LostRow())],
          map[9 := Dead, 3 := Recovering(0, LostRow(), 1, 0, markFailed, cfg.olderThan + 1), 4 := Idle], {0})
  }

  lemma BackToHalfRecovered(cfg: Config, markFailed: bool, goal: State -> bool)
    requires !cfg.locks && Reaches(cfg, HalfRecovered(cfg, markFailed), goal)
    ensures Reaches(cfg, Init(), goal)
  {
    hide Reaches;
    var s := Lost(cfg);
    var t := Apply(cfg, s, RecoverSelect(3, 0, s.clock, 0, markFailed));
    assert Requeued(t, 4).activities == HalfRecovered(cfg, markFailed).activities;
    assert Requeued(t, 4) == HalfRecovered(cfg, markFailed);
    BackToRequeue(cfg, t, 4, goal);
    Back(cfg, s, RecoverSelect(3, 0, s.clock, 0, markFailed), goal);
    BackToLost(cfg, goal);
  }

  /** And after worker 1 ran it again, and worker 3 requeued that run. */
  function RunAgain(cfg: Config): State {
    Requeued(Started(HalfRecovered(cfg, false), 1, "b"), 3)
  }

  lemma BackToRunAgain(cfg: Config, goal: State -> bool)
    requires !cfg.locks && Reaches(cfg, RunAgain(cfg), goal)
    ensures Reaches(cfg, Init(), goal)
  {
    hide Reaches;
    var s := HalfRecovered(cfg, false);
    var t := Started(s, 1, "b");
    assert Apply(cfg, t, RecoverUpdate(3, t.clock)) == RunAgain(cfg);
    Back(cfg, t, RecoverUpdate(3, t.clock), goal);
    BackToStart(cfg, s, 1, "b", goal);
    BackToHalfRecovered(cfg, false, goal);
  }

  /** The state after worker 3 requeued a run of worker 1 that is still going. */
  function TooEarly(cfg: Config): State {
    Requeued(Started(OneTask(), 1, "a").(clock := cfg.olderThan + 1), 3)
  }

  lemma BackToTooEarly(cfg: Config, goal: State -> bool)
    requires (cfg.deadline.None? || cfg.olderThan < cfg.deadline.value) && Reaches(cfg, TooEarly(cfg), goal)
    ensures Reaches(cfg, Init(), goal)
  {
    hide Reaches;
    var s := Started(OneTask(), 1, "a");
    var t := Apply(cfg, s, Tick(cfg.olderThan + 1));
    BackToRequeue(cfg, t, 3, goal);
    Back(cfg, s, Tick(cfg.olderThan + 1), goal);
    BackToStart(cfg, OneTask(), 1, "a", goal);
    BackToInit(cfg, goal);
  }

  /** The state at t, after worker 1 fetched the task at 0. */
  function Fetched(t: nat): State {
    Become(OneTask(), 1, Holding(0, "a", OneTask().rows[0], 0)).(clock := t)
  }

  /** And after a run of it that raised and a retry, while worker 1 still holds it. */
  function Overtaken(t: nat): State {
    Retried(Attempted(Fetched(t), 2, "b"), 3, "c")
  }

  lemma BackToOvertaken(cfg: Config, t: nat, goal: State -> bool)
    requires cfg.retries && Reaches(cfg, Overtaken(t), goal)
    ensures Reaches(cfg, Init(), goal)
  {
    BackToRetry(cfg, Attempted(Fetched(t), 2, "b"), 3, "c", goal);
    BackToAttempt(cfg, Fetched(t), 2, "b", goal);
    BackToFetched(cfg, t, goal);
  }

  lemma BackToFetched(cfg: Config, t: nat, goal: State -> bool)
    requires Reaches(cfg, Fetched(t), goal)
    ensures Reaches(cfg, Init(), goal)
  {
    var s := Apply(cfg, OneTask(), Fetch(1, "a", 0));
    assert Apply(cfg, s, Tick(t)) == Fetched(t);
    Back(cfg, s, Tick(t), goal);
    Back(cfg, OneTask(), Fetch(1, "a", 0), goal);
    BackToInit(cfg, goal);
  }
}
