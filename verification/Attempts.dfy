/** max_attempts bounds how often a task is handed to a worker. */
module Attempts {
  import opened Options
  import opened Rows
  import opened Protocol
  import opened Accounting
  import opened Locking
  import opened Scenarios

  /** Every claim carries a worker id and every recovery runs with max_attempts = k. */
  ghost predicate Disciplined(a: Action, k: nat) {
    && (a.Fetch? || a.RetrySelect? ==> a.wid != "")
    && (a.RecoverSelect? ==> a.maxAttempts == k)
  }

  ghost predicate DisciplinedRun(run: seq<Action>, k: nat) {
    forall i :: 0 <= i < |run| ==> Disciplined(run[i], k)
  }

  /** The same of the workers already under way. */
  ghost predicate DisciplinedState(s: State, k: nat) {
    forall w :: w in s.activities ==>
      && (s.activities[w].Holding? || s.activities[w].Claiming? || s.activities[w].Retrying? ==>
            s.activities[w].wid != "")
      && (s.activities[w].Recovering? ==> s.activities[w].maxAttempts == k)
  }

  /** c claims and r retries of the row so far are within the cap, a READY row counting as a claim to come. */
  ghost predicate WithinCap(s: State, id: TaskId, k: nat, c: nat, r: nat) {
    && (id in s.rows ==> |s.rows[id].workerIds| == c)
    && (id !in s.known ==> c == 0)
    && c + Waiting(s, id) <= k + r
  }

  lemma DisciplinedStep(cfg: Config, s: State, a: Action, k: nat)
    requires Enabled(cfg, s, a) && DisciplinedState(s, k) && Disciplined(a, k)
    ensures DisciplinedState(Apply(cfg, s, a), k)
  {
  }

  lemma CapAtWork(cfg: Config, s: State, a: Action, id: TaskId, k: nat, c: nat, r: nat)
    requires IsWork(a)
    requires cfg.locks && LockInv(s) && Enabled(cfg, s, a) && k >= 1
    requires DisciplinedState(s, k) && Disciplined(a, k) && WithinCap(s, id, k, c, r)
    ensures WithinCap(Apply(cfg, s, a), id, k,
                      c + (if ClaimsRow(s, a, id) then 1 else 0), r + (if RetriesRow(s, a, id) then 1 else 0))
  {
  }

  lemma CapAtUpkeep(cfg: Config, s: State, a: Action, id: TaskId, k: nat, c: nat, r: nat)
    requires !IsWork(a)
    requires cfg.locks && LockInv(s) && Enabled(cfg, s, a) && k >= 1
    requires DisciplinedState(s, k) && Disciplined(a, k) && WithinCap(s, id, k, c, r)
    ensures WithinCap(Apply(cfg, s, a), id, k,
                      c + (if ClaimsRow(s, a, id) then 1 else 0), r + (if RetriesRow(s, a, id) then 1 else 0))
  {
  }

  lemma CapStep(cfg: Config, s: State, a: Action, id: TaskId, k: nat, c: nat, r: nat)
    requires cfg.locks && LockInv(s) && Enabled(cfg, s, a) && k >= 1
    requires DisciplinedState(s, k) && Disciplined(a, k) && WithinCap(s, id, k, c, r)
    ensures WithinCap(Apply(cfg, s, a), id, k,
                      c + (if ClaimsRow(s, a, id) then 1 else 0), r + (if RetriesRow(s, a, id) then 1 else 0))
  {
    if IsWork(a) {
      CapAtWork(cfg, s, a, id, k, c, r);
    } else {
      CapAtUpkeep(cfg, s, a, id, k, c, r);
    }
  }

  lemma {:induction false} CapHolds(cfg: Config, s: State, run: seq<Action>, id: TaskId, k: nat, c: nat, r: nat)
    requires cfg.locks && LockInv(s) && Valid(cfg, s, run) && k >= 1
    requires DisciplinedState(s, k) && DisciplinedRun(run, k) && WithinCap(s, id, k, c, r)
    ensures WithinCap(Exec(cfg, s, run), id, k, c + Claims(cfg, s, run, id), r + Retries(cfg, s, run, id))
    decreases |run|
  {
    if run == [] {
    } else {
      LockInvStep(cfg, s, run[0]);
      DisciplinedStep(cfg, s, run[0], k);
      CapStep(cfg, s, run[0], id, k, c, r);
      CapHolds(cfg, Apply(cfg, s, run[0]), run[1..], id, k,
               c + (if ClaimsRow(s, run[0], id) then 1 else 0), r + (if RetriesRow(s, run[0], id) then 1 else 0));
    }
  }

  /** With max_attempts = k on every recovery, a task is claimed at most k times plus once per retry. */
  lemma AttemptsAreCapped(cfg: Config, run: seq<Action>, id: TaskId, k: nat)
    requires cfg.locks && Valid(cfg, Init(), run) && k >= 1 && DisciplinedRun(run, k)
    ensures Claims(cfg, Init(), run, id) <= k + Retries(cfg, Init(), run, id)
  {
    CapHolds(cfg, Init(), run, id, k, 0, 0);
  }

  /** The claims of any of the tasks. */
  ghost function ClaimsAmong(cfg: Config, s: State, run: seq<Action>, ids: set<TaskId>): nat
    requires Valid(cfg, s, run)
    decreases |run|
  {
    if run == [] then 0 else
    (if exists id :: id in ids && ClaimsRow(s, run[0], id) then 1 else 0)
    + ClaimsAmong(cfg, Apply(cfg, s, run[0]), run[1..], ids)
  }

  ghost function RetriesAmong(cfg: Config, s: State, run: seq<Action>, ids: set<TaskId>): nat
    requires Valid(cfg, s, run)
    decreases |run|
  {
    if run == [] then 0 else
    (if exists id :: id in ids && RetriesRow(s, run[0], id) then 1 else 0)
    + RetriesAmong(cfg, Apply(cfg, s, run[0]), run[1..], ids)
  }

  lemma {:induction false} SplitAmong(cfg: Config, s: State, run: seq<Action>, ids: set<TaskId>, id: TaskId)
    requires Valid(cfg, s, run) && id in ids
    ensures ClaimsAmong(cfg, s, run, ids) == ClaimsAmong(cfg, s, run, ids - {id}) + Claims(cfg, s, run, id)
    ensures RetriesAmong(cfg, s, run, ids) == RetriesAmong(cfg, s, run, ids - {id}) + Retries(cfg, s, run, id)
    decreases |run|
  {
    if run == [] {
    } else {
      SplitAmong(cfg, Apply(cfg, s, run[0]), run[1..], ids, id);
    }
  }

  lemma {:induction false} NoneAmongNone(cfg: Config, s: State, run: seq<Action>)
    requires Valid(cfg, s, run)
    ensures ClaimsAmong(cfg, s, run, {}) == 0
    decreases |run|
  {
    if run == [] {
    } else {
      NoneAmongNone(cfg, Apply(cfg, s, run[0]), run[1..]);
    }
  }

  /** All the claims of finitely many tasks: recovery cannot requeue for ever. */
  lemma {:induction false} AllClaimsAreBounded(cfg: Config, run: seq<Action>, ids: set<TaskId>, k: nat)
    requires cfg.locks && Valid(cfg, Init(), run) && k >= 1 && DisciplinedRun(run, k)
    ensures ClaimsAmong(cfg, Init(), run, ids) <= k * |ids| + RetriesAmong(cfg, Init(), run, ids)
    decreases |ids|
  {
    if ids == {} {
      NoneAmongNone(cfg, Init(), run);
    } else {
      var id :| id in ids;
      AttemptsAreCapped(cfg, run, id, k);
      SplitAmong(cfg, Init(), run, ids, id);
      AllClaimsAreBounded(cfg, run, ids - {id}, k);
      assert |ids| == |ids - {id}| + 1;
      assert k * |ids| == k * |ids - {id}| + k;
    }
  }

  /** No run in which every recovery has max_attempts = k claims a task more often than k plus its retries. */
  ghost predicate CapsAttempts(cfg: Config, k: nat) {
    forall run, id :: Valid(cfg, Init(), run) && DisciplinedRun(run, k) ==>
      Claims(cfg, Init(), run, id) <= k + Retries(cfg, Init(), run, id)
  }

  /** Every claim is on record by the time a recovery can see it. */
  ghost predicate ClaimsShow(s: State) {
    && (forall id :: id in s.rows && s.rows[id].status.Running? ==> s.rows[id].workerIds != [])
    && (forall w :: w in s.activities && s.activities[w].Recovering? ==> s.activities[w].copy.workerIds != [])
  }

  lemma ClaimsShowAtWork(cfg: Config, s: State, a: Action)
    requires IsWork(a)
    requires Enabled(cfg, s, a) && ClaimsShow(s) && DisciplinedState(s, 1)
    ensures ClaimsShow(Apply(cfg, s, a))
  {
  }

  lemma ClaimsShowAtUpkeep(cfg: Config, s: State, a: Action)
    requires !IsWork(a)
    requires Enabled(cfg, s, a) && ClaimsShow(s) && DisciplinedState(s, 1)
    ensures ClaimsShow(Apply(cfg, s, a))
  {
  }

  lemma ClaimsShowStep(cfg: Config, s: State, a: Action)
    requires Enabled(cfg, s, a) && ClaimsShow(s) && DisciplinedState(s, 1)
    ensures ClaimsShow(Apply(cfg, s, a))
  {
    if IsWork(a) {
      ClaimsShowAtWork(cfg, s, a);
    } else {
      ClaimsShowAtUpkeep(cfg, s, a);
    }
  }

  /** A single attempt needs no locks: one claim is all it takes to be given up on. */
  lemma {:induction false} NoneRequeued(cfg: Config, s: State, run: seq<Action>, id: TaskId)
    requires Valid(cfg, s, run) && ClaimsShow(s) && DisciplinedState(s, 1) && DisciplinedRun(run, 1)
    ensures Requeues(cfg, s, run, id) == 0
    decreases |run|
  {
    if run == [] {
    } else {
      ClaimsShowStep(cfg, s, run[0]);
      DisciplinedStep(cfg, s, run[0], 1);
      assert !RequeuesRow(s, run[0], id);
      NoneRequeued(cfg, Apply(cfg, s, run[0]), run[1..], id);
    }
  }

  /** Some disciplined run from s claims task 0 at least n times more than it retries it. */
  ghost predicate CanClaim(cfg: Config, s: State, k: nat, n: int) {
    exists run :: Valid(cfg, s, run) && DisciplinedRun(run, k) && Claims(cfg, s, run, 0) >= n + Retries(cfg, s, run, 0)
  }

  lemma OneMoreStep(cfg: Config, s: State, a: Action, k: nat, n: int)
    requires Enabled(cfg, s, a) && Disciplined(a, k) && !a.RetryUpdate?
    requires CanClaim(cfg, Apply(cfg, s, a), k, if ClaimsRow(s, a, 0) then n - 1 else n)
    ensures CanClaim(cfg, s, k, n)
  {
    var t := Apply(cfg, s, a);
    var rest :| Valid(cfg, t, rest) && DisciplinedRun(rest, k)
                && Claims(cfg, t, rest, 0) >= (if ClaimsRow(s, a, 0) then n - 1 else n) + Retries(cfg, t, rest, 0);
    var run := [a] + rest;
    assert run[0] == a && run[1..] == rest;
    assert Valid(cfg, s, run) && DisciplinedRun(run, k);
    assert Claims(cfg, s, run, 0) >= n + Retries(cfg, s, run, 0);
  }

  lemma OneMoreClaim(cfg: Config, s: State, w: WorkerKey, k: nat, n: int)
    requires StillReady(s, 0) && Doing(s, w).Idle? && Unblocked(cfg, s)
    requires CanClaim(cfg, Started(s, w, "a"), k, n - 1)
    ensures CanClaim(cfg, s, k, n)
  {
    hide Enabled, Apply;
    StartSteps(cfg, s, w, "a");
    var s1 := Apply(cfg, s, Fetch(w, "a", 0));
    var s2 := Apply(cfg, s1, ClaimSelect(w, s.clock));
    OneMoreStep(cfg, s2, ClaimUpdate(w), k, n);
    OneMoreStep(cfg, s1, ClaimSelect(w, s.clock), k, n);
    OneMoreStep(cfg, s, Fetch(w, "a", 0), k, n);
  }

  /** The j recoverers with odd numbers are about to requeue task 0; the first workers with even numbers are idle. */
  ghost predicate Pending(cfg: Config, s: State, k: nat, j: nat) {
    && 0 in s.rows && Unblocked(cfg, s)
    && (forall i: nat :: i < j ==> AboutToRequeue(s, 2 * i + 1, k))
    && (forall i: nat :: i <= j ==> Doing(s, 2 * i).Idle?)
  }

  predicate AboutToRequeue(s: State, w: WorkerKey, k: nat) {
    var d := Doing(s, w);
    d.Recovering? && d.id == 0 && !IsGivenUpOn(d.copy, d.maxAttempts, d.markFailed) && d.since <= s.clock
  }

  /** Each of them lets one more run begin. */
  lemma {:induction false} RequeueInTurn(cfg: Config, s: State, k: nat, j: nat)
    requires !cfg.locks && Pending(cfg, s, k, j) && StillReady(s, 0)
    ensures CanClaim(cfg, s, k, j + 1)
    decreases j
  {
    var t := Started(s, 2 * j, "a");
    if j == 0 {
      assert Valid(cfg, t, []) && DisciplinedRun([], k) && Claims(cfg, t, [], 0) == 0 == Retries(cfg, t, [], 0);
      assert CanClaim(cfg, t, k, 0);
    } else {
      var w := 2 * (j - 1) + 1;
      assert AboutToRequeue(s, w, k);
      assert Doing(t, w) == Doing(s, w);
      var u := Apply(cfg, t, RecoverUpdate(w, t.clock));
      forall i: nat | i < j - 1 ensures AboutToRequeue(u, 2 * i + 1, k) {
        assert Doing(u, 2 * i + 1) == Doing(s, 2 * i + 1) && AboutToRequeue(s, 2 * i + 1, k);
      }
      forall i: nat | i <= j - 1 ensures Doing(u, 2 * i).Idle? {
        assert Doing(u, 2 * i) == Doing(s, 2 * i);
      }
      RequeueInTurn(cfg, u, k, j - 1);
      OneMoreStep(cfg, t, RecoverUpdate(w, t.clock), k, j);
    }
    OneMoreClaim(cfg, s, 2 * j, k, j + 1);
  }

  /** More recoverers select the stale row, before the first of them updates it. */
  lemma {:induction false} SelectTogether(cfg: Config, s: State, k: nat, j: nat)
    requires !cfg.locks && k >= 2 && 1 <= j <= k && Pending(cfg, s, k, j)
    requires Stale(s.rows[0], s.clock - cfg.olderThan) && |s.rows[0].workerIds| == 1
    requires forall i: nat :: j <= i <= k ==> Doing(s, 2 * i).Idle? && Doing(s, 2 * i + 1).Idle?
    ensures CanClaim(cfg, s, k, k)
    decreases k - j
  {
    if j == k {
      var w := 2 * (k - 1) + 1;
      assert AboutToRequeue(s, w, k);
      var u := Apply(cfg, s, RecoverUpdate(w, s.clock));
      forall i: nat | i < k - 1 ensures AboutToRequeue(u, 2 * i + 1, k) {
        assert Doing(u, 2 * i + 1) == Doing(s, 2 * i + 1) && AboutToRequeue(s, 2 * i + 1, k);
      }
      forall i: nat | i <= k - 1 ensures Doing(u, 2 * i).Idle? {
        assert Doing(u, 2 * i) == Doing(s, 2 * i);
      }
      RequeueInTurn(cfg, u, k, k - 1);
      OneMoreStep(cfg, s, RecoverUpdate(w, s.clock), k, k);
    } else {
      var a := RecoverSelect(2 * j + 1, 0, s.clock, k, false);
      assert Doing(s, 2 * j + 1).Idle?;
      var t := Apply(cfg, s, a);
      forall i: nat | i < j + 1 ensures AboutToRequeue(t, 2 * i + 1, k) {
        assert i < j ==> Doing(t, 2 * i + 1) == Doing(s, 2 * i + 1) && AboutToRequeue(s, 2 * i + 1, k);
      }
      forall i: nat | i <= k ensures Doing(t, 2 * i).Idle? {
        assert Doing(t, 2 * i) == Doing(s, 2 * i);
      }
      forall i: nat | j + 1 <= i <= k ensures Doing(t, 2 * i + 1).Idle? {
        assert Doing(t, 2 * i + 1) == Doing(s, 2 * i + 1);
      }
      SelectTogether(cfg, t, k, j + 1);
      OneMoreStep(cfg, s, a, k, k);
    }
  }

  lemma SelectFirst(cfg: Config, s: State, k: nat)
    requires !cfg.locks && k >= 2 && 0 in s.rows && s.activities == map[2 * k + 2 := Dead]
    requires Stale(s.rows[0], s.clock - cfg.olderThan) && |s.rows[0].workerIds| == 1
    ensures CanClaim(cfg, s, k, k)
  {
    var a := RecoverSelect(1, 0, s.clock, k, false);
    var t := Apply(cfg, s, a);
    assert t.activities == map[2 * k + 2 := Dead, 1 := t.activities[1]];
    assert AboutToRequeue(t, 1, k);
    SelectTogether(cfg, t, k, 1);
    OneMoreStep(cfg, s, a, k, k);
  }

  /** k recoverers of one lost run queue the task k times over. */
  lemma TooManyAttempts(cfg: Config, k: nat)
    requires !cfg.locks && k >= 2
    ensures CanClaim(cfg, Init(), k, k + 1)
  {
    var lost := 2 * k + 2;
    var s1 := Started(OneTask(), lost, "a");
    var s2 := Apply(cfg, s1, Crash(lost));
    SelectFirst(cfg, Apply(cfg, s2, Tick(cfg.olderThan + 1)), k);
    OneMoreStep(cfg, s2, Tick(cfg.olderThan + 1), k, k);
    OneMoreStep(cfg, s1, Crash(lost), k, k);
    OneMoreClaim(cfg, OneTask(), lost, k, k + 1);
    assert Apply(cfg, Init(), Enqueue(0, "p", "q", "b", 0, None)) == OneTask();
    OneMoreStep(cfg, Init(), Enqueue(0, "p", "q", "b", 0, None), k, k + 1);
  }

  /** max_attempts = k is kept to exactly under row locks, or when it is 1. */
  lemma CappedExactlyUnderLocksOrAtOne(cfg: Config, k: nat)
    requires k >= 1
    ensures CapsAttempts(cfg, k) <==> cfg.locks || k == 1
  {
    if cfg.locks || k == 1 {
      forall run, id | Valid(cfg, Init(), run) && DisciplinedRun(run, k)
        ensures Claims(cfg, Init(), run, id) <= k + Retries(cfg, Init(), run, id)
      {
        if cfg.locks {
          AttemptsAreCapped(cfg, run, id, k);
        } else {
          NoneRequeued(cfg, Init(), run, id);
          AtMostOneRunPerReturn(cfg, run, id);
        }
      }
    } else {
      TooManyAttempts(cfg, k);
    }
  }
}
