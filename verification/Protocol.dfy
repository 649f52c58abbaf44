/**
 The task lifecycle as a transition system.

 Any number of workers fetch, claim, run, crash, retry, recover and purge
 against one table. The SELECT and the UPDATE of a transaction are separate
 steps, so every interleaving of two workers is a run. What a row lock does is
 a guard: a step that reads FOR UPDATE or writes a row waits (or, for SKIP
 LOCKED, passes) while another worker is inside a transaction on that row.
 Without row locks the guard is always open.
 */
module Protocol {
  import opened Options
  import opened Rows

  type WorkerKey = nat

  /**
   The deployment.
     locks        the database has row locks
     atomicPurge  the SELECT and DELETE of a purge batch are one transaction
     retries      run_task_by_id(allow_retry=True) is used
     prompt       now is read at the step that uses it, not before
     olderThan    the age recovery is run with
     deadline     when given, every live run writes its result within it
   */
  datatype Config = Config(
    locks: bool, atomicPurge: bool, retries: bool, prompt: bool, olderThan: nat, deadline: Option<nat>)

  /** What a worker is in the middle of. since is when it got there. */
  datatype Activity =
    | Idle
    | Holding(id: TaskId, wid: string, copy: Row, since: int)
    | Claiming(id: TaskId, wid: string, copy: Row, stored: Row, stamp: int)
    | Executing(id: TaskId, wid: string, copy: Row, stamp: int, since: int)
    | Reporting(id: TaskId, wid: string, copy: Row, since: int)
    | Retrying(id: TaskId, wid: string, copy: Row)
    | Recovering(id: TaskId, copy: Row, cutoff: int, maxAttempts: nat, markFailed: bool, since: int)
    | Purging(ids: set<TaskId>)
    | Dead

  datatype State = State(clock: int, rows: map<TaskId, Row>, activities: map<WorkerKey, Activity>, known: set<TaskId>)

  datatype Action =
    | Enqueue(id: TaskId, path: string, queue: string, backend: string, priority: int, runAfter: Option<int>)
    | Tick(t: int)
    | Fetch(w: WorkerKey, wid: string, id: TaskId)
    | ClaimSelect(w: WorkerKey, stamp: int)
    | ClaimUpdate(w: WorkerKey)
    | Succeed(w: WorkerKey, value: Value, stamp: int)
    | Fail(w: WorkerKey, error: TaskError, stamp: int)
    | Report(w: WorkerKey)
    | Crash(w: WorkerKey)
    | RetrySelect(w: WorkerKey, wid: string, id: TaskId)
    | RetryUpdate(w: WorkerKey)
    | RecoverSelect(w: WorkerKey, id: TaskId, begun: int, maxAttempts: nat, markFailed: bool)
    | RecoverUpdate(w: WorkerKey, stamp: int)
    | PurgeSelect(w: WorkerKey, ids: set<TaskId>)
    | PurgeDelete(w: WorkerKey)

  /** The steps by which tasks come in, are run and are reported; the others are those of retry, recovery and purge. */
  predicate IsWork(a: Action) {
    !(a.RetrySelect? || a.RetryUpdate? || a.RecoverSelect? || a.RecoverUpdate? || a.PurgeSelect? || a.PurgeDelete?)
  }

  function Init(): State {
    State(0, map[], map[], {})
  }

  function Doing(s: State, w: WorkerKey): Activity {
    if w in s.activities then s.activities[w] else Idle
  }

  /** The rows whose transaction the activity is inside of. */
  predicate InTransaction(cfg: Config, a: Activity, id: TaskId) {
    || (cfg.locks && (a.Claiming? || a.Retrying? || a.Recovering?) && a.id == id)
    || (cfg.atomicPurge && a.Purging? && id in a.ids)
  }

  ghost predicate Blocked(cfg: Config, s: State, w: WorkerKey, id: TaskId) {
    exists v :: v in s.activities && v != w && InTransaction(cfg, s.activities[v], id)
  }

  /** A reading of the clock taken between since and now, and exactly now if readings are prompt. */
  predicate GoodStamp(cfg: Config, s: State, since: int, stamp: int) {
    since <= stamp <= s.clock && (cfg.prompt ==> stamp == s.clock)
  }

  predicate InTime(cfg: Config, stamp: int, now: int) {
    cfg.deadline.Some? ==> now <= stamp + cfg.deadline.value
  }

  /** The claim held by a worker in Claiming would succeed. */
  predicate StillReady(s: State, id: TaskId) {
    id in s.rows && s.rows[id].status.Ready?
  }

  ghost predicate Enabled(cfg: Config, s: State, a: Action) {
    match a
    case Enqueue(id, _, _, _, _, _) => id !in s.known
    case Tick(t) =>
      && s.clock <= t
      && forall w :: w in s.activities && s.activities[w].Executing? ==> InTime(cfg, s.activities[w].stamp, t)
    case Fetch(w, _, id) => Doing(s, w).Idle? && StillReady(s, id) && !Blocked(cfg, s, w, id)
    case ClaimSelect(w, stamp) => Doing(s, w).Holding? && GoodStamp(cfg, s, Doing(s, w).since, stamp)
    case ClaimUpdate(w) =>
      var d := Doing(s, w);
      && d.Claiming?
      && !Blocked(cfg, s, w, d.id)
      && (StillReady(s, d.id) ==> InTime(cfg, d.stamp, s.clock))
    case Succeed(w, _, stamp) =>
      var d := Doing(s, w);
      d.Executing? && GoodStamp(cfg, s, d.since, stamp) && !Blocked(cfg, s, w, d.id)
    case Fail(w, _, stamp) =>
      var d := Doing(s, w);
      (d.Executing? || d.Reporting?) && GoodStamp(cfg, s, d.since, stamp) && !Blocked(cfg, s, w, d.id)
    case Report(w) => Doing(s, w).Reporting?
    case Crash(w) => true
    case RetrySelect(w, _, id) =>
      cfg.retries && Doing(s, w).Idle? && id in s.rows && s.rows[id].status.Failed? && !Blocked(cfg, s, w, id)
    case RetryUpdate(w) => Doing(s, w).Retrying? && !Blocked(cfg, s, w, Doing(s, w).id)
    case RecoverSelect(w, id, begun, _, _) =>
      && Doing(s, w).Idle?
      && begun <= s.clock
      && id in s.rows && Stale(s.rows[id], begun - cfg.olderThan)
      && !Blocked(cfg, s, w, id)
    case RecoverUpdate(w, stamp) =>
      var d := Doing(s, w);
      d.Recovering? && GoodStamp(cfg, s, d.since, stamp) && !Blocked(cfg, s, w, d.id)
    case PurgeSelect(w, ids) =>
      && Doing(s, w).Idle?
      && (forall id :: id in ids ==> id in s.rows && s.rows[id].Completed())
      && (cfg.atomicPurge ==> forall id :: id in ids ==> !Blocked(cfg, s, w, id))
    case PurgeDelete(w) =>
      Doing(s, w).Purging? && forall id :: id in Doing(s, w).ids ==> !Blocked(cfg, s, w, id)
  }

  function Become(s: State, w: WorkerKey, d: Activity): State {
    s.(activities := s.activities[w := d])
  }

  /** Store a row, unless it was deleted: an UPDATE that matches nothing writes nothing. */
  function Write(s: State, id: TaskId, row: Row): State {
    if id in s.rows then s.(rows := s.rows[id := row]) else s
  }

  ghost function Apply(cfg: Config, s: State, a: Action): State
    requires Enabled(cfg, s, a)
  {
    match a
    case Enqueue(id, path, queue, backend, priority, runAfter) =>
      s.(rows := s.rows[id := NewRow(path, queue, backend, priority, runAfter, s.clock)], known := s.known + {id})
    case Tick(t) => s.(clock := t)
    case Fetch(w, wid, id) => Become(s, w, Holding(id, wid, s.rows[id], s.clock))
    case ClaimSelect(w, stamp) =>
      var d := Doing(s, w);
      if StillReady(s, d.id) && !Blocked(cfg, s, w, d.id)
      then Become(s, w, Claiming(d.id, d.wid, d.copy, s.rows[d.id], stamp))
      else Become(s, w, Idle)
    case ClaimUpdate(w) =>
      var d := Doing(s, w);
      if StillReady(s, d.id) then
        var row := ClaimedRow(s.rows[d.id], d.stored, d.wid, d.stamp);
        Become(Write(s, d.id, row), w,
               Executing(d.id, d.wid, ClaimedRow(d.copy, d.stored, d.wid, d.stamp), d.stamp, s.clock))
      else Become(s, w, Idle)
    case Succeed(w, value, stamp) =>
      var d := Doing(s, w);
      if d.id in s.rows then
        var row := SucceededRow(s.rows[d.id], value, stamp);
        Become(Write(s, d.id, row), w, Reporting(d.id, d.wid, row, s.clock))
      else Become(s, w, Idle)
    case Fail(w, error, stamp) =>
      var d := Doing(s, w);
      if d.id in s.rows
      then Become(Write(s, d.id, FailedRow(s.rows[d.id], d.copy.errors, error, stamp)), w, Idle)
      else Become(s, w, Idle)
    case Report(w) => Become(s, w, Idle)
    case Crash(w) => Become(s, w, Dead)
    case RetrySelect(w, wid, id) => Become(s, w, Retrying(id, wid, s.rows[id]))
    case RetryUpdate(w) =>
      var d := Doing(s, w);
      if d.id in s.rows
      then Become(Write(s, d.id, RetriedRow(s.rows[d.id])), w, Holding(d.id, d.wid, RetriedRow(d.copy), s.clock))
      else Become(s, w, Idle)
    case RecoverSelect(w, id, begun, maxAttempts, markFailed) =>
      Become(s, w, Recovering(id, s.rows[id], begun - cfg.olderThan, maxAttempts, markFailed, s.clock))
    case RecoverUpdate(w, stamp) =>
      var d := Doing(s, w);
      if d.id in s.rows && s.rows[d.id].status.Running?
      then
        var row := RecoveredRow(s.rows[d.id], d.copy, d.maxAttempts, d.markFailed, d.cutoff, stamp);
        Become(Write(s, d.id, row), w, Idle)
      else Become(s, w, Idle)
    case PurgeSelect(w, ids) => Become(s, w, Purging(ids))
    case PurgeDelete(w) => Become(s.(rows := s.rows - Doing(s, w).ids), w, Idle)
  }

  /** The actions are a run of the deployment from s. */
  ghost predicate Valid(cfg: Config, s: State, run: seq<Action>)
    decreases |run|
  {
    run == [] || (Enabled(cfg, s, run[0]) && Valid(cfg, Apply(cfg, s, run[0]), run[1..]))
  }

  /** The state a run ends in. */
  ghost function Exec(cfg: Config, s: State, run: seq<Action>): State
    requires Valid(cfg, s, run)
    decreases |run|
  {
    if run == [] then s else Exec(cfg, Apply(cfg, s, run[0]), run[1..])
  }

  /** A run goes on with any enabled step. */
  lemma {:induction false} Extend(cfg: Config, s: State, run: seq<Action>, a: Action)
    requires Valid(cfg, s, run) && Enabled(cfg, Exec(cfg, s, run), a)
    ensures Valid(cfg, s, run + [a])
    ensures Exec(cfg, s, run + [a]) == Apply(cfg, Exec(cfg, s, run), a)
    decreases |run|
  {
    if run == [] {
      assert run + [a] == [a];
      assert Valid(cfg, Apply(cfg, s, a), [a][1..]);
    } else {
      assert (run + [a])[1..] == run[1..] + [a];
      Extend(cfg, Apply(cfg, s, run[0]), run[1..], a);
    }
  }

  /** A run of one step. */
  lemma OneStep(cfg: Config, s: State, a: Action)
    requires Enabled(cfg, s, a)
    ensures Valid(cfg, s, [a]) && Exec(cfg, s, [a]) == Apply(cfg, s, a)
  {
    assert Valid(cfg, Apply(cfg, s, a), [a][1..]);
  }

  /** A run goes on with a run from where it ended. */
  lemma {:induction false} Append(cfg: Config, s: State, a: seq<Action>, b: seq<Action>)
    requires Valid(cfg, s, a) && Valid(cfg, Exec(cfg, s, a), b)
    ensures Valid(cfg, s, a + b) && Exec(cfg, s, a + b) == Exec(cfg, Exec(cfg, s, a), b)
    decreases |a|
  {
    if a == [] {
      assert a + b == b;
    } else {
      assert (a + b)[1..] == a[1..] + b;
      Append(cfg, Apply(cfg, s, a[0]), a[1..], b);
    }
  }
}
