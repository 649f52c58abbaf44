/**
 What row locks buy: inside a transaction, the row is still the one that was
 read. Under locks the recorded worker ids are the exact history of claims.
 */
module Locking {
  import opened Rows
  import opened Protocol
  import opened Accounting

  predicate Transacting(d: Activity) {
    d.Claiming? || d.Retrying? || d.Recovering?
  }

  /** The row a transaction's SELECT ... FOR UPDATE read. */
  function ReadRow(d: Activity): Row
    requires Transacting(d)
  {
    if d.Claiming? then d.stored else d.copy
  }

  predicate SeesItsRow(s: State, w: WorkerKey)
    requires w in s.activities && Transacting(s.activities[w])
  {
    var d := s.activities[w];
    d.id in s.rows && s.rows[d.id] == ReadRow(d)
  }

  /** Transactions are on different rows. */
  ghost predicate Apart(s: State) {
    forall v, w :: (v in s.activities && w in s.activities && v != w
                    && Transacting(s.activities[v]) && Transacting(s.activities[w])) ==>
      s.activities[v].id != s.activities[w].id
  }

  /** And each still sees the row it read. */
  ghost predicate LockInv(s: State) {
    && (forall w :: w in s.activities && Transacting(s.activities[w]) ==> SeesItsRow(s, w))
    && Apart(s)
    && s.rows.Keys <= s.known
  }

  lemma SeesItsRowAtWork(cfg: Config, s: State, a: Action, w: WorkerKey)
    requires IsWork(a)
    requires cfg.locks && LockInv(s) && Enabled(cfg, s, a)
    requires w in Apply(cfg, s, a).activities && Transacting(Apply(cfg, s, a).activities[w])
    ensures SeesItsRow(Apply(cfg, s, a), w)
  {
  }

  lemma SeesItsRowAtUpkeep(cfg: Config, s: State, a: Action, w: WorkerKey)
    requires !IsWork(a)
    requires cfg.locks && LockInv(s) && Enabled(cfg, s, a)
    requires w in Apply(cfg, s, a).activities && Transacting(Apply(cfg, s, a).activities[w])
    ensures SeesItsRow(Apply(cfg, s, a), w)
  {
  }

  /** Another worker's write waits for the transaction to end. */
  lemma SeesItsRowStep(cfg: Config, s: State, a: Action, w: WorkerKey)
    requires cfg.locks && LockInv(s) && Enabled(cfg, s, a)
    requires w in Apply(cfg, s, a).activities && Transacting(Apply(cfg, s, a).activities[w])
    ensures SeesItsRow(Apply(cfg, s, a), w)
  {
    if IsWork(a) {
      SeesItsRowAtWork(cfg, s, a, w);
    } else {
      SeesItsRowAtUpkeep(cfg, s, a, w);
    }
  }

  lemma ApartAtWork(cfg: Config, s: State, a: Action, v: WorkerKey, w: WorkerKey)
    requires IsWork(a)
    requires cfg.locks && Apart(s) && Enabled(cfg, s, a) && v != w
    requires v in Apply(cfg, s, a).activities && Transacting(Apply(cfg, s, a).activities[v])
    requires w in Apply(cfg, s, a).activities && Transacting(Apply(cfg, s, a).activities[w])
    ensures Apply(cfg, s, a).activities[v].id != Apply(cfg, s, a).activities[w].id
  {
  }

  lemma ApartAtUpkeep(cfg: Config, s: State, a: Action, v: WorkerKey, w: WorkerKey)
    requires !IsWork(a)
    requires cfg.locks && Apart(s) && Enabled(cfg, s, a) && v != w
    requires v in Apply(cfg, s, a).activities && Transacting(Apply(cfg, s, a).activities[v])
    requires w in Apply(cfg, s, a).activities && Transacting(Apply(cfg, s, a).activities[w])
    ensures Apply(cfg, s, a).activities[v].id != Apply(cfg, s, a).activities[w].id
  {
  }

  /** And so does its transaction on the same row. */
  lemma ApartStep(cfg: Config, s: State, a: Action, v: WorkerKey, w: WorkerKey)
    requires cfg.locks && Apart(s) && Enabled(cfg, s, a) && v != w
    requires v in Apply(cfg, s, a).activities && Transacting(Apply(cfg, s, a).activities[v])
    requires w in Apply(cfg, s, a).activities && Transacting(Apply(cfg, s, a).activities[w])
    ensures Apply(cfg, s, a).activities[v].id != Apply(cfg, s, a).activities[w].id
  {
    if IsWork(a) {
      ApartAtWork(cfg, s, a, v, w);
    } else {
      ApartAtUpkeep(cfg, s, a, v, w);
    }
  }

  lemma LockInvStep(cfg: Config, s: State, a: Action)
    requires cfg.locks && LockInv(s) && Enabled(cfg, s, a)
    ensures LockInv(Apply(cfg, s, a))
  {
    var t := Apply(cfg, s, a);
    forall w | w in t.activities && Transacting(t.activities[w]) ensures SeesItsRow(t, w) {
      SeesItsRowStep(cfg, s, a, w);
    }
    forall v, w | v in t.activities && w in t.activities && v != w && Transacting(t.activities[v])
      && Transacting(t.activities[w])
      ensures t.activities[v].id != t.activities[w].id
    {
      ApartStep(cfg, s, a, v, w);
    }
  }

  lemma {:induction false} LockInvHolds(cfg: Config, s: State, run: seq<Action>)
    requires cfg.locks && LockInv(s) && Valid(cfg, s, run)
    ensures LockInv(Exec(cfg, s, run))
    decreases |run|
  {
    if run == [] {
    } else {
      LockInvStep(cfg, s, run[0]);
      LockInvHolds(cfg, Apply(cfg, s, run[0]), run[1..]);
    }
  }

  /** The worker ids of the successful claims of a row, in order. */
  ghost function History(cfg: Config, s: State, run: seq<Action>, id: TaskId): seq<string>
    requires Valid(cfg, s, run)
    decreases |run|
  {
    if run == [] then [] else
    (if ClaimsRow(s, run[0], id) then WithWorker([], Doing(s, run[0].w).wid) else [])
    + History(cfg, Apply(cfg, s, run[0]), run[1..], id)
  }

  /** The worker ids recorded on a row, or none before it exists. */
  function Recorded(s: State, id: TaskId): seq<string> {
    if id in s.rows then s.rows[id].workerIds else []
  }

  lemma {:induction false} GoneForGood(cfg: Config, s: State, run: seq<Action>, id: TaskId)
    requires Valid(cfg, s, run) && id in s.known && id !in s.rows
    ensures id !in Exec(cfg, s, run).rows
    decreases |run|
  {
    if run == [] {
    } else {
      GoneForGood(cfg, Apply(cfg, s, run[0]), run[1..], id);
    }
  }

  lemma RecordedStep(cfg: Config, s: State, a: Action, id: TaskId)
    requires cfg.locks && LockInv(s) && Enabled(cfg, s, a)
    requires id in s.rows || id !in s.known
    requires id in Apply(cfg, s, a).rows || id !in Apply(cfg, s, a).known
    ensures Recorded(Apply(cfg, s, a), id)
         == Recorded(s, id) + if ClaimsRow(s, a, id) then WithWorker([], Doing(s, a.w).wid) else []
  {
  }

  /** Under row locks, whatever else happens to the row. */
  lemma {:induction false} RecordedIsHistory(cfg: Config, s: State, run: seq<Action>, id: TaskId)
    requires cfg.locks && LockInv(s) && Valid(cfg, s, run)
    requires id in s.rows || id !in s.known
    requires id in Exec(cfg, s, run).rows
    ensures Exec(cfg, s, run).rows[id].workerIds == Recorded(s, id) + History(cfg, s, run, id)
    decreases |run|
  {
    hide Enabled, Apply;
    if run == [] {
    } else {
      var t := Apply(cfg, s, run[0]);
      LockInvStep(cfg, s, run[0]);
      if id in t.known && id !in t.rows {
        GoneForGood(cfg, t, run[1..], id);
        assert false;
      }
      RecordedStep(cfg, s, run[0], id);
      RecordedIsHistory(cfg, t, run[1..], id);
      var won := if ClaimsRow(s, run[0], id) then WithWorker([], Doing(s, run[0].w).wid) else [];
      var rest := History(cfg, t, run[1..], id);
      assert History(cfg, s, run, id) == won + rest;
      assert Recorded(s, id) + (won + rest) == Recorded(s, id) + won + rest;
    }
  }
}
