/** Who may run a task, and how often: claims against returns to READY. */
module Accounting {
  import opened Rows
  import opened Protocol

  /** The step is a claim of the row that succeeds. */
  ghost predicate ClaimsRow(s: State, a: Action, id: TaskId) {
    a.ClaimUpdate? && Doing(s, a.w).Claiming? && Doing(s, a.w).id == id && StillReady(s, id)
  }

  /** The step writes READY over the row by a retry. */
  ghost predicate RetriesRow(s: State, a: Action, id: TaskId) {
    a.RetryUpdate? && Doing(s, a.w).Retrying? && Doing(s, a.w).id == id && id in s.rows
  }

  /** The step writes READY over the row by a recovery. */
  ghost predicate RequeuesRow(s: State, a: Action, id: TaskId) {
    && a.RecoverUpdate? && Doing(s, a.w).Recovering? && Doing(s, a.w).id == id
    && id in s.rows && s.rows[id].status.Running?
    && !IsGivenUpOn(Doing(s, a.w).copy, Doing(s, a.w).maxAttempts, Doing(s, a.w).markFailed)
  }

  ghost function Claims(cfg: Config, s: State, run: seq<Action>, id: TaskId): nat
    requires Valid(cfg, s, run)
    decreases |run|
  {
    if run == [] then 0 else
    (if ClaimsRow(s, run[0], id) then 1 else 0) + Claims(cfg, Apply(cfg, s, run[0]), run[1..], id)
  }

  ghost function Retries(cfg: Config, s: State, run: seq<Action>, id: TaskId): nat
    requires Valid(cfg, s, run)
    decreases |run|
  {
    if run == [] then 0 else
    (if RetriesRow(s, run[0], id) then 1 else 0) + Retries(cfg, Apply(cfg, s, run[0]), run[1..], id)
  }

  ghost function Requeues(cfg: Config, s: State, run: seq<Action>, id: TaskId): nat
    requires Valid(cfg, s, run)
    decreases |run|
  {
    if run == [] then 0 else
    (if RequeuesRow(s, run[0], id) then 1 else 0) + Requeues(cfg, Apply(cfg, s, run[0]), run[1..], id)
  }

  ghost function Waiting(s: State, id: TaskId): nat {
    if StillReady(s, id) then 1 else 0
  }

  /** 1 while the id can still be enqueued. */
  ghost function Unborn(s: State, id: TaskId): nat {
    if id in s.known then 0 else 1
  }

  /**
   Over any stretch of any run, from any state at all, with or without row
   locks: a READY row pays for one claim, and every further claim is paid for
   by a return to READY.
   */
  lemma {:induction false} ClaimsArePaidFor(cfg: Config, s: State, run: seq<Action>, id: TaskId)
    requires Valid(cfg, s, run)
    ensures Claims(cfg, s, run, id) + Waiting(Exec(cfg, s, run), id) + Unborn(Exec(cfg, s, run), id)
         <= Retries(cfg, s, run, id) + Requeues(cfg, s, run, id) + Waiting(s, id) + Unborn(s, id)
    decreases |run|
  {
    if run == [] {
    } else {
      ClaimsArePaidFor(cfg, Apply(cfg, s, run[0]), run[1..], id);
    }
  }

  /** From an empty table: claims plus a READY row never exceed the returns plus one. */
  lemma AtMostOneRunPerReturn(cfg: Config, run: seq<Action>, id: TaskId)
    requires Valid(cfg, Init(), run)
    ensures Claims(cfg, Init(), run, id) + Waiting(Exec(cfg, Init(), run), id)
         <= Retries(cfg, Init(), run, id) + Requeues(cfg, Init(), run, id) + 1
  {
    ClaimsArePaidFor(cfg, Init(), run, id);
  }

  /** Any number of workers holding one READY row: without a return, one of them runs it. */
  lemma OneWinner(cfg: Config, s: State, run: seq<Action>, id: TaskId)
    requires Valid(cfg, s, run) && StillReady(s, id) && id in s.known
    requires Retries(cfg, s, run, id) == Requeues(cfg, s, run, id) == 0
    ensures Claims(cfg, s, run, id) <= 1
    ensures Claims(cfg, s, run, id) == 1 ==> !StillReady(Exec(cfg, s, run), id)
  {
    ClaimsArePaidFor(cfg, s, run, id);
  }
}
