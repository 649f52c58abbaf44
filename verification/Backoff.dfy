/** The delays between the restarts of a worker that fails to start. */
module Backoff {

  /** stableAfter, backoffStart and backoffMax of a supervisor. */
  datatype Policy = Policy(stableAfter: real, start: real, max: real)

  /** One run of a slot's process that was followed by a scheduled restart. */
  datatype Exit = Exit(startedAt: real, exitedAt: real, code: int, delay: real)

  /** The runs of a slot so far, the latest outermost. */
  datatype Runs = NoRuns | Then(earlier: Runs, last: Exit)

  function Min(a: real, b: real): real {
    if a <= b then a else b
  }

  function Doubled(x: real, n: nat): real {
    if n == 0 then x else 2.0 * Doubled(x, n - 1)
  }

  /** The delay after so many consecutive failures to start. */
  function Delay(p: Policy, failures: nat): real {
    if failures == 0 then 0.0 else Min(Doubled(p.start, failures - 1), p.max)
  }

  /** The run failed to start: a nonzero code, too soon. */
  predicate Early(p: Policy, e: Exit) {
    e.code != 0 && e.exitedAt - e.startedAt < p.stableAfter
  }

  /** How many runs in a row failed to start, up to the last. */
  function Trailing(p: Policy, h: Runs): nat {
    match h
    case NoRuns => 0
    case Then(earlier, last) => if Early(p, last) then Trailing(p, earlier) + 1 else 0
  }

  /** When the restart that follows the last run is due. */
  function Due(h: Runs): real
    requires h.Then?
  {
    h.last.exitedAt + h.last.delay
  }

  /** Each run ends after it started, is followed by the delay its failures call for, and the next waits for it. */
  predicate WellTimed(p: Policy, h: Runs) {
    match h
    case NoRuns => true
    case Then(earlier, last) =>
      && WellTimed(p, earlier)
      && last.startedAt <= last.exitedAt
      && last.delay == Delay(p, Trailing(p, h))
      && (earlier.Then? ==> last.startedAt >= Due(earlier))
  }

  lemma {:induction false} DoubledGrows(x: real, n: nat)
    requires x >= 0.0
    ensures 0.0 <= x <= Doubled(x, n) <= Doubled(x, n + 1)
  {
    if n == 0 {
    } else {
      DoubledGrows(x, n - 1);
    }
  }

  /** The first delay is the policy's, and each failure more doubles it, up to the maximum. */
  lemma {:induction false} DelayDoubles(p: Policy, n: nat)
    requires p.start >= 0.0 && p.max >= 0.0 && n >= 1
    ensures Delay(p, 1) == (if p.start <= p.max then p.start else p.max)
    ensures Delay(p, n + 1) == if 2.0 * Delay(p, n) <= p.max then 2.0 * Delay(p, n) else p.max
  {
    DoubledGrows(p.start, n - 1);
  }

  /** Delays never shrink while the failures go on, and never pass the maximum. */
  lemma {:induction false} DelayGrows(p: Policy, m: nat, n: nat)
    requires p.start >= 0.0 && p.max >= 0.0 && m <= n
    ensures 0.0 <= Delay(p, m) <= Delay(p, n) <= p.max || (m == 0 && 0.0 <= Delay(p, n) <= p.max)
    decreases n - m
  {
    if m < n {
      DelayGrows(p, m, n - 1);
      DoubledGrows(p.start, n - 1);
      if n >= 2 {
        DoubledGrows(p.start, n - 2);
      }
    } else if n > 0 {
      DoubledGrows(p.start, n - 1);
    }
  }

  /** The sum of the delays after 1, 2, ..., n failures. */
  function DelaySum(p: Policy, n: nat): real {
    if n == 0 then 0.0 else DelaySum(p, n - 1) + Delay(p, n)
  }

  /** When the n-th last run started. */
  function StartOf(p: Policy, h: Runs, n: nat): real
    requires 1 <= n <= Trailing(p, h)
  {
    if n == 1 then h.last.startedAt else StartOf(p, h.earlier, n - 1)
  }

  /**
   n failures to start in a row, with their restarts, take at least the sum of
   the first n delays: from the start of the first to the next restart.
   */
  lemma {:induction false} FailuresTakeTime(p: Policy, h: Runs, n: nat)
    requires p.start >= 0.0 && p.max >= 0.0 && WellTimed(p, h) && 1 <= n <= Trailing(p, h)
    ensures Due(h) - StartOf(p, h, n) >= DelaySum(p, n)
    decreases n
  {
    DelayGrows(p, n, Trailing(p, h));
    if n == 1 {
    } else {
      FailuresTakeTime(p, h.earlier, n - 1);
    }
  }

  /** The package's defaults: 10 seconds to be stable, delays from 1 second up to 30. */
  const DEFAULT_POLICY := Policy(10.0, 1.0, 30.0)

  /** From the sixth failure on, every restart waits the full 30 seconds. */
  lemma {:induction false} DefaultDelaySum(n: nat)
    requires n >= 5
    ensures DelaySum(DEFAULT_POLICY, n) == 31.0 + 30.0 * (n - 5) as real
  {
    var p := DEFAULT_POLICY;
    if n == 5 {
      assert Doubled(1.0, 1) == 2.0;
      assert Doubled(1.0, 2) == 4.0;
      assert Doubled(1.0, 3) == 8.0;
      assert Doubled(1.0, 4) == 16.0;
      assert DelaySum(p, 1) == 1.0;
      assert DelaySum(p, 2) == 3.0;
      assert DelaySum(p, 3) == 7.0;
      assert DelaySum(p, 4) == 15.0;
    } else {
      DefaultDelaySum(n - 1);
      AtLeast32(n - 1);
      assert Delay(p, n) == 30.0;
    }
  }

  lemma {:induction false} AtLeast32(n: nat)
    requires n >= 5
    ensures Doubled(1.0, n) >= 32.0
  {
    if n == 5 {
      assert Doubled(1.0, 1) == 2.0;
      assert Doubled(1.0, 3) == 8.0;
    } else {
      AtLeast32(n - 1);
    }
  }
}
