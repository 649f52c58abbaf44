/** What the supervisor reports about its workers as a whole, and what it takes for a report to be true. */
module Reports {
  import opened Options
  import opened Backoff
  import opened Slots

  datatype Report =
    | EveryWorkerFailing(workers: nat, at: real)
    | WorkersRecovered(index: nat, at: real)

  /** Every slot not asked to stop is failing, and there is one. */
  ghost predicate AllFailing(slots: seq<Slot>, p: Policy, now: real) {
    && (exists i :: 0 <= i < |slots| && !slots[i].retiring)
    && (forall i :: 0 <= i < |slots| && !slots[i].retiring ==> slots[i].Failing(p, now))
  }

  /** The slot of that index ended the time of failure that began at since; it had a process before. */
  ghost predicate Recovered(slots: seq<Slot>, p: Policy, now: real, since: real, index: nat) {
    exists i :: 0 <= i < |slots| && slots[i].Recovers(p, now, since) && slots[i].pid.Some? && slots[i].index == index
  }

  /** The index of the first slot that ended the time of failure that began at since. */
  function FirstRecovered(slots: seq<Slot>, p: Policy, now: real, since: real): Option<nat> {
    if slots == [] then None
    else if slots[0].Recovers(p, now, since) then Some(slots[0].index)
    else FirstRecovered(slots[1..], p, now, since)
  }

  lemma {:induction false} FirstRecoveredIs(slots: seq<Slot>, p: Policy, now: real, since: real)
    requires forall w :: w in slots ==> w.HadProcess()
    ensures var first := FirstRecovered(slots, p, now, since);
      if first.Some? then Recovered(slots, p, now, since, first.value)
      else forall i :: 0 <= i < |slots| ==> !slots[i].Recovers(p, now, since)
  {
    if slots == [] {
    } else {
      if slots[0].Recovers(p, now, since) {
        assert slots[0].HadProcess();
      } else {
        var rest := slots[1..];
        assert forall w :: w in rest ==> w in slots;
        FirstRecoveredIs(rest, p, now, since);
        var first := FirstRecovered(rest, p, now, since);
        if first.Some? {
          var index := first.value;
          var i :| 0 <= i < |rest| && rest[i].Recovers(p, now, since) && rest[i].pid.Some? && rest[i].index == index;
          assert slots[i + 1] == rest[i];
        }
        assert forall i :: 0 < i < |slots| ==> slots[i] == rest[i - 1];
      }
    }
  }

  /** What there is to report of slots that fail since then, or do not. */
  ghost function News(since: Option<real>, slots: seq<Slot>, p: Policy, now: real): seq<Report> {
    match since
    case None => if AllFailing(slots, p, now) then [EveryWorkerFailing(Count(slots).active, now)] else []
    case Some(since) =>
      var first := FirstRecovered(slots, p, now, since);
      if first.Some? then [WorkersRecovered(first.value, now)] else []
  }

  /**
   A failure is reported exactly when there is a slot to keep and each of them
   failed to start and has not run long enough since.
   */
  lemma FailureIsNews(slots: seq<Slot>, p: Policy, now: real)
    ensures
      if (exists w :: w in slots && !w.retiring)
         && forall w :: w in slots && !w.retiring ==>
              w.failures > 0 && !(w.running && now - w.startedAt >= p.stableAfter)
      then News(None, slots, p, now) == [EveryWorkerFailing(|set i | 0 <= i < |slots| && !slots[i].retiring|, now)]
      else News(None, slots, p, now) == []
  {
    ActiveIs(slots);
    assert forall i :: 0 <= i < |slots| ==> slots[i] in slots;
  }

  /**
   A recovery is reported exactly when a slot to keep has run long enough, or
   exited cleanly since; of the first such slot.
   */
  lemma {:induction false} RecoveryIsNews(slots: seq<Slot>, p: Policy, now: real, since: real)
    ensures
      if exists i :: 0 <= i < |slots| && !slots[i].retiring
           && ((slots[i].running && now - slots[i].startedAt >= p.stableAfter)
               || (slots[i].cleanExitAt.Some? && slots[i].cleanExitAt.value >= since))
      then
        exists i :: 0 <= i < |slots| && !slots[i].retiring
          && ((slots[i].running && now - slots[i].startedAt >= p.stableAfter)
              || (slots[i].cleanExitAt.Some? && slots[i].cleanExitAt.value >= since))
          && News(Some(since), slots, p, now) == [WorkersRecovered(slots[i].index, now)]
          && forall j :: 0 <= j < i && !slots[j].retiring ==>
               && !(slots[j].running && now - slots[j].startedAt >= p.stableAfter)
               && !(slots[j].cleanExitAt.Some? && slots[j].cleanExitAt.value >= since)
      else News(Some(since), slots, p, now) == []
  {
    if slots == [] || slots[0].Recovers(p, now, since) {
    } else {
      var rest := slots[1..];
      RecoveryIsNews(rest, p, now, since);
      assert forall i :: 0 < i < |slots| ==> slots[i] == rest[i - 1];
      if exists i :: 0 <= i < |rest| && rest[i].Recovers(p, now, since) {
        var i :| 0 <= i < |rest| && rest[i].Recovers(p, now, since)
                 && News(Some(since), rest, p, now) == [WorkersRecovered(rest[i].index, now)]
                 && forall j :: 0 <= j < i ==> !rest[j].Recovers(p, now, since);
        assert slots[i + 1] == rest[i];
        assert forall j :: 0 < j < i + 1 ==> slots[j] == rest[j - 1];
      }
    }
  }

  /** When the failure that was reported last and is not over yet began. */
  function FailingSince(reports: seq<Report>): Option<real> {
    if |reports| % 2 == 1 then Some(reports[|reports| - 1].at) else None
  }

  /** What a look at the slots adds to the reports. */
  lemma NewsInFields(was: seq<Report>, reports: seq<Report>, slots: seq<Slot>, p: Policy, now: real)
    requires reports == was + News(FailingSince(was), slots, p, now)
    ensures |was| % 2 == 0 ==>
      if (exists w :: w in slots && !w.retiring)
         && forall w :: w in slots && !w.retiring ==>
              w.failures > 0 && !(w.running && now - w.startedAt >= p.stableAfter)
      then
        var n := |set i | 0 <= i < |slots| && !slots[i].retiring|;
        reports == was + [EveryWorkerFailing(n, now)]
      else reports == was
    ensures |was| % 2 == 1 ==>
      var since := was[|was| - 1].at;
      if exists i :: 0 <= i < |slots| && !slots[i].retiring
           && ((slots[i].running && now - slots[i].startedAt >= p.stableAfter)
               || (slots[i].cleanExitAt.Some? && slots[i].cleanExitAt.value >= since))
      then
        exists i :: 0 <= i < |slots| && !slots[i].retiring
          && ((slots[i].running && now - slots[i].startedAt >= p.stableAfter)
              || (slots[i].cleanExitAt.Some? && slots[i].cleanExitAt.value >= since))
          && reports == was + [WorkersRecovered(slots[i].index, now)]
      else reports == was
  {
    hide News;
    assert was + [] == was;
    if |was| % 2 == 0 {
      FailureIsNews(slots, p, now);
    } else {
      RecoveryIsNews(slots, p, now, was[|was| - 1].at);
    }
  }

  /** The report is true of the slots as they were, and a recovery is from the failure reported before it. */
  ghost predicate IsTrue(earlier: seq<Report>, report: Report, slots: seq<Slot>, p: Policy) {
    match report
    case EveryWorkerFailing(workers, at) =>
      |earlier| % 2 == 0 && workers == Count(slots).active && AllFailing(slots, p, at)
    case WorkersRecovered(index, at) =>
      |earlier| % 2 == 1 && Recovered(slots, p, at, earlier[|earlier| - 1].at, index)
  }

  /** Each report is true of what was seen when it was made. */
  ghost predicate AllTrue(reports: seq<Report>, seen: seq<seq<Slot>>, p: Policy) {
    && |reports| == |seen|
    && (reports != [] ==>
          var n := |reports| - 1;
          IsTrue(reports[..n], reports[n], seen[n], p) && AllTrue(reports[..n], seen[..n], p))
  }

  lemma NewsIsTrue(reports: seq<Report>, seen: seq<seq<Slot>>, p: Policy, slots: seq<Slot>, now: real)
    requires AllTrue(reports, seen, p)
    requires forall w :: w in slots ==> w.HadProcess()
    ensures var news := News(FailingSince(reports), slots, p, now);
      AllTrue(reports + news, if news == [] then seen else seen + [slots], p)
  {
    var since, news := FailingSince(reports), News(FailingSince(reports), slots, p, now);
    if since.Some? {
      FirstRecoveredIs(slots, p, now, since.value);
    }
    if news == [] {
      assert reports + news == reports;
    } else {
      assert (reports + news)[..|reports|] == reports && (seen + [slots])[..|seen|] == seen;
      assert IsTrue(reports, news[0], slots, p);
    }
  }

  /**
   Failures and recoveries alternate, a failure first. Each failure is one of
   all slots to keep: none has a process that ran long enough since its last
   failed start. Each recovery names a slot with a process that did, or that
   exited with code 0 no sooner than the failure before.
   */
  lemma {:induction false} ReportsAreTrue(reports: seq<Report>, seen: seq<seq<Slot>>, p: Policy, i: nat)
    requires AllTrue(reports, seen, p) && i < |reports|
    ensures reports[i].EveryWorkerFailing? <==> i % 2 == 0
    ensures reports[i].EveryWorkerFailing? ==>
      && reports[i].workers == |set j | 0 <= j < |seen[i]| && !seen[i][j].retiring| > 0
      && forall w :: w in seen[i] && !w.retiring ==>
           w.failures > 0 && !(w.running && reports[i].at - w.startedAt >= p.stableAfter)
    ensures reports[i].WorkersRecovered? ==>
      && i > 0
      && exists w :: w in seen[i] && !w.retiring && w.index == reports[i].index && w.pid.Some?
           && ((w.running && reports[i].at - w.startedAt >= p.stableAfter)
               || (w.cleanExitAt.Some? && w.cleanExitAt.value >= reports[i - 1].at))
    decreases |reports|
  {
    var n := |reports| - 1;
    if i == n {
      ActiveIs(seen[n]);
      SomeActive(seen[n]);
      if reports[n].WorkersRecovered? {
        var at, since := reports[n].at, reports[n - 1].at;
        var j :| 0 <= j < |seen[n]| && seen[n][j].Recovers(p, at, since) && seen[n][j].pid.Some?
                 && seen[n][j].index == reports[n].index;
        assert seen[n][j] in seen[n];
      }
    } else {
      ReportsAreTrue(reports[..n], seen[..n], p, i);
    }
  }
}
