/**
 The slots of a supervisor, one for each process it keeps.

 What holds of all slots is defined slot by slot, from the last to the first,
 with a lemma for each way the list changes.
 */
module Slots {
  import opened Options
  import opened Backoff

  datatype Slot = Slot(
    index: nat,
    running: bool,
    startedAt: real,
    /** None while a process runs, and once the slot is done. */
    restartAt: Option<real>,
    failures: nat,
    retiring: bool,
    /** None until the first process is started. */
    pid: Option<int>,
    exitCode: Option<int>,
    restartAfterAbnormal: bool,
    /** The last exit with code 0. */
    cleanExitAt: Option<real>,
    /** The runs so far that were followed by a scheduled restart. */
    runs: Runs
  ) {
    /** What holds of a slot at all times. */
    predicate Sound(p: Policy, clock: real) {
      && (running ==> restartAt.None? && pid.Some? && startedAt <= clock)
      && (pid.None? ==> restartAt.Some?)
      && (cleanExitAt.Some? || failures > 0 ==> pid.Some?)
      && failures == Trailing(p, runs)
      && WellTimed(p, runs)
      && (runs.Then? && running ==> startedAt >= Due(runs))
      && (runs.Then? && restartAt.Some? ==> restartAt.value == Due(runs))
    }

    /** Only a slot with a process can come to run or to exit. */
    predicate HadProcess() {
      running || cleanExitAt.Some? ==> pid.Some?
    }

    predicate Stable(p: Policy, now: real) {
      running && now - startedAt >= p.stableAfter
    }

    predicate Failing(p: Policy, now: real) {
      failures > 0 && !Stable(p, now)
    }

    /** What ends a time of failure that began at since. */
    predicate Recovers(p: Policy, now: real, since: real) {
      !retiring && (Stable(p, now) || (cleanExitAt.Some? && cleanExitAt.value >= since))
    }

    predicate Tended() {
      if retiring then running else running || restartAt.Some?
    }
  }

  /** How many slots have a process, and how many are not asked to stop. */
  datatype Tally = Tally(running: nat, active: nat)

  function Count(slots: seq<Slot>): Tally {
    if slots == [] then Tally(0, 0) else
    var rest, last := Count(slots[..|slots| - 1]), slots[|slots| - 1];
    Tally(rest.running + (if last.running then 1 else 0), rest.active + if last.retiring then 0 else 1)
  }

  lemma {:induction false} CountConcat(a: seq<Slot>, b: seq<Slot>)
    ensures Count(a + b) == Tally(Count(a).running + Count(b).running, Count(a).active + Count(b).active)
    decreases |b|
  {
    if b == [] {
      assert a + b == a;
    } else {
      assert (a + b)[..|a + b| - 1] == a + b[..|b| - 1];
      CountConcat(a, b[..|b| - 1]);
    }
  }

  /** Taking slot i out, and putting another in its place. */
  lemma CountReplace(slots: seq<Slot>, i: nat, slot: Slot)
    requires i < |slots|
    ensures var rest, was := Count(Without(slots, i)), slots[i];
      && Count(slots).running == rest.running + (if was.running then 1 else 0)
      && Count(slots).active == rest.active + (if was.retiring then 0 else 1)
      && Count(slots[i := slot]).running == rest.running + (if slot.running then 1 else 0)
      && Count(slots[i := slot]).active == rest.active + if slot.retiring then 0 else 1
  {
    var a, b := slots[..i], slots[i + 1..];
    CountConcat(a, b);
    assert slots == a + [slots[i]] + b && slots[i := slot] == a + [slot] + b;
    CountConcat(a + [slots[i]], b);
    CountConcat(a, [slots[i]]);
    CountConcat(a + [slot], b);
    CountConcat(a, [slot]);
  }

  /** As many as there are places in the list. */
  lemma {:induction false} ActiveIs(slots: seq<Slot>)
    ensures Count(slots).active == |set i | 0 <= i < |slots| && !slots[i].retiring|
  {
    if slots == [] {
    } else {
      var n := |slots| - 1;
      var init := slots[..n];
      ActiveIs(init);
      var earlier := set i | 0 <= i < n && !init[i].retiring;
      var all := set i | 0 <= i < |slots| && !slots[i].retiring;
      assert all == earlier + if slots[n].retiring then {} else {n};
      assert n !in earlier;
    }
  }

  lemma {:induction false} NoneRunning(slots: seq<Slot>)
    ensures Count(slots).running == 0 <==> forall i :: 0 <= i < |slots| ==> !slots[i].running
  {
    if slots == [] {
    } else {
      NoneRunning(slots[..|slots| - 1]);
    }
  }

  lemma {:induction false} SomeActive(slots: seq<Slot>)
    ensures Count(slots).active > 0 <==> exists i :: 0 <= i < |slots| && !slots[i].retiring
  {
    if slots == [] {
    } else {
      SomeActive(slots[..|slots| - 1]);
    }
  }

  function Without(slots: seq<Slot>, i: nat): (rest: seq<Slot>)
    requires i < |slots|
    ensures |rest| == |slots| - 1
  {
    slots[..i] + slots[i + 1..]
  }

  /** The last slot not yet asked to stop. */
  predicate IsNewest(slots: seq<Slot>, i: int) {
    0 <= i < |slots| && !slots[i].retiring && forall j :: i < j < |slots| ==> slots[j].retiring
  }

  /** The indices of the slots with a process, in order. */
  function RunningIndices(slots: seq<Slot>): seq<nat> {
    if slots == [] then [] else RunningIndex(slots[0]) + RunningIndices(slots[1..])
  }

  function RunningIndex(slot: Slot): seq<nat> {
    if slot.running then [slot.index] else []
  }

  lemma {:induction false} RunningConcat(a: seq<Slot>, b: seq<Slot>)
    ensures RunningIndices(a + b) == RunningIndices(a) + RunningIndices(b)
    decreases |a|
  {
    if a == [] {
      assert a + b == b;
    } else {
      assert (a + b)[0] == a[0] && (a + b)[1..] == a[1..] + b;
      RunningConcat(a[1..], b);
      assert RunningIndex(a[0]) + (RunningIndices(a[1..]) + RunningIndices(b))
          == RunningIndex(a[0]) + RunningIndices(a[1..]) + RunningIndices(b);
    }
  }

  /** Those of all slots with a process, and no others, once each. */
  lemma {:induction false} RunningIndicesAre(slots: seq<Slot>)
    ensures forall index :: index in RunningIndices(slots) <==> exists w :: w in slots && w.running && w.index == index
    ensures |RunningIndices(slots)| == Count(slots).running
  {
    if slots == [] {
    } else {
      var rest := slots[1..];
      RunningIndicesAre(rest);
      assert slots == [slots[0]] + rest;
      CountConcat([slots[0]], rest);
      assert Count([slots[0]]).running == |RunningIndex(slots[0])|;
      assert forall w :: w in slots <==> w == slots[0] || w in rest;
    }
  }

  /** Slot i is the last of those up to it, and the first of those from it on. */
  lemma RunningAt(slots: seq<Slot>, i: nat)
    requires i < |slots|
    ensures RunningIndices(slots[..i + 1]) == RunningIndices(slots[..i]) + RunningIndex(slots[i])
    ensures RunningIndices(slots[i..]) == RunningIndex(slots[i]) + RunningIndices(slots[i + 1..])
  {
    assert slots[..i + 1] == slots[..i] + [slots[i]] && slots[i..] == [slots[i]] + slots[i + 1..];
    RunningConcat(slots[..i], [slots[i]]);
    RunningConcat([slots[i]], slots[i + 1..]);
    assert RunningIndices([slots[i]]) == RunningIndex(slots[i]);
  }

  lemma NoneBeforeOrAfter(slots: seq<Slot>)
    ensures slots[0..] == slots[..|slots|] == slots
    ensures RunningIndices(slots[..0]) == RunningIndices(slots[|slots|..]) == []
  {
  }

  /** Another slot in the place of slot i, or none. */
  lemma RunningReplace(slots: seq<Slot>, i: nat, slot: Slot)
    requires i < |slots| && slot.running == slots[i].running && slot.index == slots[i].index
    ensures RunningIndices(slots[i := slot]) == RunningIndices(slots)
    ensures !slot.running ==> RunningIndices(Without(slots, i)) == RunningIndices(slots)
  {
    var a, b := slots[..i], slots[i + 1..];
    assert slots == a + ([slots[i]] + b) && slots[i := slot] == a + ([slot] + b);
    RunningConcat(a, [slots[i]] + b);
    RunningConcat(a, [slot] + b);
    RunningConcat(a, b);
    assert ([slots[i]] + b)[1..] == b && ([slot] + b)[1..] == b;
  }

  /** Slot i was looked at, and kept in some state or dropped. */
  predicate LookedAt(was: seq<Slot>, slots: seq<Slot>, i: nat, kept: bool)
    requires i < |was|
  {
    if kept then |slots| == |was| && slots == was[i := slots[i]] else slots == Without(was, i)
  }

  /** What is left to look at, after the polls so far. */
  lemma PolledOne(was: seq<Slot>, slots: seq<Slot>, i: nat, kept: bool, polled: seq<nat>, polled': seq<nat>)
    requires i < |was| && LookedAt(was, slots, i, kept)
    requires polled' == if was[i].running then polled + [was[i].index] else polled
    ensures polled' + RunningIndices(slots[if kept then i + 1 else i..]) == polled + RunningIndices(was[i..])
  {
    RunningAt(was, i);
    assert slots[if kept then i + 1 else i..] == was[i + 1..];
  }

  /** And what of it was found alive. */
  lemma AliveSoFar(was: seq<Slot>, slots: seq<Slot>, i: nat, kept: bool, alive: seq<nat>, alive': seq<nat>,
                   start: seq<nat>)
    requires i < |was| && LookedAt(was, slots, i, kept) && alive == start + RunningIndices(was[..i])
    requires alive' == if kept && slots[i].running then alive + [slots[i].index] else alive
    ensures alive' == start + RunningIndices(slots[..if kept then i + 1 else i])
  {
    assert slots[..i] == was[..i];
    if kept {
      RunningAt(slots, i);
    }
  }

  /** The slots that were ever started, and those signalled one by one to retire. */
  datatype Marks = Marks(started: set<nat>, told: set<nat>)

  /** What the marks say of a slot. */
  predicate Marked(slot: Slot, marks: Marks) {
    (slot.pid.Some? <==> slot.index in marks.started) && (slot.retiring ==> slot.index in marks.told)
  }

  /** Each slot is sound, as marked, and of a greater index than those before it, all below the bound. */
  predicate Fit(slots: seq<Slot>, bound: nat, p: Policy, clock: real, marks: Marks) {
    slots != [] ==>
      var last := slots[|slots| - 1];
      && last.Sound(p, clock) && Marked(last, marks) && last.index < bound
      && Fit(slots[..|slots| - 1], last.index, p, clock, marks)
  }

  /** What it says of any two slots. */
  lemma {:induction false} FitMeans(slots: seq<Slot>, bound: nat, p: Policy, clock: real, marks: Marks, i: nat)
    requires Fit(slots, bound, p, clock, marks) && i < |slots|
    ensures slots[i].Sound(p, clock) && Marked(slots[i], marks) && slots[i].index < bound
    ensures forall j :: 0 <= j < i ==> slots[j].index < slots[i].index
    decreases |slots|
  {
    var init := slots[..|slots| - 1];
    if i < |init| {
      FitMeans(init, slots[|slots| - 1].index, p, clock, marks, i);
    } else {
      forall j | 0 <= j < i ensures slots[j].index < slots[i].index {
        FitMeans(init, slots[i].index, p, clock, marks, j);
      }
    }
  }

  lemma FitHadProcess(slots: seq<Slot>, bound: nat, p: Policy, clock: real, marks: Marks)
    requires Fit(slots, bound, p, clock, marks)
    ensures forall w :: w in slots ==> w.HadProcess()
  {
    forall w | w in slots ensures w.HadProcess() {
      var i :| 0 <= i < |slots| && slots[i] == w;
      FitMeans(slots, bound, p, clock, marks, i);
    }
  }

  /** Time passes, and more slots are added or marked: none of those here is started for the first time. */
  lemma {:induction false} FitLater(slots: seq<Slot>, bound: nat, p: Policy, clock: real, marks: Marks,
                                    higher: nat, later: real, more: Marks)
    requires Fit(slots, bound, p, clock, marks) && clock <= later && bound <= higher
    requires marks.told <= more.told && marks.started <= more.started
    requires forall i :: i in more.started && i !in marks.started ==> bound <= i
    ensures Fit(slots, higher, p, later, more)
  {
    if slots == [] {
    } else {
      var last := slots[|slots| - 1];
      FitLater(slots[..|slots| - 1], last.index, p, clock, marks, last.index, later, more);
    }
  }

  lemma FitAppend(slots: seq<Slot>, slot: Slot, p: Policy, clock: real, marks: Marks)
    requires Fit(slots, slot.index, p, clock, marks) && slot.Sound(p, clock) && Marked(slot, marks)
    ensures Fit(slots + [slot], slot.index + 1, p, clock, marks)
    ensures Count(slots + [slot]).running == Count(slots).running + if slot.running then 1 else 0
    ensures Count(slots + [slot]).active == Count(slots).active + if slot.retiring then 0 else 1
  {
    assert (slots + [slot])[..|slots|] == slots;
  }

  /** Another slot in the place of slot i, which may be started by that. */
  lemma {:induction false} FitReplace(slots: seq<Slot>, i: nat, slot: Slot, bound: nat, p: Policy, clock: real,
                                      marks: Marks)
    requires Fit(slots, bound, p, clock, marks) && i < |slots|
    requires slot.index == slots[i].index && slot.Sound(p, clock) && (slot.retiring ==> slot.index in marks.told)
    requires slots[i].pid.Some? ==> slot.pid.Some?
    ensures var more := marks.(started := marks.started + if slot.pid.Some? then {slot.index} else {});
            Fit(slots[i := slot], bound, p, clock, more)
    decreases |slots|
  {
    var init, last := slots[..|slots| - 1], slots[|slots| - 1];
    var more := marks.(started := marks.started + if slot.pid.Some? then {slot.index} else {});
    if i == |init| {
      assert slots[i := slot][..|slots| - 1] == init;
      FitLater(init, last.index, p, clock, marks, last.index, clock, more);
    } else {
      FitMeans(slots, bound, p, clock, marks, |init|);
      FitReplace(init, i, slot, last.index, p, clock, marks);
      assert slots[i := slot][..|slots| - 1] == init[i := slot];
    }
  }

  lemma {:induction false} FitWithout(slots: seq<Slot>, i: nat, bound: nat, p: Policy, clock: real, marks: Marks)
    requires Fit(slots, bound, p, clock, marks) && i < |slots|
    ensures Fit(Without(slots, i), bound, p, clock, marks)
    decreases |slots|
  {
    var init, last := slots[..|slots| - 1], slots[|slots| - 1];
    if i == |init| {
      assert Without(slots, i) == init;
      FitLater(init, last.index, p, clock, marks, bound, clock, marks);
    } else {
      FitWithout(init, i, last.index, p, clock, marks);
      var rest := Without(slots, i);
      assert rest[|rest| - 1] == last && rest[..|rest| - 1] == Without(init, i);
    }
  }

  /** Asking a slot to stop, or dropping it if it has no process. */
  lemma Retire(slots: seq<Slot>, i: nat, bound: nat, p: Policy, clock: real, marks: Marks)
    requires Fit(slots, bound, p, clock, marks) && i < |slots| && !slots[i].retiring
    ensures var w := slots[i].(retiring := true);
      var slots' := if w.running then slots[i := w] else Without(slots, i);
      && Fit(slots', bound, p, clock, if w.running then marks.(told := marks.told + {w.index}) else marks)
      && Count(slots').running == Count(slots).running && Count(slots').active + 1 == Count(slots).active
      && RunningIndices(slots') == RunningIndices(slots)
  {
    var w := slots[i].(retiring := true);
    CountReplace(slots, i, w);
    RunningReplace(slots, i, w);
    if w.running {
      var more := marks.(told := marks.told + {w.index});
      FitMeans(slots, bound, p, clock, marks, i);
      FitLater(slots, bound, p, clock, marks, bound, clock, more);
      FitReplace(slots, i, w, bound, p, clock, more);
      assert more.started + {w.index} == more.started;
    } else {
      FitWithout(slots, i, bound, p, clock, marks);
    }
  }

  /** No slot is left without a process and without a time to start one. */
  predicate AllTended(slots: seq<Slot>) {
    slots != [] ==> slots[|slots| - 1].Tended() && AllTended(slots[..|slots| - 1])
  }

  lemma {:induction false} AllTendedMeans(slots: seq<Slot>)
    ensures AllTended(slots) <==> forall i :: 0 <= i < |slots| ==> slots[i].Tended()
  {
    if slots == [] {
    } else {
      AllTendedMeans(slots[..|slots| - 1]);
    }
  }

  lemma AllTendedAppend(slots: seq<Slot>, slot: Slot)
    requires AllTended(slots) && slot.Tended()
    ensures AllTended(slots + [slot])
  {
    assert (slots + [slot])[..|slots|] == slots;
  }

  lemma AllTendedReplace(slots: seq<Slot>, i: nat, slot: Slot)
    requires AllTended(slots) && i < |slots|
    ensures AllTended(Without(slots, i))
    ensures slot.Tended() ==> AllTended(slots[i := slot])
  {
    AllTendedMeans(slots);
    AllTendedMeans(Without(slots, i));
    AllTendedMeans(slots[i := slot]);
  }

  /** Of any slot with a process: n failures in a row kept it waiting for the sum of n delays. */
  lemma FailingRestartsTakeTime(slot: Slot, p: Policy, clock: real, n: nat)
    requires p.start >= 0.0 && p.max >= 0.0 && slot.Sound(p, clock) && slot.running && 1 <= n <= slot.failures
    ensures slot.startedAt - StartOf(p, slot.runs, n) >= DelaySum(p, n)
    ensures p == DEFAULT_POLICY && n >= 5 ==>
      slot.startedAt - StartOf(p, slot.runs, n) >= 31.0 + 30.0 * (n - 5) as real
  {
    FailuresTakeTime(p, slot.runs, n);
    if p == DEFAULT_POLICY && n >= 5 {
      DefaultDelaySum(n);
    }
  }
}
