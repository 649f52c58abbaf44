/**
 The supervisor of several worker processes. Its children exit when they like
 with any code, time passes between any two statements, and a shutdown may be
 requested, more than once, at any moment.
 */
module Supervisor {
  import opened Options
  import opened Backoff
  import opened ExitCodes
  import opened Slots
  import opened Reports

  const SHUTDOWN_GRACE: real := 1.0
  const FORCED_EXIT_CODE: int := 1

  /** The clock, the requests to the supervisor and the processes. */
  class Environment {
    var clock: real
    var requests: nat
    /** How many more looks at the requests find the supervisor free to go on. */
    var patience: nat
    /** How many more times a request for more or fewer workers may come while others are being seen to. */
    var calls: nat
    /** All that was requested of those, on balance, and how often. */
    ghost var wanted: int
    ghost var arrivals: nat
    /** The slots whose processes were polled, those found alive, and the exit codes that were found. */
    ghost var polled: seq<nat>
    ghost var alive: seq<nat>
    ghost var found: seq<int>
    /** The slots whose processes were sent the signal to stop, and those that were killed. */
    ghost var signalled: seq<nat>
    ghost var killed: seq<nat>
    /** When a shutdown was first requested, and how often a process could not be started. */
    ghost var requestedAt: Option<real>
    ghost var startErrors: nat

    ghost predicate Dated()
      reads `clock, `requests, `requestedAt
    {
      (requests > 0 <==> requestedAt.Some?) && (requestedAt.Some? ==> requestedAt.value <= clock)
    }

    /** The first request stays the first. */
    twostate predicate StillFirst()
      reads `requestedAt
    {
      old(requestedAt).Some? ==> requestedAt == old(requestedAt)
    }

    /** Time and requests only grow, and patience only shrinks. */
    predicate Later(clock: real, requests: nat, patience: nat)
      reads this
    {
      this.clock >= clock && this.requests >= requests && this.patience <= patience
    }

    method Now() returns (t: real)
      modifies `clock
      ensures t == clock && clock >= old(clock)
    {
      var later: real := *;
      if later > clock {
        clock := later;
      }
      t := clock;
    }

    /** Whether a shutdown was requested. Requests are never taken back. */
    method IsSet() returns (stop: bool)
      requires Dated()
      modifies `requests, `requestedAt, `patience
      ensures Dated() && StillFirst()
      ensures stop == (requests > 0) && requests >= old(requests) && patience <= old(patience)
      ensures !stop ==> patience < old(patience)
    {
      var more: nat :| 0 <= more;
      requests := requests + more;
      if patience == 0 {
        requests := requests + 1;
      } else {
        patience := patience - 1;
      }
      Date();
      stop := requests > 0;
    }

    /** Whether it was requested again. */
    method IsSetAgain() returns (again: bool)
      requires Dated()
      modifies `requests, `requestedAt, `patience
      ensures Dated() && StillFirst()
      ensures again == (requests > 1) && requests >= old(requests) && patience <= old(patience)
      ensures !again ==> patience < old(patience)
    {
      var more: nat :| 0 <= more;
      requests := requests + more;
      if patience == 0 {
        requests := requests + 2;
      } else {
        patience := patience - 1;
      }
      Date();
      again := requests > 1;
    }

    /** A shutdown is requested. */
    method Request()
      requires Dated()
      modifies `requests, `requestedAt
      ensures Dated() && StillFirst()
      ensures requests == old(requests) + 1
    {
      requests := requests + 1;
      Date();
    }

    ghost method Date()
      modifies `requestedAt
      ensures requestedAt == if old(requestedAt).None? && requests > 0 then Some(clock) else old(requestedAt)
    {
      if requestedAt.None? && requests > 0 {
        requestedAt := Some(clock);
      }
    }

    /** The pid of a process that is started; None if that raises. */
    method Start() returns (pid: Option<int>)
      modifies `startErrors
      ensures startErrors == old(startErrors) + if pid.None? then 1 else 0
    {
      pid := *;
      startErrors := startErrors + if pid.None? then 1 else 0;
    }

    /** How many more workers are asked for since the last time; fewer, if negative. */
    method Arrive() returns (net: int)
      modifies `calls, `wanted, `arrivals
      ensures arrivals == old(arrivals) + (if net == 0 then 0 else 1) && wanted == old(wanted) + net
      ensures calls <= old(calls) && (net != 0 ==> calls < old(calls))
    {
      net := *;
      if calls == 0 {
        net := 0;
      }
      if net != 0 {
        calls := calls - 1;
        wanted, arrivals := wanted + net, arrivals + 1;
      }
    }

    /** The exit code of a slot's process, if it has exited by now. */
    method Poll(index: nat) returns (code: Option<int>)
      modifies `polled, `alive, `found
      ensures polled == old(polled) + [index]
      ensures alive == old(alive) + if code.Some? then [] else [index]
      ensures found == old(found) + if code.Some? then [code.value] else []
    {
      code := *;
      polled := polled + [index];
      alive := alive + if code.Some? then [] else [index];
      found := found + if code.Some? then [code.value] else [];
    }

    method Signal(index: nat)
      modifies `signalled
      ensures signalled == old(signalled) + [index]
    {
      signalled := signalled + [index];
    }

    method Kill(index: nat)
      modifies `killed
      ensures killed == old(killed) + [index]
    {
      killed := killed + [index];
    }

    /** The exit code of a process that was killed. */
    method Wait(index: nat) returns (code: int)
      modifies `found
      ensures found == old(found) + [code]
    {
      code := *;
      found := found + [code];
    }
  }

  class WorkerSupervisor {
    const size: nat
    const restart: bool
    const graceful: bool
    const shutdownTimeout: real
    const emptyCode: int
    const failedCode: int
    const policy: Policy
    const env: Environment

    var workers: seq<Slot>
    var nextIndex: nat
    var exitCodes: seq<int>
    var forced: bool
    var pendingScale: int
    var restarts: nat
    var abnormalRestarts: nat
    var failingSince: Option<real>
    /** The processes started, the marks on their slots, and how each that ended did. */
    ghost var spawns: nat
    ghost var marks: Marks
    ghost var exits: seq<Ended>
    /** How often the last worker was to be removed, and was not. */
    ghost var refused: nat
    /** The reports made, and the slots as they were seen for each. */
    ghost var reports: seq<Report>
    ghost var seen: seq<seq<Slot>>
    /** The slots as they were when last looked at for failures, and when that was. */
    ghost var checked: seq<Slot>
    ghost var checkedAt: real

    /**
     Every process started is running or has its exit recorded, and every start
     of one was a restart or the first of its slot. A process counts as asked
     to stop only if its slot was told to retire, or a shutdown came before.
     */
    ghost predicate Accounted()
      reads `workers, `spawns, `marks, `exits, `exitCodes, `restarts, `abnormalRestarts, env`requestedAt
    {
      && exitCodes == RecordedCodes(exits)
      && AllHadReason(exits, marks.told, env.requestedAt)
      && spawns == |exits| + Count(workers).running
      && spawns == restarts + |marks.started|
      && abnormalRestarts <= restarts
    }

    /** Every report made was true, and the last one says how things stand. */
    ghost predicate Reported()
      reads `reports, `seen, `failingSince
    {
      && AllTrue(reports, seen, policy)
      && failingSince == FailingSince(reports)
    }

    /** Valid, but for what was found of the processes. */
    ghost predicate Kept()
      reads `workers, `nextIndex, `marks, `spawns, `exits, `exitCodes, `restarts, `abnormalRestarts
      reads `reports, `seen, `failingSince, env`clock, env`requests, env`requestedAt
    {
      && Fit(workers, nextIndex, policy, env.clock, marks)
      && (forall i :: i in marks.started ==> i < nextIndex)
      && Accounted()
      && Reported()
      && env.Dated()
    }

    /** Every exit that was found is on record. */
    ghost predicate Valid()
      reads `workers, `nextIndex, `marks, `spawns, `exits, `exitCodes, `restarts, `abnormalRestarts
      reads `reports, `seen, `failingSince, env`clock, env`requests, env`requestedAt, env`found
    {
      Kept() && env.found == FoundCodes(exits)
    }

    /**
     There is a slot to keep. In restart mode, while no shutdown is requested,
     every slot is running, or due if it is not asked to stop.
     */
    ghost predicate Tended()
      reads `workers, env`requests
    {
      Count(workers).active >= 1 && (restart && env.requests == 0 ==> AllTended(workers))
    }

    /** The slots to keep are those begun with and those requested, but for what is pending and what was refused. */
    ghost predicate Scaled()
      reads `workers, `pendingScale, `refused, env`wanted
    {
      Count(workers).active + pendingScale == size + env.wanted + refused
    }

    constructor (size: nat, restart: bool, graceful: bool, shutdownTimeout: real, emptyCode: int, failedCode: int,
                 policy: Policy, env: Environment)
      requires size >= 1 && env.found == [] && env.wanted == 0 && env.Dated()
      ensures Valid() && workers == [] && spawns == 0 && exits == [] && reports == [] && !forced
      ensures pendingScale == env.wanted + refused
      ensures this.size == size && this.restart == restart && this.env == env
    {
      this.size, this.restart, this.graceful, this.shutdownTimeout := size, restart, graceful, shutdownTimeout;
      this.emptyCode, this.failedCode, this.policy, this.env := emptyCode, failedCode, policy, env;
      workers, nextIndex, exitCodes, forced, pendingScale := [], 1, [], false, 0;
      restarts, abnormalRestarts, failingSince := 0, 0, None;
      spawns, marks, exits, refused := 0, Marks({}, {}), [], 0;
      reports, seen, checked := [], [], [];
    }

    /** Reads the clock. The slots are no worse for being older. */
    method LookAtClock() returns (now: real)
      requires Valid()
      modifies env`clock
      ensures Valid() && now == env.clock && env.clock >= old(env.clock)
    {
      now := env.Now();
      FitLater(workers, nextIndex, policy, old(env.clock), marks, nextIndex, now, marks);
    }

    /** Whether a shutdown was requested: then no slot has to be tended any more. */
    method SetByNow() returns (stop: bool)
      requires Kept()
      modifies env`requests, env`requestedAt, env`patience
      ensures Kept() && (old(Tended()) ==> Tended())
      ensures stop == (env.requests > 0) && env.requests >= old(env.requests) && env.patience <= old(env.patience)
      ensures !stop ==> env.patience < old(env.patience)
    {
      hide Fit, Reported, Count, FoundCodes, RecordedCodes, AllHadReason, AllTended;
      stop := env.IsSet();
      AllHadReasonStill(exits, marks.told, old(env.requestedAt), marks.told, env.requestedAt);
    }

    method LookForShutdown() returns (stop: bool)
      requires Valid()
      modifies env`requests, env`requestedAt, env`patience
      ensures Valid() && (old(Tended()) ==> Tended())
      ensures stop == (env.requests > 0) && env.requests >= old(env.requests) && env.patience <= old(env.patience)
      ensures !stop ==> env.patience < old(env.patience)
    {
      hide Kept, AllTended;
      stop := SetByNow();
    }

    /** A shutdown the supervisor requests itself. */
    method RequestShutdown()
      requires Valid()
      modifies env`requests, env`requestedAt
      ensures Valid() && env.requests == old(env.requests) + 1
    {
      env.Request();
      AllHadReasonStill(exits, marks.told, old(env.requestedAt), marks.told, env.requestedAt);
    }

    method LookForAnother() returns (again: bool)
      requires Valid()
      modifies env`requests, env`requestedAt, env`patience
      ensures Valid()
      ensures again == (env.requests > 1) && env.requests >= old(env.requests) && env.patience <= old(env.patience)
      ensures !again ==> env.patience < old(env.patience)
    {
      hide Fit, Reported, Count, FoundCodes, RecordedCodes, AllHadReason, AllTended;
      again := env.IsSetAgain();
      AllHadReasonStill(exits, marks.told, old(env.requestedAt), marks.told, env.requestedAt);
    }

    /** One more slot, due at once. */
    method AddSlot() returns (slot: Slot)
      requires Valid()
      modifies `workers, `nextIndex, env`clock
      ensures Valid() && env.clock >= old(env.clock)
      ensures RunningIndices(workers) == old(RunningIndices(workers))
      ensures workers == old(workers) + [slot] && nextIndex == old(nextIndex) + 1
      ensures slot.index == old(nextIndex) && !slot.running && !slot.retiring && slot.pid.None?
      ensures slot.restartAt == Some(env.clock)
      ensures Count(workers).active == old(Count(workers).active) + 1
    {
      hide Fit, Count, FoundCodes, RecordedCodes, AllHadReason, Reported;
      var now := LookAtClock();
      slot := Slot(nextIndex, false, 0.0, Some(now), 0, false, None, None, false, None, NoRuns);
      FitAppend(workers, slot, policy, now, marks);
      RunningConcat(workers, [slot]);
      nextIndex := nextIndex + 1;
      workers := workers + [slot];
    }

    /** Counts the start of a process: the slot's first, or a restart. */
    method CountStart(w: Slot)
      requires abnormalRestarts <= restarts && Marked(w, marks) && spawns == restarts + |marks.started|
      modifies `restarts, `abnormalRestarts, `spawns, `marks
      ensures spawns == old(spawns) + 1 == restarts + |marks.started| && abnormalRestarts <= restarts
      ensures marks == old(marks).(started := old(marks).started + {w.index})
      ensures restarts == old(restarts) + if w.pid.Some? then 1 else 0
      ensures abnormalRestarts == old(abnormalRestarts) + if w.pid.Some? && w.restartAfterAbnormal then 1 else 0
    {
      spawns := spawns + 1;
      marks := marks.(started := marks.started + {w.index});
      if w.pid.Some? {
        assert marks.started == old(marks).started;
        restarts := restarts + 1;
        if w.restartAfterAbnormal {
          abnormalRestarts := abnormalRestarts + 1;
        }
      }
    }

    /** Starts the slot's process; false when that raises, and then nothing changes. */
    method Spawn(i: nat) returns (ok: bool)
      requires Valid() && i < |workers| && !workers[i].running
      requires workers[i].restartAt.Some? && workers[i].restartAt.value <= env.clock
      modifies `workers, `restarts, `abnormalRestarts, `spawns, `marks, env`clock, env`startErrors
      ensures Valid() && env.clock >= old(env.clock)
      ensures env.startErrors == old(env.startErrors) + if ok then 0 else 1
      ensures !ok ==> workers == old(workers) && spawns == old(spawns) && restarts == old(restarts)
      ensures ok ==>
        var was := old(workers)[i];
        && |workers| == |old(workers)| && workers[i].pid.Some?
        && workers == old(workers)[i :=
             was.(running := true, pid := workers[i].pid, startedAt := env.clock, restartAt := None)]
        && spawns == old(spawns) + 1
        && restarts == old(restarts) + (if was.pid.Some? then 1 else 0)
        && abnormalRestarts == old(abnormalRestarts) + if was.pid.Some? && was.restartAfterAbnormal then 1 else 0
      ensures Count(workers).active == old(Count(workers).active)
    {
      hide Trailing, WellTimed, Due, Fit, AllTrue, FailingSince, Count, FoundCodes, RecordedCodes, AllHadReason;
      var pid := env.Start();
      if pid.None? {
        return false;
      }
      ok := true;
      var now := LookAtClock();
      var w := workers[i].(running := true, pid := pid, startedAt := now, restartAt := None);
      FitMeans(workers, nextIndex, policy, now, marks, i);
      FitReplace(workers, i, w, nextIndex, policy, now, marks);
      CountReplace(workers, i, w);
      CountStart(workers[i]);
      workers := workers[i := w];
    }

    /** Starts every slot that is due. */
    method StartDue() returns (ok: bool)
      requires Valid() && Tended()
      modifies `workers, `restarts, `abnormalRestarts, `spawns, `marks, env`clock, env`startErrors
      ensures Valid() && Tended() && env.clock >= old(env.clock)
      ensures env.startErrors == old(env.startErrors) + if ok then 0 else 1
      ensures Count(workers).active == old(Count(workers).active) && |workers| == |old(workers)|
      ensures ok ==> forall i :: 0 <= i < |workers| ==>
        workers[i].running || workers[i].restartAt.None? || workers[i].restartAt.value > old(env.clock)
      ensures forall i :: 0 <= i < |workers| ==>
        || workers[i] == old(workers)[i]
        || (!old(workers)[i].running && old(workers)[i].restartAt.Some?
            && old(workers)[i].restartAt.value <= env.clock && workers[i].running)
    {
      hide Valid, Kept, Accounted, Reported, Fit, Count, RunningIndices, AllTended;
      var now := LookAtClock();
      ok := true;
      var i := 0;
      while i < |workers|
        invariant Valid() && Tended() && old(env.clock) <= now <= env.clock
        invariant ok && env.startErrors == old(env.startErrors)
        invariant Count(workers).active == old(Count(workers).active) && |workers| == |old(workers)|
        invariant forall j :: i <= j < |workers| ==> workers[j] == old(workers)[j]
        invariant forall j :: 0 <= j < i && j < |workers| ==>
          workers[j].running || workers[j].restartAt.None? || workers[j].restartAt.value > now
        invariant forall j :: 0 <= j < i && j < |workers| ==>
          || workers[j] == old(workers)[j]
          || (!old(workers)[j].running && old(workers)[j].restartAt.Some?
              && old(workers)[j].restartAt.value <= now && workers[j].running)
      {
        if !workers[i].running && workers[i].restartAt.Some? && workers[i].restartAt.value <= now {
          ghost var was := workers;
          ok := Spawn(i);
          if !ok {
            return;
          }
          StaysTended(was, i);
        }
        i := i + 1;
      }
    }

    /** A slot that is running now does not make the others less tended. */
    lemma StaysTended(was: seq<Slot>, i: nat)
      requires i < |was| == |workers| && workers == was[i := workers[i]] && workers[i].running
      ensures AllTended(was) ==> AllTended(workers)
    {
      if AllTended(was) {
        AllTendedReplace(was, i, workers[i]);
      }
    }

    predicate Abnormal(code: int, stopped: bool) {
      !stopped && code != 0 && code != emptyCode
    }

    /** Counts the failure, or forgets the earlier ones, and says how long the slot waits. */
    method RestartDelay(failures: nat, code: int, uptime: real) returns (failures': nat, delay: real)
      ensures failures' == if code == 0 || uptime >= policy.stableAfter then 0 else failures + 1
      ensures delay == Delay(policy, failures')
    {
      if code == 0 || uptime >= policy.stableAfter {
        return 0, 0.0;
      }
      failures' := failures + 1;
      delay := Min(Doubled(policy.start, failures' - 1), policy.max);
    }

    /** Whether the process was asked to stop: by a shutdown, or because its slot is to retire. */
    method AskedToStop(retiring: bool) returns (asked: bool)
      requires Kept()
      modifies env`requests, env`requestedAt, env`patience
      ensures Kept() && asked == (env.requests > 0 || retiring)
      ensures env.requests >= old(env.requests) && env.patience <= old(env.patience)
    {
      asked := SetByNow();
      asked := asked || retiring;
    }

    /**
     Records the exit of a process. One that ended on the signal it was sent
     counts as 0; the next start follows an abnormal exit exactly when the code
     recorded is neither 0 nor the one of an idle run.
     */
    method RecordExit(i: nat, now: real, code: int)
      requires Kept() && env.found == FoundCodes(exits) + [code]
      requires i < |workers| && workers[i].running && now == env.clock
      modifies `workers, `exitCodes, `exits, env`requests, env`requestedAt, env`patience
      ensures Valid() && env.Later(now, old(env.requests), old(env.patience))
      ensures exits == old(exits)
        + [Ended(old(workers)[i].index, code, env.requests > 0 || old(workers)[i].retiring, false, now)]
      ensures
        var recorded := if (env.requests > 0 || old(workers)[i].retiring) && code == -15 then 0 else code;
        && exitCodes == old(exitCodes) + [recorded]
        && workers == old(workers)[i := old(workers)[i].(running := false, exitCode := Some(code),
             restartAfterAbnormal := recorded != 0 && recorded != emptyCode,
             cleanExitAt := if code == 0 then Some(now) else old(workers)[i].cleanExitAt)]
      ensures Count(workers).active == old(Count(workers).active)
    {
      hide Trailing, WellTimed, Due, Fit, Reported, Count, FoundCodes, RecordedCodes, AllHadReason;
      var w := workers[i];
      FitMeans(workers, nextIndex, policy, now, marks, i);
      var asked := AskedToStop(w.retiring);
      var stopped := asked && code == -SIGTERM;
      ghost var e := Ended(w.index, code, asked, false, now);
      OneMoreEnded(exits, e, marks.told, env.requestedAt);
      exits := exits + [e];
      exitCodes := exitCodes + [if stopped then 0 else code];
      w := w.(running := false, exitCode := Some(code), restartAfterAbnormal := Abnormal(code, stopped),
              cleanExitAt := if code == 0 && !stopped then Some(now) else w.cleanExitAt);
      PutBack(i, w);
    }

    /** Puts another state of slot i, which was started before, in its place. */
    method PutBack(i: nat, w: Slot)
      requires Fit(workers, nextIndex, policy, env.clock, marks) && i < |workers|
      requires w.index == workers[i].index && w.retiring == workers[i].retiring && w.Sound(policy, env.clock)
      requires w.pid.Some? && workers[i].pid.Some?
      modifies `workers
      ensures Fit(workers, nextIndex, policy, env.clock, marks) && workers == old(workers)[i := w]
      ensures Count(workers).active == old(Count(workers).active)
      ensures Count(workers).running == old(Count(workers).running)
        - (if old(workers)[i].running then 1 else 0) + (if w.running then 1 else 0)
    {
      FitMeans(workers, nextIndex, policy, env.clock, marks, i);
      FitReplace(workers, i, w, nextIndex, policy, env.clock, marks);
      assert marks.started + {w.index} == marks.started;
      CountReplace(workers, i, w);
      workers := workers[i := w];
    }

    /** Drops the slot if it is retiring; schedules its restart unless the supervisor is stopping. */
    method Dispose(i: nat, now: real, code: int) returns (kept: bool)
      requires Valid() && i < |workers| && !workers[i].running && now == env.clock
      requires workers[i].pid.Some? && workers[i].startedAt <= now && workers[i].restartAt.None?
      requires workers[i].runs.Then? ==> workers[i].startedAt >= Due(workers[i].runs)
      modifies `workers, env`requests, env`requestedAt, env`patience
      ensures Valid() && env.Later(now, old(env.requests), old(env.patience))
      ensures kept == !old(workers)[i].retiring
      ensures !kept ==> workers == Without(old(workers), i)
      ensures kept ==> |workers| == |old(workers)| && workers == old(workers)[i := workers[i]]
      ensures kept && !(restart && env.requests == 0) ==> workers == old(workers)
      ensures kept && restart && env.requests == 0 ==>
        var w, was := workers[i], old(workers)[i];
        && w == was.(failures := w.failures, restartAt := w.restartAt, runs := w.runs)
        && w.restartAt.Some? && w.runs.Then? && w.runs.earlier == was.runs
        && w.runs.last == Exit(was.startedAt, now, code, w.runs.last.delay)
      ensures Count(workers) == old(Count(workers))
    {
      hide Fit, AllTrue, FailingSince, Count, FoundCodes, RecordedCodes, AllHadReason;
      var w := workers[i];
      FitMeans(workers, nextIndex, policy, now, marks, i);
      if w.retiring {
        FitWithout(workers, i, nextIndex, policy, now, marks);
        CountReplace(workers, i, w);
        workers := Without(workers, i);
        return false;
      }
      kept := true;
      var stopping := true;
      if restart {
        stopping := LookForShutdown();
      }
      if !stopping {
        var failures, delay := RestartDelay(w.failures, code, now - w.startedAt);
        var runs := Then(w.runs, Exit(w.startedAt, now, code, delay));
        PutBack(i, w.(failures := failures, restartAt := Some(now + delay), runs := runs));
      }
    }

    /**
     Polls every running process, once, and records every exit that it finds.
     The slots with a process afterwards are those found alive.
     */
    method Reap()
      requires Valid()
      modifies `workers, `exitCodes, `exits
      modifies env`clock, env`requests, env`requestedAt, env`patience, env`polled, env`alive, env`found
      ensures Valid() && env.Later(old(env.clock), old(env.requests), old(env.patience))
      ensures env.polled == old(env.polled) + RunningIndices(old(workers))
      ensures env.alive == old(env.alive) + RunningIndices(workers)
      ensures old(Tended()) ==> Tended()
      ensures Count(workers).active == old(Count(workers).active)
    {
      hide Valid, Kept, Accounted, Reported, Fit, Count, AllTended, RunningIndices;
      ghost var tended := Tended();
      var now := LookAtClock();
      var i := 0;
      NoneBeforeOrAfter(workers);
      while i < |workers|
        invariant Valid() && env.Later(old(env.clock), old(env.requests), old(env.patience)) && env.clock == now
        invariant i <= |workers|
        invariant env.polled + RunningIndices(workers[i..]) == old(env.polled) + RunningIndices(old(workers))
        invariant env.alive == old(env.alive) + RunningIndices(workers[..i])
        invariant tended ==> Tended()
        invariant Count(workers).active == old(Count(workers).active)
        decreases |workers| - i
      {
        ghost var was, polled, alive := workers, env.polled, env.alive;
        var kept := true;
        if workers[i].running {
          kept := ReapOne(i, now);
        }
        PolledOne(was, workers, i, kept, polled, env.polled);
        AliveSoFar(was, workers, i, kept, alive, env.alive, old(env.alive));
        if kept {
          i := i + 1;
        }
      }
      NoneBeforeOrAfter(workers);
    }

    /** Polls one running process; false when its slot is dropped. */
    method ReapOne(i: nat, now: real) returns (kept: bool)
      requires Valid() && i < |workers| && workers[i].running && now == env.clock
      modifies `workers, `exitCodes, `exits
      modifies env`requests, env`requestedAt, env`patience, env`polled, env`alive, env`found
      ensures Valid() && env.Later(now, old(env.requests), old(env.patience))
      ensures env.polled == old(env.polled) + [old(workers)[i].index]
      ensures !kept ==> workers == Without(old(workers), i) && env.alive == old(env.alive)
      ensures kept ==>
        && |workers| == |old(workers)| && workers == old(workers)[i := workers[i]]
        && workers[i].index == old(workers)[i].index
        && env.alive == if workers[i].running then old(env.alive) + [workers[i].index] else old(env.alive)
      ensures old(Tended()) ==> Tended()
      ensures Count(workers).active == old(Count(workers).active)
    {
      kept := true;
      var code := env.Poll(workers[i].index);
      if code.None? {
        return;
      }
      kept := Bury(i, now, code.value);
    }

    /** Records the exit of a process, and sees to what becomes of its slot. */
    method Bury(i: nat, now: real, code: int) returns (kept: bool)
      requires Kept() && env.found == FoundCodes(exits) + [code]
      requires i < |workers| && workers[i].running && now == env.clock
      modifies `workers, `exitCodes, `exits, env`requests, env`requestedAt, env`patience
      ensures Valid() && env.Later(now, old(env.requests), old(env.patience))
      ensures !kept ==> workers == Without(old(workers), i)
      ensures kept ==>
        && |workers| == |old(workers)| && workers == old(workers)[i := workers[i]]
        && workers[i].index == old(workers)[i].index && !workers[i].running
      ensures old(Tended()) ==> Tended()
      ensures Count(workers).active == old(Count(workers).active)
    {
      hide Trailing, WellTimed, Due, Fit, AllTrue, FailingSince, Count, FoundCodes, RecordedCodes, AllHadReason;
      ghost var was := workers;
      FitMeans(workers, nextIndex, policy, now, marks, i);
      RecordExit(i, now, code);
      kept := Dispose(i, now, code);
      assert Without(was, i) == Without(was[i := was[i]], i);
      if AllTended(was) {
        AllTendedReplace(was, i, if kept then workers[i] else was[i]);
      }
    }

    /** Makes the report there is to make of the slots as they are now, if any. */
    method CheckFailing()
      requires Valid()
      modifies `failingSince, `reports, `seen, `checked, `checkedAt, env`clock
      ensures Valid() && env.clock >= old(env.clock)
      ensures checked == workers && checkedAt == env.clock
      ensures reports == old(reports) + News(old(failingSince), checked, policy, checkedAt)
      ensures seen == if reports == old(reports) then old(seen) else old(seen) + [checked]
      ensures |old(reports)| % 2 == 0 ==>
        if (exists w :: w in checked && !w.retiring)
           && forall w :: w in checked && !w.retiring ==>
                w.failures > 0 && !(w.running && checkedAt - w.startedAt >= policy.stableAfter)
        then
          var n := |set i | 0 <= i < |checked| && !checked[i].retiring|;
          reports == old(reports) + [EveryWorkerFailing(n, checkedAt)]
        else reports == old(reports)
      ensures |old(reports)| % 2 == 1 ==>
        var since := old(reports)[|old(reports)| - 1].at;
        if exists i :: 0 <= i < |checked| && !checked[i].retiring
             && ((checked[i].running && checkedAt - checked[i].startedAt >= policy.stableAfter)
                 || (checked[i].cleanExitAt.Some? && checked[i].cleanExitAt.value >= since))
        then
          exists i :: 0 <= i < |checked| && !checked[i].retiring
            && ((checked[i].running && checkedAt - checked[i].startedAt >= policy.stableAfter)
                || (checked[i].cleanExitAt.Some? && checked[i].cleanExitAt.value >= since))
            && reports == old(reports) + [WorkersRecovered(checked[i].index, checkedAt)]
        else reports == old(reports)
    {
      hide Fit, Accounted, News, AllTrue;
      var now := LookAtClock();
      checked, checkedAt := workers, now;
      MakeReport(now);
      NewsInFields(old(reports), reports, checked, policy, checkedAt);
    }

    method MakeReport(now: real)
      requires Fit(workers, nextIndex, policy, env.clock, marks) && Reported()
      modifies `failingSince, `reports, `seen
      ensures Reported() && reports == old(reports) + News(old(failingSince), workers, policy, now)
      ensures seen == if reports == old(reports) then old(seen) else old(seen) + [workers]
    {
      hide Fit, AllTrue, News;
      ghost var news := News(failingSince, workers, policy, now);
      NewsHolds(now);
      if failingSince.None? {
        NoticeFailing(now);
      } else {
        NoticeRecovery(now, failingSince.value);
      }
      reports := reports + news;
      seen := if news == [] then seen else seen + [workers];
    }

    /** The slots are sound, so that one that recovered had a process. */
    lemma NewsHolds(now: real)
      requires Fit(workers, nextIndex, policy, env.clock, marks) && Reported()
      ensures var news := News(failingSince, workers, policy, now);
        && AllTrue(reports + news, if news == [] then seen else seen + [workers], policy)
        && |news| <= 1 && (news != [] ==> news[0].at == now)
    {
      hide Fit, AllTrue, FirstRecovered, AllFailing, Count;
      FitHadProcess(workers, nextIndex, policy, env.clock, marks);
      NewsIsTrue(reports, seen, policy, workers, now);
    }

    method NoticeFailing(now: real)
      requires failingSince.None?
      modifies `failingSince
      ensures failingSince == if News(None, workers, policy, now) == [] then None else Some(now)
    {
      SomeActive(workers);
      if Count(workers).active > 0
         && forall i :: 0 <= i < |workers| && !workers[i].retiring ==> workers[i].Failing(policy, now) {
        failingSince := Some(now);
      }
    }

    method NoticeRecovery(now: real, since: real)
      requires failingSince == Some(since)
      modifies `failingSince
      ensures failingSince == if News(Some(since), workers, policy, now) == [] then Some(since) else None
    {
      var i := 0;
      assert workers[0..] == workers;
      while i < |workers|
        invariant 0 <= i <= |workers| && failingSince == Some(since)
        invariant FirstRecovered(workers, policy, now, since) == FirstRecovered(workers[i..], policy, now, since)
      {
        assert workers[i..][0] == workers[i] && workers[i..][1..] == workers[i + 1..];
        if workers[i].Recovers(policy, now, since) {
          failingSince := None;
          return;
        }
        i := i + 1;
      }
    }

    /** The newest slot not yet asked to stop. */
    method Newest() returns (i: nat)
      requires Count(workers).active > 0
      ensures IsNewest(workers, i)
    {
      SomeActive(workers);
      i := |workers| - 1;
      while workers[i].retiring
        invariant 0 <= i < |workers|
        invariant forall j :: i < j < |workers| ==> workers[j].retiring
        decreases i
      {
        i := i - 1;
      }
    }

    /** Signals the newest slot to stop, unless it is the last one. A slot without a process is dropped at once. */
    method RetireNewest()
      requires Valid() && Tended()
      modifies `workers, `marks, `refused, env`signalled
      ensures Valid() && Tended()
      ensures RunningIndices(workers) == old(RunningIndices(workers))
      ensures if old(Count(workers).active) == 1 then
          workers == old(workers) && env.signalled == old(env.signalled) && refused == old(refused) + 1
        else
          Count(workers).active == old(Count(workers).active) - 1 && refused == old(refused)
          && exists i :: IsNewest(old(workers), i) && RetiredAt(i)
    {
      hide Valid, Kept, Fit, Count, AllTended, RunningIndices;
      if Count(workers).active <= 1 {
        refused := refused + 1;
        return;
      }
      var i := Newest();
      RetireSlot(i);
    }

    method RetireSlot(i: nat)
      requires Valid() && Tended() && i < |workers| && !workers[i].retiring && Count(workers).active > 1
      modifies `workers, `marks, env`signalled
      ensures Valid() && Tended() && RetiredAt(i)
      ensures RunningIndices(workers) == old(RunningIndices(workers))
      ensures Count(workers).active == old(Count(workers).active) - 1
    {
      hide Fit, Reported, Count, FoundCodes, RecordedCodes, AllHadReason, AllTended, RunningIndices;
      var w := workers[i].(retiring := true);
      Retire(workers, i, nextIndex, policy, env.clock, marks);
      if AllTended(workers) {
        AllTendedReplace(workers, i, w);
      }
      if w.running {
        AllHadReasonStill(exits, marks.told, env.requestedAt, marks.told + {w.index}, env.requestedAt);
        marks := marks.(told := marks.told + {w.index});
        workers := workers[i := w];
        env.Signal(w.index);
      } else {
        workers := Without(workers, i);
      }
    }

    twostate predicate RetiredAt(i: int)
      reads `workers, env`signalled
      requires 0 <= i < |old(workers)|
    {
      var was := old(workers)[i];
      if was.running then
        workers == old(workers)[i := was.(retiring := true)] && env.signalled == old(env.signalled) + [was.index]
      else
        workers == Without(old(workers), i) && env.signalled == old(env.signalled)
    }

    /**
     Adds and retires slots as asked, and as asked meanwhile. If nothing more is
     asked for, nothing stays pending, and the number to keep changes by the
     net request, but never below one.
     */
    method ApplyScaling()
      requires Valid() && Tended() && Scaled()
      modifies `workers, `nextIndex, `marks, `refused, `pendingScale
      modifies env`clock, env`signalled, env`calls, env`wanted, env`arrivals
      ensures Valid() && Tended() && Scaled() && env.clock >= old(env.clock)
      ensures RunningIndices(workers) == old(RunningIndices(workers))
      ensures env.arrivals >= old(env.arrivals) && refused >= old(refused)
      ensures refused > old(refused) ==> Count(workers).active == 1
      ensures env.arrivals == old(env.arrivals) ==>
        var wanted := old(Count(workers).active + pendingScale);
        pendingScale == 0 && Count(workers).active == if wanted < 1 then 1 else wanted
    {
      AddAll();
      RetireAll();
    }

    method AddAll()
      requires Valid() && Tended() && Scaled()
      modifies `workers, `nextIndex, `pendingScale, env`clock, env`calls, env`wanted, env`arrivals
      ensures Valid() && Tended() && Scaled() && env.clock >= old(env.clock) && pendingScale <= 0
      ensures RunningIndices(workers) == old(RunningIndices(workers))
      ensures env.arrivals >= old(env.arrivals)
      ensures env.arrivals == old(env.arrivals) ==> env.wanted == old(env.wanted)
      ensures env.arrivals == old(env.arrivals) && old(pendingScale) >= 0 ==> pendingScale == 0
    {
      hide Valid, Kept, Accounted, Reported, Fit, Count, RunningIndices, AllTended;
      while pendingScale > 0
        invariant Valid() && Tended() && Scaled() && env.clock >= old(env.clock)
        invariant RunningIndices(workers) == old(RunningIndices(workers))
        invariant env.arrivals >= old(env.arrivals)
        invariant env.arrivals == old(env.arrivals) ==> env.wanted == old(env.wanted)
        invariant env.arrivals == old(env.arrivals) && old(pendingScale) >= 0 ==> pendingScale >= 0
        decreases env.calls, pendingScale
      {
        pendingScale := pendingScale - 1;
        ghost var was := workers;
        var slot := AddSlot();
        if AllTended(was) {
          AllTendedAppend(was, slot);
        }
        var net := env.Arrive();
        pendingScale := pendingScale + net;
      }
    }

    method RetireAll()
      requires Valid() && Tended() && Scaled()
      modifies `workers, `marks, `refused, `pendingScale, env`signalled, env`calls, env`wanted, env`arrivals
      ensures Valid() && Tended() && Scaled() && pendingScale >= 0
      ensures RunningIndices(workers) == old(RunningIndices(workers))
      ensures env.arrivals >= old(env.arrivals) && refused >= old(refused)
      ensures refused > old(refused) ==> Count(workers).active == 1
      ensures env.arrivals == old(env.arrivals) ==> env.wanted == old(env.wanted)
      ensures env.arrivals == old(env.arrivals) && old(pendingScale) <= 0 ==> pendingScale == 0
    {
      hide Valid, Kept, Accounted, Reported, Fit, Count, RunningIndices, AllTended;
      while pendingScale < 0
        invariant Valid() && Tended() && Scaled()
        invariant RunningIndices(workers) == old(RunningIndices(workers))
        invariant env.arrivals >= old(env.arrivals) && refused >= old(refused)
        invariant refused > old(refused) ==> Count(workers).active == 1
        invariant env.arrivals == old(env.arrivals) ==> env.wanted == old(env.wanted)
        invariant env.arrivals == old(env.arrivals) && old(pendingScale) <= 0 ==> pendingScale <= 0
        decreases env.calls, -pendingScale
      {
        pendingScale := pendingScale + 1;
        RetireNewest();
        var net := env.Arrive();
        pendingScale := pendingScale + net;
      }
    }

    /** Whether any slot is running or due: always so in restart mode, until a shutdown. */
    method AnyBusy() returns (busy: bool)
      requires Valid() && Tended()
      ensures busy == exists i :: 0 <= i < |workers| && (workers[i].running || workers[i].restartAt.Some?)
      ensures !busy ==> Count(workers).running == 0 && (restart ==> env.requests > 0)
      ensures !busy ==> forall i :: 0 <= i < |workers| ==>
        workers[i].pid.Some? && !workers[i].running && workers[i].restartAt.None?
    {
      NoneRunning(workers);
      SomeActive(workers);
      AllTendedMeans(workers);
      StartedOrDue();
      busy := exists i :: 0 <= i < |workers| && (workers[i].running || workers[i].restartAt.Some?);
    }

    lemma StartedOrDue()
      requires Valid()
      ensures forall i :: 0 <= i < |workers| ==> workers[i].pid.Some? || workers[i].restartAt.Some?
    {
      forall i | 0 <= i < |workers| ensures workers[i].pid.Some? || workers[i].restartAt.Some? {
        FitMeans(workers, nextIndex, policy, env.clock, marks, i);
      }
    }

    /**
     The loop. In restart mode it ends only after a shutdown was requested or
     a process could not be started; otherwise also once nothing runs or is due.
     */
    method Supervise() returns (ok: bool)
      requires Valid() && Tended() && Scaled()
      modifies this, env
      ensures Valid() && Tended() && Scaled() && env.Later(old(env.clock), old(env.requests), old(env.patience))
      ensures env.startErrors == old(env.startErrors) + if ok then 0 else 1
      ensures ok && env.requests == 0 ==> !restart && Count(workers).running == 0
      ensures ok && env.requests == 0 ==> forall i :: 0 <= i < |workers| ==>
        workers[i].pid.Some? && !workers[i].running && workers[i].restartAt.None?
      ensures forced == old(forced) && old(reports) <= reports && old(seen) <= seen
    {
      hide Valid, Kept, Accounted, Reported, Fit, Count, RunningIndices, AllTended;
      ok := true;
      while true
        invariant Valid() && Tended() && Scaled() && env.Later(old(env.clock), old(env.requests), old(env.patience))
        invariant forced == old(forced) && old(reports) <= reports && old(seen) <= seen
        invariant ok && env.startErrors == old(env.startErrors)
        decreases env.patience
      {
        var stop := LookForShutdown();
        if stop {
          return;
        }
        var more: bool;
        ghost var asked: int;
        ok, more, asked := Tick();
        if !ok || !more {
          return;
        }
        stop := LookForShutdown();
      }
    }

    /**
     One pass of the loop, with whatever scaling was asked for since the last.
     Every process that was running is polled, once. The look for failures
     comes after that and before the restarts: the processes it finds running
     are those just found alive. No slot that was due is left waiting.
     */
    method Tick() returns (ok: bool, more: bool, ghost asked: int)
      requires Valid() && Tended() && Scaled()
      modifies this, env
      ensures Valid() && Tended() && Scaled() && env.Later(old(env.clock), old(env.requests), old(env.patience))
      ensures forced == old(forced)
      ensures env.arrivals == old(env.arrivals) + (if asked == 0 then 0 else 1) ==>
        var wanted := old(Count(workers).active + pendingScale) + asked;
        pendingScale == 0 && Count(workers).active == if wanted < 1 then 1 else wanted
      ensures refused >= old(refused) && (refused > old(refused) ==> Count(workers).active == 1)
      ensures env.polled == old(env.polled) + RunningIndices(old(workers))
      ensures env.alive == old(env.alive) + RunningIndices(checked)
      ensures reports == old(reports) + News(old(failingSince), checked, policy, checkedAt)
      ensures seen == if reports == old(reports) then old(seen) else old(seen) + [checked]
      ensures old(env.clock) <= checkedAt <= env.clock
      ensures |workers| == |checked|
      ensures forall i :: 0 <= i < |workers| ==>
        || workers[i] == checked[i]
        || (!checked[i].running && checked[i].restartAt.Some?
            && checked[i].restartAt.value <= env.clock && workers[i].running)
      ensures ok ==> forall i :: 0 <= i < |workers| ==>
        workers[i].running || workers[i].restartAt.None? || workers[i].restartAt.value > checkedAt
      ensures restart && env.requests == 0 ==> forall i :: 0 <= i < |workers| ==>
        workers[i].running || (!workers[i].retiring && workers[i].restartAt.Some?)
      ensures env.startErrors == old(env.startErrors) + if ok then 0 else 1
      ensures ok && !more && env.requests == 0 ==> !restart && Count(workers).running == 0
      ensures ok && !more && env.requests == 0 ==> forall i :: 0 <= i < |workers| ==>
        workers[i].pid.Some? && !workers[i].running && workers[i].restartAt.None?
    {
      hide Valid, Kept, Accounted, Reported, Fit, Count, RunningIndices, AllTended;
      asked := LookAround();
      ok := StartDue();
      more := AnyBusy();
      AllTendedMeans(workers);
    }

    /** The part of a pass before the restarts. */
    method LookAround() returns (ghost asked: int)
      requires Valid() && Tended() && Scaled()
      modifies `workers, `nextIndex, `marks, `refused, `pendingScale, `exitCodes, `exits
      modifies `failingSince, `reports, `seen, `checked, `checkedAt, env
      ensures Valid() && Tended() && Scaled() && env.Later(old(env.clock), old(env.requests), old(env.patience))
      ensures env.arrivals == old(env.arrivals) + (if asked == 0 then 0 else 1) ==>
        var wanted := old(Count(workers).active + pendingScale) + asked;
        pendingScale == 0 && Count(workers).active == if wanted < 1 then 1 else wanted
      ensures refused >= old(refused) && (refused > old(refused) ==> Count(workers).active == 1)
      ensures env.polled == old(env.polled) + RunningIndices(old(workers))
      ensures env.alive == old(env.alive) + RunningIndices(checked)
      ensures reports == old(reports) + News(old(failingSince), checked, policy, checkedAt)
      ensures seen == if reports == old(reports) then old(seen) else old(seen) + [checked]
      ensures checked == workers && checkedAt == env.clock && env.startErrors == old(env.startErrors)
    {
      hide Valid, Kept, Accounted, Reported, Fit, Count, RunningIndices, AllTended;
      asked := ScaleAndReap();
      CheckFailing();
    }

    /** The part of a pass before it looks for failures. */
    method ScaleAndReap() returns (ghost asked: int)
      requires Valid() && Tended() && Scaled()
      modifies `workers, `nextIndex, `marks, `refused, `pendingScale, `exitCodes, `exits, env
      ensures Valid() && Tended() && Scaled() && env.Later(old(env.clock), old(env.requests), old(env.patience))
      ensures env.arrivals == old(env.arrivals) + (if asked == 0 then 0 else 1) ==>
        var wanted := old(Count(workers).active + pendingScale) + asked;
        pendingScale == 0 && Count(workers).active == if wanted < 1 then 1 else wanted
      ensures refused >= old(refused) && (refused > old(refused) ==> Count(workers).active == 1)
      ensures env.polled == old(env.polled) + RunningIndices(old(workers))
      ensures env.alive == old(env.alive) + RunningIndices(workers) && env.startErrors == old(env.startErrors)
    {
      hide Valid, Kept, Accounted, Reported, Fit, Count, RunningIndices, AllTended;
      var net := env.Arrive();
      asked := net;
      pendingScale := pendingScale + net;
      ApplyScaling();
      Reap();
    }

    /** When the workers told to stop are killed; None waits for them without end. */
    function Deadline(now: real): Option<real> {
      if !graceful then Some(now)
      else if shutdownTimeout > 0.0 then Some(now + shutdownTimeout + SHUTDOWN_GRACE)
      else None
    }

    /** Signals every running worker. */
    method SignalAll()
      modifies env`signalled
      ensures env.signalled == old(env.signalled) + RunningIndices(workers)
    {
      var i := 0;
      while i < |workers|
        invariant 0 <= i <= |workers|
        invariant env.signalled == old(env.signalled) + RunningIndices(workers[..i])
      {
        RunningAt(workers, i);
        if workers[i].running {
          env.Signal(workers[i].index);
        }
        i := i + 1;
      }
      assert workers[..i] == workers;
    }

    /**
     Signals every worker, and ends with none: each exited by itself, or was
     killed on a second request or at the deadline. waited is when it last went
     on to wait: not past the deadline, and not at all without grace.
     */
    method StopWorkers() returns (ghost started: real, ghost waited: Option<real>)
      requires Valid() && env.requests > 0
      modifies `workers, `exitCodes, `exits, `forced, env
      ensures Valid() && Count(workers).running == 0
      ensures env.Later(old(env.clock), old(env.requests), old(env.patience))
      ensures env.startErrors == old(env.startErrors)
      ensures old(Count(workers).running) > 0 ==> env.signalled == old(env.signalled) + RunningIndices(old(workers))
      ensures forced && !old(forced) ==>
        || !graceful || env.requests > 1
        || (shutdownTimeout > 0.0 && env.clock >= started + shutdownTimeout + 1.0)
      ensures started >= old(env.clock)
      ensures waited.Some? ==> graceful && (shutdownTimeout > 0.0 ==> waited.value < started + shutdownTimeout + 1.0)
    {
      hide Valid, Kept, Accounted, Reported, Fit, Count, RunningIndices, AllTended;
      started, waited := env.clock, None;
      if Count(workers).running == 0 {
        return;
      }
      SignalAll();
      var now := LookAtClock();
      started := now;
      waited := AwaitWorkers(Deadline(now));
    }

    /** Waits for the workers to exit, and kills those left on another request or at the deadline. */
    method AwaitWorkers(deadline: Option<real>) returns (ghost waited: Option<real>)
      requires Valid() && env.requests > 0
      modifies `workers, `exitCodes, `exits, `forced
      modifies env`clock, env`requests, env`requestedAt, env`patience, env`polled, env`alive, env`found, env`killed
      ensures Valid() && Count(workers).running == 0
      ensures env.Later(old(env.clock), old(env.requests), old(env.patience))
      ensures forced && !old(forced) ==> env.requests > 1 || (deadline.Some? && env.clock >= deadline.value)
      ensures waited.Some? && deadline.Some? ==> old(env.clock) <= waited.value < deadline.value
    {
      hide Valid, Kept, Accounted, Reported, Fit, Count, RunningIndices, AllTended;
      waited := None;
      while true
        invariant waited.Some? && deadline.Some? ==> old(env.clock) <= waited.value < deadline.value
        invariant Valid() && env.Later(old(env.clock), old(env.requests), old(env.patience)) && forced == old(forced)
        decreases env.patience
      {
        Reap();
        if Count(workers).running == 0 {
          return;
        }
        var again := LookForAnother();
        if again {
          KillWorkers();
          return;
        }
        var now := LookAtClock();
        if deadline.Some? && now >= deadline.value {
          KillWorkers();
          return;
        }
        waited := Some(now);
      }
    }

    /** Kills every running worker and records how it ended. */
    method KillWorkers()
      requires Valid() && env.requests > 0
      modifies `workers, `exitCodes, `exits, `forced, env`killed, env`found
      ensures Valid() && forced && Count(workers).running == 0
      ensures env.killed == old(env.killed) + RunningIndices(old(workers))
      ensures |exitCodes| == |old(exitCodes)| + old(Count(workers).running)
    {
      hide Valid, Kept, Accounted, Reported, Fit, Count, RunningIndices, AllTended;
      forced := true;
      KillAll();
      var i := 0;
      while i < |workers|
        invariant Valid() && forced && 0 <= i <= |workers| && |workers| == |old(workers)|
        invariant forall j :: 0 <= j < i ==> !workers[j].running
        invariant |exitCodes| + Count(workers).running == |old(exitCodes)| + old(Count(workers).running)
        invariant env.killed == old(env.killed) + RunningIndices(old(workers))
      {
        if workers[i].running {
          WaitFor(i);
        }
        i := i + 1;
      }
      NoneRunning(workers);
    }

    method KillAll()
      modifies env`killed
      ensures env.killed == old(env.killed) + RunningIndices(workers)
    {
      var i := 0;
      while i < |workers|
        invariant 0 <= i <= |workers|
        invariant env.killed == old(env.killed) + RunningIndices(workers[..i])
      {
        RunningAt(workers, i);
        if workers[i].running {
          env.Kill(workers[i].index);
        }
        i := i + 1;
      }
      assert workers[..i] == workers;
    }

    /** Waits for a process that was killed, and records its code as it is. */
    method WaitFor(i: nat)
      requires Valid() && i < |workers| && workers[i].running && env.requests > 0
      modifies `workers, `exitCodes, `exits, env`found
      ensures Valid() && workers == old(workers)[i := old(workers)[i].(running := false)]
      ensures |exitCodes| == |old(exitCodes)| + 1 && Count(workers).running == old(Count(workers).running) - 1
      ensures exits == old(exits) + [Ended(old(workers)[i].index, exitCodes[|exitCodes| - 1], true, true, env.clock)]
    {
      hide Trailing, WellTimed, Due, Fit, AllTrue, FailingSince, Count, FoundCodes, RecordedCodes, AllHadReason;
      var code := env.Wait(workers[i].index);
      ghost var e := Ended(workers[i].index, code, true, true, env.clock);
      OneMoreEnded(exits, e, marks.told, env.requestedAt);
      exits := exits + [e];
      exitCodes := exitCodes + [code];
      FitMeans(workers, nextIndex, policy, env.clock, marks, i);
      PutBack(i, workers[i].(running := false));
    }

    /** The exit code of the command. */
    function Finish(): (code: int)
      reads this
    {
      if forced then FORCED_EXIT_CODE else CombineExitCodes(exitCodes, emptyCode, failedCode)
    }

    /** Some process crashed; a signal it was not sent to stop it is a crash, too. */
    ghost predicate SomeCrashed()
      reads `exits
    {
      exists k :: 0 <= k < |exits| && exits[k].Crashed(emptyCode, failedCode)
    }

    /** At the end every process started is on record, and a crash is reported. */
    lemma AllOnRecord()
      requires Valid() && Count(workers).running == 0
      ensures spawns == |exits| == |exitCodes|
      ensures SomeCrashed() ==> Finish() != 0
      ensures forall k :: 0 <= k < |exits| && exits[k].asked ==>
        exits[k].index in marks.told || (env.requestedAt.Some? && env.requestedAt.value <= exits[k].at)
    {
      forall k | 0 <= k < |exits| ensures HadReason(exits[k], marks.told, env.requestedAt) {
        AllHadReasonMeans(exits, marks.told, env.requestedAt, k);
      }
      if SomeCrashed() {
        var k :| 0 <= k < |exits| && exits[k].Crashed(emptyCode, failedCode);
        ExitCodes.CrashIsReported(exits, emptyCode, failedCode, k);
      }
    }

    /**
     Runs the workers to the end. None when a process could not be started:
     the exception goes on to the caller. Either way no worker is left running,
     every process started has its exit code recorded, and a crash is reported.
     */
    method Run() returns (code: Option<int>)
      requires Valid() && workers == [] && spawns == 0 && exits == [] && !forced && size >= 1
      requires pendingScale == env.wanted + refused
      modifies this, env
      ensures Valid() && Count(workers).running == 0 && spawns == |exits| == |exitCodes|
      ensures code.Some? && forced ==> code.value == 1
      ensures code.Some? && !forced ==> code.value == CombineExitCodes(exitCodes, emptyCode, failedCode)
      ensures code.None? ==> env.startErrors > old(env.startErrors)
      ensures code.None? || restart || forced ==> env.requests > 0
      ensures env.requests == 0 ==> forall i :: 0 <= i < |workers| ==>
        workers[i].pid.Some? && !workers[i].running && workers[i].restartAt.None?
      ensures forall k :: 0 <= k < |exits| && exits[k].asked ==>
        exits[k].index in marks.told || (env.requestedAt.Some? && env.requestedAt.value <= exits[k].at)
      ensures code == Some(0) ==> forall k :: 0 <= k < |exits| ==>
        || exits[k].code == 0 || exits[k].code == emptyCode || exits[k].code == failedCode
        || (exits[k].asked && !exits[k].killed && exits[k].code == -15)
      ensures old(reports) <= reports && old(seen) <= seen
    {
      hide Valid, Kept, Accounted, Reported, Fit, Count, RunningIndices, AllTended;
      AddSlots();
      var ok := Supervise();
      if !ok {
        RequestShutdown();
        ghost var started, waited := StopWorkers();
        AllOnRecord();
        return None;
      }
      var stop := LookForShutdown();
      if stop {
        ghost var started, waited := StopWorkers();
      }
      AllOnRecord();
      return Some(Finish());
    }

    /** The slots to begin with. */
    method AddSlots()
      requires Valid() && workers == [] && size >= 1 && pendingScale == env.wanted + refused
      modifies `workers, `nextIndex, env`clock
      ensures Valid() && Tended() && Scaled() && Count(workers).active == |workers| == size
      ensures env.clock >= old(env.clock)
    {
      var n := 0;
      while n < size
        invariant Valid() && env.clock >= old(env.clock)
        invariant n == |workers| == Count(workers).active && n <= size && AllTended(workers)
      {
        ghost var was := workers;
        var slot := AddSlot();
        AllTendedAppend(was, slot);
        n := n + 1;
      }
    }
  }
}
