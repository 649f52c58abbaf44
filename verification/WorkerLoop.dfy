/**
 The worker command: its loop, run inline or with a pool of executor threads,
 and the exit code it ends with. What the broker, the table and the tasks do
 is left open: every call into them may come out any way the code handles.
 */
module WorkerLoop {
  import opened Options
  import opened Threads
  import ExitCodes

  /** Where the worker looks for tasks, once 'auto' is resolved. */
  datatype Source = FromDatabase | FromBroker | FromBoth

  /** The shutdown flag: it may be set between any two looks at it, and stays set. */
  class Shutdown {
    var requested: bool
    /** How many more looks find it clear. */
    var patience: nat

    method IsSet() returns (stop: bool)
      modifies this
      ensures stop == requested && (old(requested) ==> requested)
      ensures patience <= old(patience) && (!stop ==> patience < old(patience))
    {
      var signalled: bool := *;
      if signalled || patience == 0 {
        requested := true;
      } else {
        patience := patience - 1;
      }
      stop := requested;
    }
  }

  /** Why the loop stopped looking for tasks, if it did. */
  datatype Reason = KeepsLooking | ShutdownRequested | CapReached | Exhausted

  /** How an attempt to run a task, here, came out. */
  datatype RunOutcome = Gone | NotReady | Raised | Ran(successful: bool)

  /** How a claim came out. */
  datatype ClaimOutcome = ClaimRaised | Lost | Won

  /**
   The broker, the table and the tasks, as the main thread meets them. Each
   call may come out any way; the ghost fields keep count of how they did.
   */
  class World {
    ghost var received: nat
    ghost var claims: nat
    ghost var claimErrors: nat
    /** Runs here that came to an end, tasks of the table that could not be run, and failures of both kinds. */
    ghost var runs: nat
    ghost var taskErrors: nat
    ghost var failures: nat
    /** The messages that were acknowledged, and those given back to be delivered again. */
    ghost var acked: nat
    ghost var nacked: nat
    /** Whether the last look at the table found no task that is due. */
    ghost var tableEmpty: bool
    /** How often the broker and the table were looked at. */
    ghost var brokerLooks: nat
    ghost var tableLooks: nat

    constructor Untouched()
      ensures received == claims == claimErrors == 0
      ensures runs == taskErrors == failures == acked == nacked == 0
    {
      received, claims, claimErrors := 0, 0, 0;
      runs, taskErrors, failures, acked, nacked := 0, 0, 0, 0, 0;
    }

    /** Up to limit messages; None if the broker raised. */
    method Receive(limit: nat) returns (messages: Option<nat>)
      modifies `received, `brokerLooks
      ensures brokerLooks == old(brokerLooks) + 1
      ensures messages.Some? ==> messages.value <= limit
      ensures received == old(received) + if messages.Some? then messages.value else 0
    {
      brokerLooks := brokerLooks + 1;
      var raised: bool := *;
      if raised {
        return None;
      }
      var n: nat :| n <= limit;
      received := received + n;
      return Some(n);
    }

    method RunTaskById() returns (outcome: RunOutcome)
      modifies `runs, `failures
      ensures runs == old(runs) + if outcome.Ran? then 1 else 0
      ensures failures == old(failures) + if outcome.Raised? || outcome == Ran(false) then 1 else 0
    {
      outcome := *;
      runs := runs + if outcome.Ran? then 1 else 0;
      failures := failures + if outcome.Raised? || outcome == Ran(false) then 1 else 0;
    }

    method Ack()
      modifies `acked
      ensures acked == old(acked) + 1
    {
      acked := acked + 1;
    }

    method Nack()
      modifies `nacked
      ensures nacked == old(nacked) + 1
    {
      nacked := nacked + 1;
    }

    method FetchTask() returns (found: bool)
      modifies `tableEmpty, `tableLooks
      ensures tableEmpty == !found && tableLooks == old(tableLooks) + 1
    {
      tableLooks := tableLooks + 1;
      found := *;
      tableEmpty := !found;
    }

    /** The fetched task, run here. */
    method RunTask() returns (outcome: RunOutcome)
      modifies `runs, `taskErrors, `failures
      ensures !outcome.Gone?
      ensures runs == old(runs) + if outcome.Ran? then 1 else 0
      ensures taskErrors == old(taskErrors) + if outcome.Raised? then 1 else 0
      ensures failures == old(failures) + if outcome.Raised? || outcome == Ran(false) then 1 else 0
    {
      outcome :| !outcome.Gone?;
      runs := runs + if outcome.Ran? then 1 else 0;
      taskErrors := taskErrors + if outcome.Raised? then 1 else 0;
      failures := failures + if outcome.Raised? || outcome == Ran(false) then 1 else 0;
    }

    method ClaimTask() returns (outcome: ClaimOutcome)
      modifies `claims, `claimErrors, `failures
      ensures claims == old(claims) + if outcome.Won? then 1 else 0
      ensures claimErrors == old(claimErrors) + if outcome.ClaimRaised? then 1 else 0
      ensures failures == old(failures) + if outcome.ClaimRaised? then 1 else 0
    {
      outcome := *;
      claims := claims + if outcome.Won? then 1 else 0;
      claimErrors := claimErrors + if outcome.ClaimRaised? then 1 else 0;
      failures := failures + if outcome.ClaimRaised? then 1 else 0;
    }
  }

  class Command {
    const world: World
    /** Failed tasks, of those the main thread ran or tried to claim. */
    var tasksFailed: nat
    /** Whether the last look at the broker came to nothing. */
    ghost var brokerIdle: bool

    constructor ()
      ensures fresh(world) && tasksFailed == 0
      ensures world.received == world.claims == world.claimErrors == 0
      ensures world.runs == world.taskErrors == world.failures == world.acked == world.nacked == 0
    {
      world := new World.Untouched();
      tasksFailed := 0;
    }

    /** Takes in the outcomes that wait to be collected; the true ones are the tasks processed. */
    method CollectOutcomes(executors: ExecutorThreads?, wait: bool) returns (processed: nat)
      requires executors != null ==> executors.Valid() && executors.taken == 0
      modifies executors
      ensures executors == null ==> processed == 0
      ensures executors != null ==>
        && executors.Valid() && executors.taken == 0
        && executors.held == old(executors.held) && executors.submitted == old(executors.submitted)
        && Trues(executors.collected) == old(Trues(executors.collected)) + processed
        && old(executors.Delivered()) <= executors.collected
        && executors.busy + processed <= old(executors.busy)
        && |executors.idle| >= |old(executors.idle)|
        && executors.timeouts <= old(executors.timeouts)
        && (wait && old(executors.busy) > 0 ==>
              executors.busy < old(executors.busy) || executors.timeouts < old(executors.timeouts))
    {
      hide ExecutorThreads.Valid;
      processed := 0;
      if executors == null {
        return;
      }
      ghost var before := executors.collected;
      var outcomes := executors.Collect(wait);
      processed := CountProcessed(outcomes, before, executors.collected);
    }

    method CountProcessed(outcomes: seq<bool>, ghost before: seq<Result>, ghost collected: seq<Result>)
      returns (processed: nat)
      requires before <= collected && |collected| == |before| + |outcomes|
      requires forall k :: 0 <= k < |outcomes| ==> outcomes[k] == collected[|before| + k].processed
      ensures Trues(collected) == Trues(before) + processed && processed <= |outcomes|
    {
      processed := 0;
      var i := 0;
      assert collected[..|before| + 0] == before;
      while i < |outcomes|
        invariant 0 <= i <= |outcomes| && processed <= i
        invariant Trues(collected[..|before| + i]) == Trues(before) + processed
      {
        ghost var upTo := collected[..|before| + i + 1];
        assert upTo[..|upTo| - 1] == collected[..|before| + i];
        if outcomes[i] {
          processed := processed + 1;
        }
        i := i + 1;
      }
      assert collected[..|before| + |outcomes|] == collected;
    }

    /** What the caller asks for, the idle executors and the cap leave: the least of them. */
    method Remaining(executors: ExecutorThreads?, maxMessages: int, maxTasks: int, tasksProcessed: int) returns (n: int)
      requires executors != null ==> executors.Valid()
      modifies executors
      ensures executors != null ==> executors.Valid() && executors.OnlyExecutors()
      ensures n == LeastOf(LeastOf(maxMessages, if executors == null then maxMessages else |executors.idle|),
                           if maxTasks == 0 then maxMessages else maxTasks - tasksProcessed - InFlight(executors))
    {
      n := maxMessages;
      if executors != null {
        var free := executors.IdleCount();
        n := if free < n then free else n;
      }
      if maxTasks != 0 {
        var left := maxTasks - tasksProcessed - if executors == null then 0 else executors.busy;
        n := if left < n then left else n;
      }
    }

    /** All the failed tasks: the main thread's, and those of the jobs that have finished. */
    function AllFailed(executors: ExecutorThreads?): nat
      reads this, executors
    {
      tasksFailed + if executors == null then 0 else executors.failed
    }

    /** What the main thread's failures have added up to. */
    ghost predicate Counted()
      reads this, world
    {
      tasksFailed == world.failures
    }

    /**
     Between the loop's steps: no executor is held, every job was received or
     claimed, and the count is accounted for.
     */
    ghost predicate Sound(executors: ExecutorThreads?, tasksProcessed: nat)
      reads this, world, executors
    {
      && Counted()
      && (executors == null ==>
            && tasksProcessed == world.runs + world.taskErrors
            && world.acked + world.nacked == world.received)
      && (executors != null ==>
            && executors.Valid() && executors.held == {} && executors.taken == 0
            && executors.submitted == world.received + world.claims
            && tasksProcessed == world.claimErrors + Trues(executors.collected))
    }

    /**
     Runs the task a message names, here: true if it ran. It may fail, or not be
     there to run; the message is given back only when it could not be run at
     all, which is a failure, and is done with otherwise.
     */
    method RunBrokerMessage() returns (ran: bool)
      requires Counted()
      modifies `tasksFailed, world`runs, world`failures, world`acked, world`nacked
      ensures Counted() && world.runs == old(world.runs) + if ran then 1 else 0
      ensures world.acked + world.nacked == old(world.acked + world.nacked) + 1
      ensures world.nacked == old(world.nacked) + if !ran && world.failures > old(world.failures) then 1 else 0
    {
      var outcome := world.RunTaskById();
      if outcome.Gone? {
        world.Ack();
        return false;
      }
      if outcome.Raised? {
        tasksFailed := tasksFailed + 1;
        world.Nack();
        return false;
      }
      world.Ack();
      if outcome.NotReady? {
        return false;
      }
      if !outcome.successful {
        tasksFailed := tasksFailed + 1;
      }
      return true;
    }

    /**
     The messages the broker has, up to the limit. Without executors, how many
     of their tasks ran, each message being acknowledged or given back; with them, how
     many were handed out: every one received.
     */
    method ReceiveAndRun(executors: ExecutorThreads?, maxMessages: int) returns (count: nat)
      requires Counted()
      requires executors != null ==> executors.Valid() && maxMessages <= |executors.idle|
      modifies this, world`received, world`brokerLooks, world`runs, world`failures, world`acked, world`nacked, executors
      ensures Counted() && (count == 0 || count <= maxMessages) && brokerIdle == (count == 0)
      ensures world.brokerLooks >= old(world.brokerLooks)
      ensures maxMessages >= 1 ==> world.brokerLooks == old(world.brokerLooks) + 1
      ensures world.received >= old(world.received) + count
      ensures executors == null ==>
        && world.runs == old(world.runs) + count
        && world.acked + world.nacked - world.received == old(world.acked + world.nacked - world.received)
      ensures executors != null ==>
        && executors.Valid() && world.received == old(world.received) + count
        && executors.submitted == old(executors.submitted) + count && executors.busy == old(executors.busy) + count
        && executors.taken == old(executors.taken) && executors.timeouts == old(executors.timeouts)
        && executors.held == old(executors.held) && executors.collected == old(executors.collected)
        && |executors.idle| + count >= |old(executors.idle)|
    {
      hide ExecutorThreads.Valid;
      count, brokerIdle := 0, true;
      if maxMessages < 1 {
        return;
      }
      var received := world.Receive(maxMessages);
      if received.None? {
        return;
      }
      var messages := received.value;
      var i := 0;
      while i < messages
        invariant 0 <= i <= messages && count <= i && Counted() && brokerIdle == (count == 0)
        invariant world.received == old(world.received) + messages && world.brokerLooks == old(world.brokerLooks) + 1
        invariant executors == null ==>
          && world.runs == old(world.runs) + count
          && world.acked + world.nacked == old(world.acked + world.nacked) + i
        invariant executors != null ==>
          && executors.Valid() && count == i
          && executors.submitted == old(executors.submitted) + count && executors.busy == old(executors.busy) + count
          && executors.taken == old(executors.taken) && executors.timeouts == old(executors.timeouts)
          && executors.held == old(executors.held) && executors.collected == old(executors.collected)
          && |executors.idle| + count >= |old(executors.idle)|
      {
        if executors == null {
          var ran := RunBrokerMessage();
          if ran {
            count := count + 1;
          }
        } else {
          var index := executors.Acquire();
          assert index.Some?;
          executors.Submit(index.value);
          count := count + 1;
        }
        i, brokerIdle := i + 1, count == 0;
      }
    }

    /** The inline run of a fetched task counts unless the claim was lost. */
    method RunDatabaseTask() returns (counted: bool)
      requires Counted()
      modifies `tasksFailed, world`runs, world`taskErrors, world`failures
      ensures Counted()
      ensures world.runs + world.taskErrors == old(world.runs + world.taskErrors) + if counted then 1 else 0
    {
      var outcome := world.RunTask();
      if outcome.Raised? {
        tasksFailed := tasksFailed + 1;
        return true;
      }
      if outcome.NotReady? {
        return false;
      }
      if !outcome.successful {
        tasksFailed := tasksFailed + 1;
      }
      return true;
    }

    /** A won claim leaves one more job out, a lost one leaves nothing, and one that raised is counted as a task. */
    method DispatchDatabaseTask(executors: ExecutorThreads) returns (counted: bool)
      requires Counted() && executors.Valid() && executors.idle != []
      modifies `tasksFailed, world`claims, world`claimErrors, world`failures, executors
      ensures Counted() && executors.Valid()
      ensures world.claimErrors == old(world.claimErrors) + if counted then 1 else 0
      ensures executors.submitted - world.claims == old(executors.submitted - world.claims)
      ensures executors.busy - world.claims == old(executors.busy - world.claims)
      ensures old(world.claims) <= world.claims <= old(world.claims) + if counted then 0 else 1
      ensures executors.taken == old(executors.taken) && executors.timeouts == old(executors.timeouts)
      ensures executors.held == old(executors.held) && executors.collected == old(executors.collected)
    {
      var index := executors.Acquire();
      assert index.Some?;
      var outcome := world.ClaimTask();
      if outcome.ClaimRaised? {
        executors.Release(index.value);
        tasksFailed := tasksFailed + 1;
        return true;
      }
      if outcome.Lost? {
        executors.Release(index.value);
        return false;
      }
      executors.Submit(index.value);
      return false;
    }

    /**
     The worker loop. At every look at the shutdown flag the tasks counted and
     in flight are below max_tasks, and they never exceed it. It returns when
     a shutdown was requested, when max_tasks were handled, or, unless it is
     continuous, once the last look at each source it uses came to nothing. By
     then no job is out: every message received and every task claimed was
     handed to an executor, once, and its outcome was collected, once.
     */
    method ProcessTasks(source: Source, continuous: bool, maxTasks: int, waitTime: int, maxMessages: int,
                        shutdown: Shutdown, executors: ExecutorThreads?)
      returns (tasksProcessed: nat, why: Reason)
      requires maxMessages >= 1 && Sound(executors, 0)
      requires executors != null ==> executors.busy == 0 && executors.collected == []
      modifies this, world, shutdown, executors
      ensures Sound(executors, tasksProcessed)
      ensures maxTasks > 0 ==> tasksProcessed <= maxTasks
      ensures tasksFailed == world.failures
      ensures executors == null ==>
        tasksProcessed == world.runs + world.taskErrors && world.acked + world.nacked == world.received
      ensures executors != null ==>
        && executors.held == {} && executors.submitted == world.received + world.claims
        && tasksProcessed == world.claimErrors
             + |set k | 0 <= k < |executors.collected| && executors.collected[k].processed|
      ensures !why.KeepsLooking?
      ensures why.ShutdownRequested? ==> shutdown.requested
      ensures why.CapReached? && executors == null ==> 0 != maxTasks <= world.runs + world.taskErrors
      ensures why.CapReached? && executors != null ==> 0 != maxTasks <= world.claimErrors + executors.submitted
      ensures why.Exhausted? ==>
        !continuous && (source.FromBroker? || world.tableEmpty) && (source.FromDatabase? || brokerIdle)
      ensures executors != null ==>
        && executors.busy == 0 && |executors.collected| == executors.submitted && Distinct(executors.collected)
        && (forall number: nat :: number in Numbers(executors.collected) <==> number < executors.submitted)
        && executors.failed == Failures(executors.collected)
    {
      tasksProcessed, why := 0, KeepsLooking;
      while why.KeepsLooking?
        invariant Sound(executors, tasksProcessed)
        invariant maxTasks > 0 ==> tasksProcessed + InFlight(executors) <= maxTasks
        invariant why.KeepsLooking? && maxTasks > 0 ==> tasksProcessed + InFlight(executors) < maxTasks
        invariant Justified(why, source, continuous, maxTasks, shutdown, executors)
        decreases why.KeepsLooking?, shutdown.patience
      {
        var stop := shutdown.IsSet();
        if stop {
          why := ShutdownRequested;
          break;
        }
        tasksProcessed, why :=
          Pass(source, continuous, maxTasks, waitTime, maxMessages, shutdown, executors, tasksProcessed);
      }

      tasksProcessed := FinishJobs(executors, tasksProcessed);
      if executors != null {
        TruesAre(executors.collected);
      }
    }

    /** The jobs that are out come to an end. */
    method FinishJobs(executors: ExecutorThreads?, before: nat) returns (tasksProcessed: nat)
      requires Sound(executors, before)
      modifies executors
      ensures Sound(executors, tasksProcessed) && tasksProcessed <= before + old(InFlight(executors))
      ensures executors != null ==>
        && executors.submitted == old(executors.submitted)
        && executors.busy == 0 && |executors.collected| == executors.submitted && Distinct(executors.collected)
        && (forall number: nat :: number in Numbers(executors.collected) <==> number < executors.submitted)
        && executors.failed == Failures(executors.collected)
    {
      tasksProcessed := before;
      while InFlight(executors) > 0
        invariant Sound(executors, tasksProcessed)
        invariant tasksProcessed + InFlight(executors) <= before + old(InFlight(executors))
        invariant executors != null ==> executors.submitted == old(executors.submitted)
        decreases InFlight(executors), if executors == null then 0 else executors.timeouts
      {
        var processed := CollectOutcomes(executors, true);
        tasksProcessed := tasksProcessed + processed;
      }
      if executors != null {
        AllCollected(executors);
      }
    }

    /**
     The worker's exit code is the one of all its work: what was processed here
     and by the jobs, and what failed here and of the jobs.
     */
    method Work(source: Source, continuous: bool, maxTasks: int, waitTime: int, maxMessages: int,
                shutdown: Shutdown, executors: ExecutorThreads?, emptyCode: int, failedCode: int)
      returns (code: int, ghost tasksProcessed: nat)
      requires maxMessages >= 1 && Sound(executors, 0)
      requires executors != null ==> executors.busy == 0 && executors.collected == []
      modifies this, world, shutdown, executors
      ensures Sound(executors, tasksProcessed) && (maxTasks > 0 ==> tasksProcessed <= maxTasks)
      ensures var failed := world.failures + if executors == null then 0 else Failures(executors.collected);
        && code == ExitCodes.ExitCode(ExitCodes.Work(tasksProcessed, failed), emptyCode, failedCode)
        && (failed > 0 && failedCode != 0 ==> code == failedCode)
        && ((failed == 0 || failedCode == 0) && tasksProcessed == 0 && emptyCode != 0 ==> code == emptyCode)
        && ((failed == 0 || failedCode == 0) && (tasksProcessed > 0 || emptyCode == 0) ==> code == 0)
      ensures executors != null ==>
        var all := executors.collected;
        && tasksProcessed == world.claimErrors + |set k | 0 <= k < |all| && all[k].processed|
        && Failures(all) == |set k | 0 <= k < |all| && all[k].failed|
    {
      var processed, why :=
        ProcessTasks(source, continuous, maxTasks, waitTime, maxMessages, shutdown, executors);
      tasksProcessed := processed;
      if executors != null {
        TruesAre(executors.collected);
        FailuresAre(executors.collected);
      }
      if AllFailed(executors) > 0 && failedCode != 0 {
        return failedCode, processed;
      }
      if processed == 0 && emptyCode != 0 {
        return emptyCode, processed;
      }
      return 0, processed;
    }

    /** Once no job is out, every job handed out has been collected, once. */
    lemma AllCollected(executors: ExecutorThreads)
      requires executors.Valid() && executors.busy == 0 && executors.taken == 0
      ensures |executors.collected| == executors.submitted && Distinct(executors.collected)
      ensures forall number: nat :: number in Numbers(executors.collected) <==> number < executors.submitted
      ensures executors.failed == Failures(executors.collected)
    {
      assert executors.Delivered() == executors.collected;
      EveryJobOnce(executors.collected, executors.submitted);
    }

    /** The tasks that were counted here or handed out. */
    ghost function Handled(executors: ExecutorThreads?): nat
      reads world, executors
    {
      if executors == null then world.runs + world.taskErrors else world.claimErrors + executors.submitted
    }

    /** A reason to stop that holds. */
    ghost predicate Justified(why: Reason, source: Source, continuous: bool, maxTasks: int,
                              shutdown: Shutdown, executors: ExecutorThreads?)
      reads this, world, shutdown, executors
    {
      match why
      case KeepsLooking => true
      case ShutdownRequested => shutdown.requested
      case CapReached => maxTasks != 0 && Handled(executors) >= maxTasks
      case Exhausted => !continuous && (source.FromBroker? || world.tableEmpty) && (source.FromDatabase? || brokerIdle)
    }

    /** One pass of the loop. */
    method Pass(source: Source, continuous: bool, maxTasks: int, waitTime: int, maxMessages: int,
                shutdown: Shutdown, executors: ExecutorThreads?, before: nat)
      returns (tasksProcessed: nat, why: Reason)
      requires Sound(executors, before) && maxMessages >= 1
      requires maxTasks > 0 ==> before + InFlight(executors) < maxTasks
      modifies this, world, shutdown, executors
      ensures maxTasks >= 0 && (executors == null || old(executors.idle) != []) ==>
        && (if source.FromDatabase? then world.tableLooks > old(world.tableLooks)
            else world.brokerLooks > old(world.brokerLooks))
        && (source.FromBoth? && (why.KeepsLooking? || why.Exhausted?) && world.received == old(world.received) ==>
              world.tableLooks > old(world.tableLooks))
      ensures Sound(executors, tasksProcessed)
      ensures maxTasks > 0 ==> tasksProcessed + InFlight(executors) <= maxTasks
      ensures why.KeepsLooking? && maxTasks > 0 ==> tasksProcessed + InFlight(executors) < maxTasks
      ensures Justified(why, source, continuous, maxTasks, shutdown, executors)
      ensures shutdown.patience <= old(shutdown.patience)
    {
      tasksProcessed := before;
      var processed := CollectOutcomes(executors, false);
      tasksProcessed := tasksProcessed + processed;
      if executors != null {
        var free := executors.IdleCount();
        if free == 0 {
          processed := CollectOutcomes(executors, true);
          return tasksProcessed + processed, KeepsLooking;
        }
      }
      tasksProcessed, why :=
        LookForWork(source, continuous, maxTasks, waitTime, maxMessages, shutdown, executors, tasksProcessed);
    }

    /** The rest of a pass, once an executor is known to be idle. */
    method LookForWork(source: Source, continuous: bool, maxTasks: int, waitTime: int, maxMessages: int,
                       shutdown: Shutdown, executors: ExecutorThreads?, before: nat)
      returns (tasksProcessed: nat, why: Reason)
      requires Sound(executors, before) && maxMessages >= 1
      requires executors != null ==> executors.idle != []
      requires maxTasks > 0 ==> before + InFlight(executors) < maxTasks
      modifies this, world, shutdown, executors
      ensures maxTasks >= 0 ==>
        && (if source.FromDatabase? then world.tableLooks > old(world.tableLooks)
            else world.brokerLooks > old(world.brokerLooks))
        && (source.FromBoth? && (why.KeepsLooking? || why.Exhausted?) && world.received == old(world.received) ==>
              world.tableLooks > old(world.tableLooks))
      ensures Sound(executors, tasksProcessed)
      ensures maxTasks > 0 ==> tasksProcessed + InFlight(executors) <= maxTasks
      ensures why.KeepsLooking? && maxTasks > 0 ==> tasksProcessed + InFlight(executors) < maxTasks
      ensures Justified(why, source, continuous, maxTasks, shutdown, executors)
      ensures shutdown.patience <= old(shutdown.patience)
    {
      hide Sound;
      tasksProcessed := before;
      var worked := false;
      if !source.FromDatabase? {
        var count;
        tasksProcessed, count := PollBroker(executors, maxMessages, maxTasks, tasksProcessed);
        worked := count > 0;
        if ReachedMax(executors, tasksProcessed, maxTasks) {
          CountedWasHandled(executors, tasksProcessed);
          return tasksProcessed, CapReached;
        }
        var stop := shutdown.IsSet();
        if stop {
          return tasksProcessed, ShutdownRequested;
        }
      }

      if !source.FromBroker? && !worked {
        tasksProcessed, worked := PollDatabase(executors, tasksProcessed);
        if worked && ReachedMax(executors, tasksProcessed, maxTasks) {
          CountedWasHandled(executors, tasksProcessed);
          return tasksProcessed, CapReached;
        }
      }

      if worked {
        return tasksProcessed, KeepsLooking;
      }
      if !continuous {
        return tasksProcessed, Exhausted;
      }
      tasksProcessed, why := WaitForWork(source, maxTasks, waitTime, maxMessages, shutdown, executors, tasksProcessed);
    }

    /** What a continuous worker does that found nothing: the broker's wait, if it is to wake it, or a sleep. */
    method WaitForWork(source: Source, maxTasks: int, waitTime: int, maxMessages: int,
                       shutdown: Shutdown, executors: ExecutorThreads?, before: nat)
      returns (tasksProcessed: nat, why: Reason)
      requires Sound(executors, before)
      requires maxTasks > 0 ==> before + InFlight(executors) < maxTasks
      modifies this, shutdown, executors
      modifies world`received, world`brokerLooks, world`runs, world`failures, world`acked, world`nacked
      ensures Sound(executors, tasksProcessed)
      ensures maxTasks > 0 ==> tasksProcessed + InFlight(executors) <= maxTasks
      ensures why.KeepsLooking? && maxTasks > 0 ==> tasksProcessed + InFlight(executors) < maxTasks
      ensures Justified(why, source, true, maxTasks, shutdown, executors)
      ensures shutdown.patience <= old(shutdown.patience)
      ensures world.received >= old(world.received) && world.brokerLooks >= old(world.brokerLooks)
    {
      hide Sound;
      tasksProcessed := before;
      if source.FromBoth? && waitTime > 0 {
        var count;
        tasksProcessed, count := PollBroker(executors, maxMessages, maxTasks, tasksProcessed);
        if ReachedMax(executors, tasksProcessed, maxTasks) {
          CountedWasHandled(executors, tasksProcessed);
          return tasksProcessed, CapReached;
        }
        return tasksProcessed, KeepsLooking;
      }
      if source.FromBroker? && waitTime > 0 {
        return tasksProcessed, KeepsLooking;
      }
      var stop := shutdown.IsSet();
      return tasksProcessed, if stop then ShutdownRequested else KeepsLooking;
    }

    /** What was counted and is in flight was counted here or handed out. */
    lemma CountedWasHandled(executors: ExecutorThreads?, tasksProcessed: nat)
      requires Sound(executors, tasksProcessed)
      ensures tasksProcessed + InFlight(executors) <= Handled(executors)
    {
      if executors != null {
        NoMoreTruesThanResults(executors.collected);
      }
    }

    /** The broker's turn: as many tasks as may be started, at most. */
    method PollBroker(executors: ExecutorThreads?, maxMessages: int, maxTasks: int, before: nat)
      returns (tasksProcessed: nat, count: nat)
      requires Sound(executors, before)
      requires maxTasks > 0 ==> before + InFlight(executors) < maxTasks
      modifies this, world`received, world`brokerLooks, world`runs, world`failures, world`acked, world`nacked, executors
      ensures Sound(executors, tasksProcessed)
      ensures maxTasks > 0 ==> tasksProcessed + InFlight(executors) <= maxTasks
      ensures tasksProcessed + InFlight(executors) == before + old(InFlight(executors)) + count
      ensures brokerIdle == (count == 0) && world.received >= old(world.received) + count
      ensures world.brokerLooks >= old(world.brokerLooks)
      ensures maxMessages >= 1 && maxTasks >= 0 && (executors == null || old(executors.idle) != []) ==>
        world.brokerLooks == old(world.brokerLooks) + 1
      ensures count == 0 && executors != null ==> |executors.idle| >= |old(executors.idle)|
    {
      tasksProcessed := before;
      var limit := Remaining(executors, maxMessages, maxTasks, tasksProcessed);
      count := ReceiveAndRun(executors, limit);
      if executors == null {
        tasksProcessed := tasksProcessed + count;
      }
    }

    /** The table's turn: one task is fetched, if there is one, and run or handed out. */
    method PollDatabase(executors: ExecutorThreads?, before: nat)
      returns (tasksProcessed: nat, worked: bool)
      requires Sound(executors, before)
      requires executors != null ==> executors.idle != []
      modifies `tasksFailed, world, executors
      ensures Sound(executors, tasksProcessed)
      ensures world.tableEmpty == !worked && world.tableLooks == old(world.tableLooks) + 1
      ensures world.received == old(world.received) && world.brokerLooks == old(world.brokerLooks)
      ensures tasksProcessed + InFlight(executors) <= before + old(InFlight(executors)) + if worked then 1 else 0
    {
      tasksProcessed := before;
      worked := world.FetchTask();
      if worked {
        var counted: bool;
        if executors == null {
          counted := RunDatabaseTask();
        } else {
          counted := DispatchDatabaseTask(executors);
        }
        if counted {
          tasksProcessed := tasksProcessed + 1;
        }
      }
    }

    /** Whether the tasks counted and the jobs that are out leave no room under a cap, if there is one. */
    predicate ReachedMax(executors: ExecutorThreads?, tasksProcessed: nat, maxTasks: int)
      reads executors
    {
      maxTasks != 0 && tasksProcessed + InFlight(executors) >= maxTasks
    }
  }

  function LeastOf(a: int, b: int): int {
    if a < b then a else b
  }

  lemma {:induction false} NoMoreTruesThanResults(results: seq<Result>)
    ensures Trues(results) <= |results|
  {
    if results == [] {
    } else {
      NoMoreTruesThanResults(results[..|results| - 1]);
    }
  }

  /** The jobs that are out: none when every task is run inline. */
  function InFlight(executors: ExecutorThreads?): int
    reads executors
  {
    if executors == null then 0 else executors.busy
  }
}
