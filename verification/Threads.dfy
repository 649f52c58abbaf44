/**
 The pool of executor threads.

 The main thread calls the methods; the executors' steps come in between, in
 any number and any order, before each of the main thread's queue operations.
 */
module Threads {
  import opened Options

  /** A job handed out: its number in the order of submission, and the executor whose worker id its claim recorded. */
  datatype Job = Job(number: nat, owner: nat)

  /**
   What a job left: whether it counts as processed, and whether it counted a
   failure. A job that raised left None, which is not processed.
   */
  datatype Result = Result(job: Job, processed: bool, failed: bool)

  /** Where an executor thread is in its loop. */
  datatype Phase =
    | Waiting
    | Working(job: Job)
    | Finished(job: Job, processed: bool, failed: bool)
    | Returning

  /** How many of the results count as processed. */
  function Trues(results: seq<Result>): nat {
    if results == [] then 0
    else Trues(results[..|results| - 1]) + if results[|results| - 1].processed then 1 else 0
  }

  /** And how many counted a failure. */
  function Failures(results: seq<Result>): nat {
    if results == [] then 0
    else Failures(results[..|results| - 1]) + if results[|results| - 1].failed then 1 else 0
  }

  lemma {:induction false} TruesAre(results: seq<Result>)
    ensures Trues(results) == |set k | 0 <= k < |results| && results[k].processed|
  {
    if results == [] {
    } else {
      var n := |results| - 1;
      TruesAre(results[..n]);
      var earlier := set k | 0 <= k < n && results[..n][k].processed;
      assert (set k | 0 <= k < |results| && results[k].processed) == earlier + if results[n].processed then {n} else {};
    }
  }

  lemma {:induction false} FailuresAre(results: seq<Result>)
    ensures Failures(results) == |set k | 0 <= k < |results| && results[k].failed|
  {
    if results == [] {
    } else {
      var n := |results| - 1;
      FailuresAre(results[..n]);
      var earlier := set k | 0 <= k < n && results[..n][k].failed;
      assert (set k | 0 <= k < |results| && results[k].failed) == earlier + if results[n].failed then {n} else {};
    }
  }

  function Numbers(results: seq<Result>): set<nat> {
    set k | 0 <= k < |results| :: results[k].job.number
  }

  predicate Distinct(results: seq<Result>) {
    forall j, k :: 0 <= j < k < |results| ==> results[j].job.number != results[k].job.number
  }

  function Outcome(phase: Phase): Result
    requires phase.Finished?
  {
    Result(phase.job, phase.processed, phase.failed)
  }

  lemma {:induction false} AsManyNumbers(results: seq<Result>)
    requires Distinct(results)
    ensures |Numbers(results)| == |results|
  {
    if results == [] {
    } else {
      var init, last := results[..|results| - 1], results[|results| - 1];
      AsManyNumbers(init);
      assert forall k :: 0 <= k < |init| ==> init[k] == results[k];
      forall n | n in Numbers(results) ensures n in Numbers(init) + {last.job.number} {
        var k :| 0 <= k < |results| && results[k].job.number == n;
        assert k < |init| ==> init[k].job.number == n;
      }
      forall n | n in Numbers(init) + {last.job.number} ensures n in Numbers(results) {
        if n in Numbers(init) {
          var k :| 0 <= k < |init| && init[k].job.number == n;
          assert results[k].job.number == n;
        } else {
          assert results[|results| - 1].job.number == n;
        }
      }
      assert Numbers(results) == Numbers(init) + {last.job.number};
    }
  }

  lemma {:induction false} Below(n: nat, s: set<nat>)
    requires forall x :: x in s ==> x < n
    ensures |s| <= n
    ensures |s| == n ==> forall x: nat :: x < n ==> x in s
  {
    if n == 0 {
      assert s == {};
    } else {
      Below(n - 1, s - {n - 1});
      if n - 1 in s {
        assert |s - {n - 1}| == |s| - 1;
        assert forall x :: x in s - {n - 1} ==> x in s;
      } else {
        assert s - {n - 1} == s;
      }
    }
  }

  /** As many distinct results as jobs handed out: every job's outcome is there, once. */
  lemma EveryJobOnce(results: seq<Result>, submitted: nat)
    requires Distinct(results) && |results| == submitted
    requires forall k :: 0 <= k < |results| ==> results[k].job.number < submitted
    ensures forall number: nat :: number in Numbers(results) <==> number < submitted
  {
    AsManyNumbers(results);
    Below(submitted, Numbers(results));
  }

  class ExecutorThreads {
    const count: nat
    var inboxes: seq<Option<Job>>
    var idle: seq<nat>
    var results: seq<Result>
    var phases: seq<Phase>
    /** The jobs submitted whose outcomes the main thread does not have. */
    var busy: int
    /** What the jobs that finished have added to the number of failed tasks. */
    var failed: nat
    /** Jobs handed out so far. */
    var submitted: nat
    /** How often a wait for a result will still run out of time. */
    var timeouts: nat
    /** The executors acquired and not yet released or given a job. */
    ghost var held: set<nat>
    /** The results collected so far, in order, and how many of them busy does not reflect yet. */
    ghost var collected: seq<Result>
    ghost var taken: nat

    function SlotJob(i: nat): Option<Job>
      reads `inboxes, `phases
      requires |inboxes| == |phases| == count && i < count
    {
      if inboxes[i].Some? then inboxes[i]
      else if phases[i].Working? || phases[i].Finished? then Some(phases[i].job)
      else None
    }

    /** How many of idle, held, inbox and thread have the executor. */
    ghost function Places(i: nat): nat
      reads `idle, `held, `inboxes, `phases
      requires |inboxes| == |phases| == count && i < count
    {
      (if i in idle then 1 else 0) + (if i in held then 1 else 0)
      + (if inboxes[i].Some? then 1 else 0) + (if !phases[i].Waiting? then 1 else 0)
    }

    ghost function Occupied(): set<nat>
      reads `inboxes, `phases
      requires |inboxes| == |phases| == count
    {
      set i: nat | i < count && SlotJob(i).Some?
    }

    /** Every executor is in exactly one place. */
    ghost predicate Partitioned()
      reads `idle, `held, `inboxes, `phases
    {
      && |inboxes| == |phases| == count
      && (forall k :: 0 <= k < |idle| ==> idle[k] < count)
      && (forall j, k :: 0 <= j < k < |idle| ==> idle[j] != idle[k])
      && (forall i :: i in held ==> i < count)
      && (forall i: nat :: i < count ==> Places(i) == 1)
    }

    /** The results not yet collected, after those that were. */
    ghost function Delivered(): seq<Result>
      reads `collected, `results
    {
      collected + results
    }

    /** Every job handed out is in one place, at its own executor until it is done. */
    ghost predicate Conserved()
      reads this
      requires |inboxes| == |phases| == count
    {
      && busy == |Occupied()| + |results| + taken
      && submitted == |Occupied()| + |Delivered()|
      && failed == Failures(Delivered())
      && (forall i: nat :: i < count && SlotJob(i).Some? ==>
            SlotJob(i).value.owner == i && SlotJob(i).value.number < submitted)
      && (forall i: nat, j: nat :: i < j < count && SlotJob(i).Some? && SlotJob(j).Some? ==>
            SlotJob(i).value.number != SlotJob(j).value.number)
      && (forall k :: 0 <= k < |Delivered()| ==> Delivered()[k].job.number < submitted)
      && Distinct(Delivered())
      && (forall i: nat, k :: i < count && SlotJob(i).Some? && 0 <= k < |Delivered()| ==>
            SlotJob(i).value.number != Delivered()[k].job.number)
    }

    ghost predicate Valid()
      reads this
    {
      Partitioned() && Conserved()
    }

    constructor (count: nat)
      requires count >= 1
      ensures Valid() && this.count == count && |idle| == count
      ensures busy == 0 && submitted == 0 && held == {} && collected == [] && taken == 0
    {
      this.count := count;
      inboxes := seq(count, _ => None);
      phases := seq(count, _ => Waiting);
      idle := seq(count, i => i);
      results := [];
      busy, submitted, failed := 0, 0, 0;
      timeouts := *;
      held, collected, taken := {}, [], 0;
      new;
      assert Occupied() == {};
      forall i: nat | i < count ensures Places(i) == 1 {
        assert idle[i] == i;
      }
    }

    /** What executors cannot change, and what they only add to. */
    twostate predicate OnlyExecutors()
      reads this
    {
      && held == old(held) && submitted == old(submitted) && collected == old(collected) && taken == old(taken)
      && busy == old(busy) && timeouts == old(timeouts)
      && old(idle) <= idle && old(results) <= results
    }

    /** One step of an executor's loop. */
    method Step(i: nat)
      requires Valid() && i < count
      modifies this
      ensures Valid() && OnlyExecutors()
      ensures old(phases)[i].Waiting? && old(inboxes)[i].Some? ==> phases[i] == Working(old(inboxes)[i].value)
      ensures old(phases)[i].Working? ==> phases[i].Finished?
      ensures old(phases)[i].Finished? ==> |results| == |old(results)| + 1
    {
      match phases[i]
      case Waiting =>
        if inboxes[i].Some? {
          Take(i);
        }
      case Working(job) =>
        var processed: bool := *;
        var failed: bool := *;
        Finish(i, processed, failed);
      case Finished(job, processed, failed) =>
        Deliver(i);
      case Returning =>
        PutBack(i);
    }

    method Take(i: nat)
      requires Valid() && i < count && phases[i].Waiting? && inboxes[i].Some?
      modifies this
      ensures Valid() && OnlyExecutors()
      ensures phases[i] == Working(old(inboxes)[i].value)
    {
      ghost var before := Occupied();
      phases, inboxes := phases[i := Working(inboxes[i].value)], inboxes[i := None];
      assert forall j: nat :: j < count ==> SlotJob(j) == old(SlotJob(j));
      assert Occupied() == before;
      assert forall j: nat :: j < count ==> Places(j) == old(Places(j));
    }

    method Finish(i: nat, processed: bool, failed: bool)
      requires Valid() && i < count && phases[i].Working?
      modifies this
      ensures Valid() && OnlyExecutors()
      ensures phases[i] == Finished(old(phases)[i].job, processed, failed)
    {
      ghost var before := Occupied();
      phases := phases[i := Finished(phases[i].job, processed, failed)];
      assert forall j: nat :: j < count ==> SlotJob(j) == old(SlotJob(j));
      assert Occupied() == before;
      assert forall j: nat :: j < count ==> Places(j) == old(Places(j));
    }

    /** The result is put before the executor is idle again. */
    method Deliver(i: nat)
      requires Valid() && i < count && phases[i].Finished?
      modifies this
      ensures Valid() && OnlyExecutors()
      ensures results == old(results) + [Outcome(old(phases)[i])]
      ensures failed == old(failed) + if old(phases)[i].failed then 1 else 0
      ensures phases[i].Returning?
    {
      assert Places(i) == 1;
      results := results + [Outcome(phases[i])];
      failed := failed + if phases[i].failed then 1 else 0;
      phases := phases[i := Returning];
      DeliveredOnce(i);
      assert forall j: nat :: j < count ==> Places(j) == old(Places(j));
    }

    /** The job leaves its executor as its outcome joins the results. */
    twostate lemma DeliveredOnce(i: nat)
      requires old(Valid()) && i < count && old(phases)[i].Finished?
      requires inboxes == old(inboxes) && phases == old(phases)[i := Returning]
      requires results == old(results) + [Outcome(old(phases)[i])]
      requires failed == old(failed) + if old(phases)[i].failed then 1 else 0
      requires busy == old(busy) && submitted == old(submitted) && collected == old(collected) && taken == old(taken)
      ensures Conserved()
    {
      var result := Outcome(old(phases)[i]);
      assert old(Places(i)) == 1;
      assert old(SlotJob(i)) == Some(result.job);
      assert forall j: nat :: j < count && j != i ==> SlotJob(j) == old(SlotJob(j));
      assert SlotJob(i).None?;
      assert i in old(Occupied()) && Occupied() == old(Occupied()) - {i};
      assert |Occupied()| == |old(Occupied())| - 1;
      var delivered := old(Delivered());
      assert Delivered() == delivered + [result];
      assert (delivered + [result])[..|delivered|] == delivered;
      assert forall k :: 0 <= k < |delivered| ==> delivered[k].job.number != result.job.number;
      assert forall k :: 0 <= k < |Delivered()| ==> Delivered()[k] == if k < |delivered| then delivered[k] else result;
    }

    method PutBack(i: nat)
      requires Valid() && i < count && phases[i].Returning?
      modifies this
      ensures Valid() && OnlyExecutors()
    {
      ghost var before := Occupied();
      assert Places(i) == 1;
      phases := phases[i := Waiting];
      idle := idle + [i];
      assert forall j: nat :: j < count ==> SlotJob(j) == old(SlotJob(j));
      assert Occupied() == before;
      assert forall j: nat :: j < count ==> Places(j) == old(Places(j));
    }

    /** The executors take any number of steps, in any order. */
    method Interleave()
      requires Valid()
      modifies this
      ensures Valid() && OnlyExecutors() && old(Delivered()) <= Delivered()
    {
      var steps: nat := *;
      while steps > 0 && count > 0
        invariant Valid() && OnlyExecutors()
      {
        var i: nat :| i < count;
        Step(i);
        steps := steps - 1;
      }
    }

    /** The length of the idle queue, which only the executors can make longer from here on. */
    method IdleCount() returns (n: nat)
      requires Valid()
      modifies this
      ensures Valid() && OnlyExecutors() && n == |idle|
    {
      Interleave();
      n := |idle|;
    }

    /** The first of the idle queue is held from here on; None only if the queue was empty. */
    method Acquire() returns (index: Option<nat>)
      requires Valid()
      modifies this
      ensures Valid()
      ensures submitted == old(submitted) && collected == old(collected) && taken == old(taken)
      ensures busy == old(busy) && timeouts == old(timeouts)
      ensures old(idle) != [] ==> index.Some?
      ensures index.Some? ==> index.value < count && index.value !in old(held) && held == old(held) + {index.value}
      ensures index.None? ==> held == old(held) && idle == []
      ensures |idle| + 1 >= |old(idle)|
    {
      Interleave();
      if idle == [] {
        return None;
      }
      label before:
      var i := idle[0];
      assert Places(i) == 1;
      idle := idle[1..];
      held := held + {i};
      assert forall j: nat :: j < count ==> SlotJob(j) == old@before(SlotJob(j));
      assert Occupied() == old@before(Occupied());
      assert forall j :: j in old@before(idle) <==> j in idle || j == i;
      assert forall j: nat :: j < count ==> Places(j) == old@before(Places(j));
      return Some(i);
    }

    /** An executor that is held, and has no job, is idle again. */
    method Release(i: nat)
      requires Valid() && i in held
      modifies this
      ensures Valid()
      ensures submitted == old(submitted) && collected == old(collected) && taken == old(taken)
      ensures busy == old(busy) && timeouts == old(timeouts)
      ensures held == old(held) - {i} && |idle| >= |old(idle)| + 1
    {
      Interleave();
      label before:
      assert Places(i) == 1;
      idle := idle + [i];
      held := held - {i};
      assert forall j: nat :: j < count ==> SlotJob(j) == old@before(SlotJob(j));
      assert Occupied() == old@before(Occupied());
      assert forall j: nat :: j < count ==> Places(j) == old@before(Places(j));
    }

    /** Hands a job to an executor that is held. Its inbox, which has room for one, is empty: the put never waits. */
    method Submit(i: nat)
      requires Valid() && i in held
      modifies this
      ensures Valid()
      ensures submitted == old(submitted) + 1 && busy == old(busy) + 1
      ensures collected == old(collected) && taken == old(taken) && timeouts == old(timeouts)
      ensures held == old(held) - {i} && |idle| >= |old(idle)|
      ensures inboxes[i] == Some(Job(old(submitted), i))
    {
      Interleave();
      Put(i);
    }

    method Put(i: nat)
      requires Valid() && i in held
      modifies `inboxes, `busy, `submitted, `held
      ensures Valid()
      ensures submitted == old(submitted) + 1 && busy == old(busy) + 1 && held == old(held) - {i}
      ensures old(inboxes)[i].None? && inboxes == old(inboxes)[i := Some(Job(old(submitted), i))]
    {
      assert Places(i) == 1;
      busy := busy + 1;
      inboxes := inboxes[i := Some(Job(submitted, i))];
      submitted := submitted + 1;
      held := held - {i};
      OneMoreOut(i);
      assert forall j: nat :: j < count ==> Places(j) == old(Places(j));
    }

    /** The new job is the one of the executor that got it, and has a number of its own. */
    twostate lemma OneMoreOut(i: nat)
      requires old(Valid()) && i < count && i in old(held)
      requires inboxes == old(inboxes)[i := Some(Job(old(submitted), i))] && phases == old(phases)
      requires busy == old(busy) + 1 && submitted == old(submitted) + 1 && failed == old(failed)
      requires results == old(results) && collected == old(collected) && taken == old(taken)
      ensures old(inboxes)[i].None? && Conserved()
    {
      hide Distinct, Failures;
      assert old(Places(i)) == 1;
      assert old(SlotJob(i)).None? && i !in old(Occupied());
      assert forall j: nat :: j < count && j != i ==> SlotJob(j) == old(SlotJob(j));
      assert Occupied() == old(Occupied()) + {i};
      assert |Occupied()| == |old(Occupied())| + 1;
      assert Delivered() == old(Delivered());
    }

    /** While a job is out and no result is waiting, some executor can bring one. */
    method AwaitResult()
      requires Valid() && busy > taken
      modifies this
      ensures Valid() && OnlyExecutors() && results != [] && old(Delivered()) <= Delivered()
    {
      if results == [] {
        assert Occupied() != {};
        var i: nat :| i < count && SlotJob(i).Some?;
        assert Places(i) == 1;
        if phases[i].Waiting? {
          Step(i);
        }
        if phases[i].Working? {
          Step(i);
        }
        Step(i);
      }
    }

    /** The next result, taken off the queue. */
    method TakeResult() returns (processed: bool)
      requires Valid() && results != []
      modifies this
      ensures Valid()
      ensures held == old(held) && submitted == old(submitted) && busy == old(busy) && timeouts == old(timeouts)
      ensures idle == old(idle) && results == old(results)[1..] && taken == old(taken) + 1
      ensures collected == old(collected) + [old(results)[0]] && processed == old(results)[0].processed
      ensures Delivered() == old(Delivered())
    {
      processed := results[0].processed;
      collected := collected + [results[0]];
      results := results[1..];
      taken := taken + 1;
      assert Delivered() == old(Delivered());
    }

    lemma AllTaken()
      requires results == []
      ensures Delivered() == collected
    {
    }

    /** The jobs whose results were taken are no longer out. */
    method Settle(n: nat)
      requires Valid() && taken == n
      modifies this
      ensures Valid() && taken == 0 && busy == old(busy) - n
      ensures held == old(held) && submitted == old(submitted) && timeouts == old(timeouts)
      ensures idle == old(idle) && collected == old(collected) && results == old(results)
    {
      busy := busy - n;
      taken := 0;
    }

    /** Waits for the queue not to be empty, or for time to run out. */
    method WaitForFirst() returns (late: bool)
      requires Valid() && busy > taken
      modifies this
      ensures Valid() && busy == old(busy) && taken == old(taken)
      ensures held == old(held) && submitted == old(submitted) && collected == old(collected)
      ensures |idle| >= |old(idle)| && old(Delivered()) <= Delivered()
      ensures if late then results == [] && timeouts < old(timeouts) else results != [] && timeouts == old(timeouts)
    {
      hide Partitioned, Distinct, Failures, Occupied, SlotJob, Places;
      Interleave();
      late := *;
      late := late && results == [] && timeouts > 0;
      if late {
        timeouts := timeouts - 1;
      } else if results == [] {
        AwaitResult();
      }
    }

    /**
     Takes the results off the queue until it is empty. With wait, an empty
     queue is not the end while a job is out, unless time runs out first. What
     is in the queue at the call is taken in any case.
     */
    method Collect(wait: bool) returns (outcomes: seq<bool>)
      requires Valid() && taken == 0
      modifies this
      ensures Valid() && taken == 0
      ensures held == old(held) && submitted == old(submitted)
      ensures busy == old(busy) - |outcomes|
      ensures old(Delivered()) <= collected && old(collected) <= collected
      ensures |collected| == |old(collected)| + |outcomes|
      ensures forall k :: 0 <= k < |outcomes| ==> outcomes[k] == collected[|old(collected)| + k].processed
      ensures |idle| >= |old(idle)|
      ensures timeouts <= old(timeouts)
      ensures wait && old(busy) > 0 && outcomes == [] ==> timeouts < old(timeouts)
    {
      hide Partitioned, Distinct, Delivered, Failures, Occupied, SlotJob, Places;
      outcomes := [];
      if wait && busy > 0 {
        var late := WaitForFirst();
        if late {
          AllTaken();
          return;
        }
      }
      while true
        invariant Valid() && taken == |outcomes|
        invariant held == old(held) && submitted == old(submitted) && busy == old(busy)
        invariant old(Delivered()) <= Delivered() && old(collected) <= collected
        invariant |collected| == |old(collected)| + |outcomes|
        invariant forall k :: 0 <= k < |outcomes| ==> outcomes[k] == collected[|old(collected)| + k].processed
        invariant |idle| >= |old(idle)| && timeouts <= old(timeouts)
        invariant wait && old(busy) > 0 && outcomes == [] ==> timeouts < old(timeouts) || results != []
        decreases busy - |outcomes|
      {
        Interleave();
        if results == [] {
          break;
        }
        var processed := TakeResult();
        outcomes := outcomes + [processed];
      }
      AllTaken();
      Settle(|outcomes|);
    }
  }
}
