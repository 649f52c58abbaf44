# django-database-task, modelled in Dafny

django-database-task runs background tasks that are rows of one database table.
This project models the parts of the package where several parties work on
shared state, and proves what they keep:

* **The task protocol** (`Rows`, `Protocol`, and the modules that state theorems
  about it). Any number of workers fetch, claim, run, crash, retry, recover and
  purge against one table with a clock. The SELECT and the UPDATE of every
  transaction are separate steps; a row lock is a guard on the steps of the
  others, so one transition system covers databases with and without row locks.
  A deployment (`Config`) says whether there are row locks, whether a purge batch
  is one transaction, whether failed tasks are retried, whether the clock is read
  at the step that uses it, the age recovery is run with, and a deadline by which
  live runs write their result, if there is one. Theorems range over all runs of
  a deployment, and the main ones say *exactly which deployments* have a property:
  where it fails, a run that breaks it is constructed.
* **The backend and the executor** (`Backend`, `Executor`, `Maintenance`,
  `Linking`): the methods that change rows in place, proved against the row
  functions of `Rows`. Each of the backend's transactions is linked to the
  protocol's steps, with a stale copy, at a later time or over a deleted row.
* **The worker command with its executor threads** (`Threads`, `WorkerLoop`): the
  pool's queues are fields, and before each queue operation of the main thread
  the executors take any number of steps in any order.
* **The worker supervisor** (`Supervisor`, `Slots`, `Reports`, `Backoff`,
  `ExitCodes`): slots, restart back-off, scaling, failure reports and shutdown. Children exit when they like,
  time passes, and a shutdown may be requested between any two statements.
* **The LISTEN/NOTIFY broker** (`Broker`): the receive loop and its connection.

`dafny verify dfyconfig.toml` checks the whole project. The statements are about
the model; the program itself was not executed.

## Where the code and its comments differ

* A status that is not completed is refused because deleting such a task would
  lose work (`executor.py:588-589`), but that is checked of the request only. The
  SELECT and the DELETE of a batch are separate statements
  (`executor.py:647-652`) and the DELETE does not look at the status again, so a
  failed task retried in between is deleted while READY, or while it runs. Tasks are conserved
  exactly where a batch is atomic or failed tasks are not retried
  (`ConservesExactlyWhenPurgeSafe`, `OnOwnRowExactlyWhenTimedAndPurgeSafe`).
* `_claim_task` reads the clock before its transaction (`backends.py:595-597`), and
  the finishing writes save a reading taken before the save. The recorded times
  are in order exactly where readings are prompt, or runs never overlap and no
  retry can slip between a claim's reading and its write
  (`OrderedExactlyWhenPromptOrPatient`).
* `max_attempts` is documented as the number of workers a task is handed to (`executor.py:371-372`).
  Without row locks, several recoveries of one lost run each requeue it, since the
  UPDATE looks at the status and not at the age (`executor.py:462-476`): the bound
  holds exactly under row locks, or when it is 1 (`CappedExactlyUnderLocksOrAtOne`).
* `errors_json` is rebuilt from the worker's own copy (`backends.py:572-587`), so a
  stale copy, or a second run of the same task, drops recorded errors
  (`ErrorsKeptExactlyWhenTimedWithoutRetries`).

## Model

| member | source | states |
|---|---|---|
| Exclusion.ExclusiveExactlyWhenTimed | django_database_task/executor.py:364-366 | no reachable state has two live workers on one task if and only if there are row locks, live runs meet a deadline, and recovery is no younger than it |
| Exclusion.TimedInvHolds | django_database_task/backends.py:591-633 | over any run of such a deployment: transactions see the row they read, live workers are on different tasks, and each owns its row, with its stamp and its worker id last |
| Exclusion.StillOwnsStep | django_database_task/executor.py:388-440 | no step of another worker (late finish, recovery, retry, purge, claim) takes the row from a live worker |
| Exclusion.OverlapWithoutLocks | django_database_task/executor.py:462-476 | without locks, two recoveries that selected one lost run let two workers run the task, whatever the timing |
| Exclusion.OverlapWithoutMargin | django_database_task/executor.py:364-366 | with too small an age, or no deadline, a run still going is requeued and started again, locks or not |
| Conservation.OnOwnRowExactlyWhenTimedAndPurgeSafe | django_database_task/backends.py:507-517 | in all runs every running worker's row is stored and RUNNING, if and only if timing and purging are safe |
| Conservation.FinishLandsOnOwnRow | django_database_task/backends.py:507-517 | and then the row carries the worker's stamp and, last of all, its worker id, and the deadline has not passed |
| Conservation.PurgedWhileRunning | django_database_task/executor.py:641-652 | a purge that was overtaken by a retry can delete the row of a task that is running |
| Conservation.ConservesExactlyWhenPurgeSafe | django_database_task/executor.py:641-652 | every task ever enqueued is stored or was purged while completed, if and only if purge batches are atomic or failed tasks are not retried |
| Conservation.StoredOrPurged | django_database_task/executor.py:585-592 | the same over any stretch of a run, from any state that keeps the invariant |
| Conservation.RetryInsidePurge | django_database_task/executor.py:330-333 | otherwise a purge can get to delete a task that is READY |
| Accounting.ClaimsArePaidFor | django_database_task/backends.py:597-626 | from any state, in every deployment: claims plus a READY row are paid for by returns to READY and the row at the start |
| Accounting.AtMostOneRunPerReturn | django_database_task/backends.py:612-626 | from an empty table: claims plus a READY row never exceed the returns to READY plus one |
| Accounting.OneWinner | django_database_task/backends.py:359-385 | any number of workers that hold one READY row, with no return in between, make at most one claim |
| Locking.LockInvHolds | django_database_task/backends.py:597-603 | under row locks, transactions are on different rows and each still sees the row it read |
| Locking.RecordedIsHistory | django_database_task/backends.py:606-624 | under row locks, over any stretch of a run, the recorded worker ids grow by exactly the claims' worker ids in order |
| Histories.WorkersKeptExactlyUnderLocks | django_database_task/executor.py:452-476 | `worker_ids_json` is the ordered history of successful claims if and only if there are row locks |
| Histories.ClaimInsideClaim | django_database_task/backends.py:597-624 | without locks, a claim can write back a list from before another worker's claim |
| Histories.ErrorsKeptExactlyWhenTimedWithoutRetries | django_database_task/backends.py:572-587 | no step removes a recorded error if and only if runs never overlap and failed tasks are not retried |
| Histories.StaleCopyRuns | django_database_task/executor.py:330-333 | with retries, a worker can come to run a task with a copy from before its error was recorded |
| Histories.OverlapDropsError | django_database_task/backends.py:572-587 | where runs can overlap, the second of two failing runs overwrites the error of the first |
| Attempts.AttemptsAreCapped | django_database_task/executor.py:443-449 | under row locks, with `max_attempts` = k >= 1 on every recovery, a task is claimed at most k times plus once per retry |
| Attempts.CappedExactlyUnderLocksOrAtOne | django_database_task/executor.py:425-432 | that bound holds in all runs if and only if there are row locks or k is 1 |
| Attempts.TooManyAttempts | django_database_task/executor.py:462-476 | otherwise k recoveries of one lost run lead to k + 1 claims without a retry |
| Attempts.AllClaimsAreBounded | django_database_task/executor.py:443-449 | all the claims of finitely many tasks number at most k per task plus their retries: recovery cannot requeue for ever |
| Timestamps.OrderedExactlyWhenPromptOrPatient | django_database_task/backends.py:595-623 | in every reachable state the times are set as the status says and started <= last attempted <= finished, if and only if readings are prompt, or runs never overlap and no claim can be overtaken by a retry |
| Timestamps.TimesAreOrdered | django_database_task/backends.py:583-588 | with prompt readings this holds with or without locks, late finishes included |
| Timestamps.PatientInvHolds | django_database_task/backends.py:595-623 | with readings from before the transaction, under safe timing without retries, it holds all the same |
| Timestamps.OvertakenClaim | django_database_task/backends.py:595-597 | a claim whose clock reading predates a run and a retry of the task puts the times out of order |
| Timestamps.BackdatedGivingUp | django_database_task/executor.py:495-506 | without locks, a recovery can give up, with an earlier reading, on a run that began since |
| Timestamps.BackdatedFinish | django_database_task/backends.py:507-517 | a late finish can carry a time before the start of the run that replaced it |
| Linking.ClaimIsARun | django_database_task/backends.py:591-633 | claiming with any copy, fetched at any time, is a run of the protocol, whether or not the row is still READY or stored |
| Linking.FinishIsARun | django_database_task/backends.py:427-559 | and so is the end of a run, for each way it ends, at any later time and over whatever the row has become |
| Linking.SelectIsARun | django_database_task/executor.py:308-333 | and selecting a task by its id, reset for a retry or not |
| Linking.BatchIsARun | django_database_task/executor.py:414-433 | one recovery transaction is a run of several recoverers that all select before any updates, and leaves each task recovered |
| Linking.PurgeIsARun | django_database_task/executor.py:647-652 | one batch of a purge is a SELECT and a DELETE of the protocol |
| Linking.ClaimAlongside | django_database_task/backends.py:591-633 | the table's claim leaves the protocol's table, and in the caller's hands the copy the protocol's worker goes on with |
| Linking.RunAlongside | django_database_task/backends.py:427-559 | the table's run of a claimed task leaves the protocol's table |
| Linking.SelectAlongside | django_database_task/executor.py:308-333 | selecting by id leaves the protocol's table, and the copy the protocol's worker holds |
| Linking.RecoverAlongside | django_database_task/executor.py:414-433 | a recovery transaction leaves the protocol's table |
| Linking.EnqueueAlongside | django_database_task/backends.py:213-224 | what `enqueue` writes leaves the protocol's table; of any queue, the task that was first to be fetched still is, unless the new one is due there and more urgent: then that one is |
| Executor.NewTaskWaitsItsTurn | django_database_task/executor.py:68-85 | how one more row, enqueued last, changes the eligible tasks and which of them may be fetched first |
| Backend.TaskTable.ClaimTask | django_database_task/backends.py:591-633 | claims exactly when the stored row is READY; row and copy take the stored list and start time; nothing is written otherwise |
| Backend.TaskTable.RecordError | django_database_task/backends.py:561-589 | FAILED with the error after the copy's errors, whatever the row had become; a deleted row cannot be saved |
| Backend.TaskTable.RunClaimedTask | django_database_task/backends.py:427-559 | the row of a finished run for each outcome, a receiver that raises after the success was saved included |
| Backend.TaskTable.RunTask | django_database_task/backends.py:387-425 | runs exactly when the stored row is READY, and writes nothing when it is not |
| Executor.FetchTask | django_database_task/executor.py:68-85 | none exactly when no row is READY, of the backend, of the queue if one is asked for, and due; otherwise such a row, of a priority none of them exceeds and, among those of its priority, enqueued no later |
| Executor.ProcessOneTask | django_database_task/executor.py:113-123 | passes over tasks others claim in between, ends, runs one that was first, and reports none only when nothing is pending |
| Executor.ProcessTasks | django_database_task/executor.py:126-187 | every task is run here once, taken by another worker, or untouched; those run are in the order of falling priority, then of `enqueued_at`, and before all that is left in the same order; at most `max_tasks`, and min(k, n) of them when alone and not stopped |
| Executor.DrainOrderIsUnique | django_database_task/executor.py:82-83 | if no two pending rows agree in both priority and `enqueued_at`, any two drains run the same tasks in the same places: the order is the sorted one |
| Executor.SelectById | django_database_task/executor.py:305-333 | takes exactly a READY task, or a FAILED one if retries are allowed, which it resets |
| Executor.RunTaskById | django_database_task/executor.py:299-336 | not found, not executable, taken by another worker in between, and run, each exactly when it applies; a task that is run keeps its earlier errors and worker ids |
| Maintenance.RequeueStaleTasks | django_database_task/executor.py:339-440 | row by row: one that is RUNNING, last attempted before the cutoff and of the queue and backend asked for is failed with the lost worker recorded, or back in READY and listed, as the attempts say; no other row changes; found, requeued and failed are the numbers of those rows, the same for every batch size >= 1 and for a dry run, which changes nothing |
| Maintenance.RecoverInBatches | django_database_task/executor.py:411-440 | the batch loop, against the set of rows stale at the start |
| Maintenance.RecoverBatch | django_database_task/executor.py:414-433 | one transaction: rows, counts and notified ids are those of recovering its tasks one after another |
| Maintenance.RecoverAllRows | django_database_task/executor.py:414-433 | in whatever order, each task ends up as its own row asks for and no other row changes |
| Maintenance.RecoverAllLists | django_database_task/executor.py:429-438 | the broker is told of exactly the requeued tasks, once each |
| Maintenance.SelectBatch | django_database_task/executor.py:402-417 | up to n of the stale tasks, those last attempted first |
| Maintenance.RequeueTask | django_database_task/executor.py:452-476 | a row still RUNNING goes back to READY and keeps its worker ids and errors; any other is untouched |
| Maintenance.GiveUpOnTask | django_database_task/executor.py:479-506 | a row still RUNNING fails with the lost worker recorded after the copy's errors; any other is untouched |
| Maintenance.DryRun | django_database_task/executor.py:400-409 | the counts of the tasks that are stale |
| Maintenance.CountsInFields | django_database_task/executor.py:388-398 | what these counts are, in the rows' own fields |
| Maintenance.SummaryAddsUp | django_database_task/executor.py:443-449 | found = requeued + failed; nothing is requeued with `mark_failed`, nothing failed without it and without a limit |
| Maintenance.PurgeCompletedTasks | django_database_task/executor.py:538-599 | errors exactly for a negative age, an empty batch or a status that is not completed; otherwise deletes exactly the rows of the statuses, the path and the backend asked for that finished more than that many days ago, and returns their number, as the dry run does |
| Maintenance.DeleteInBatches | django_database_task/executor.py:641-652 | ends for every batch size >= 1 with exactly the matching rows gone and counted |
| Threads.ExecutorThreads.Step | django_database_task/threads.py:133-161 | whatever an executor does next keeps the pool sound: each executor in one place, each job in one place |
| Threads.ExecutorThreads.Deliver | django_database_task/threads.py:158-159 | the outcome is queued before the executor is idle again |
| Threads.ExecutorThreads.Acquire | django_database_task/threads.py:93-104 | none only if no executor was idle; otherwise one nobody held |
| Threads.ExecutorThreads.Release | django_database_task/threads.py:106-108 | the executor is idle again, and no other is affected |
| Threads.ExecutorThreads.Put | django_database_task/threads.py:110-113 | the inbox of a held executor is empty, so that putting a job there never waits; one more job is out |
| Threads.ExecutorThreads.Submit | django_database_task/threads.py:110-113 | the same with the executors' steps in between: the job is in its executor's inbox |
| Threads.ExecutorThreads.AwaitResult | django_database_task/threads.py:125-126 | while a job is out and no result waits, some executor can bring one |
| Threads.ExecutorThreads.Collect | django_database_task/threads.py:115-131 | takes results in order, all of those that wait at the call, and `busy` falls by as many |
| Threads.EveryJobOnce | django_database_task/threads.py:115-131 | as many distinct outcomes as jobs: each job's outcome is there, exactly once |
| WorkerLoop.Command.ProcessTasks | django_database_task/management/commands/run_database_tasks.py:488-648 | never more than `max_tasks`, strictly below it at each look at the flag; returns for one of three reasons, which then holds: a shutdown, the cap, or, when not continuous, a last look at each source that came to nothing; then no job is out, every message received and task claimed was handed out, its outcome collected once, and the count is the inline counts plus the true outcomes |
| WorkerLoop.Command.Work | django_database_task/management/commands/run_database_tasks.py:329-350 | the exit code: the one for failures if any failed here or in the executors, else the one for idleness if none was processed, else 0 |
| WorkerLoop.Command.Pass | django_database_task/management/commands/run_database_tasks.py:551-560 | a pass collects what waits, and looks at a source if an executor is idle |
| WorkerLoop.Command.LookForWork | django_database_task/management/commands/run_database_tasks.py:560-636 | the order of broker, table, waiting and their exits keeps the count and the cap; each source the worker uses gets its look, the table when nothing came from the broker |
| WorkerLoop.Command.Remaining | django_database_task/management/commands/run_database_tasks.py:532-539 | the least of the messages asked for, the idle executors and what the cap leaves |
| WorkerLoop.Command.ReceiveAndRun | django_database_task/management/commands/run_database_tasks.py:752-817 | with executors every message received is handed to one that was idle; inline it counts the runs, and every message is acknowledged or given back; nothing is received when nothing may be started |
| WorkerLoop.Command.RunBrokerMessage | django_database_task/management/commands/run_database_tasks.py:819-860 | counted exactly when the task ran; given back exactly when it could not be run, and acknowledged otherwise; failures of both kinds are counted |
| WorkerLoop.Command.RunDatabaseTask | django_database_task/management/commands/run_database_tasks.py:657-680 | counted when the task ran or could not be run, not when another worker has it |
| WorkerLoop.Command.DispatchDatabaseTask | django_database_task/management/commands/run_database_tasks.py:682-720 | a won claim is a job handed out, a lost one gives the executor back, one that raised is counted and failed here; no executor stays held |
| WorkerLoop.Command.CollectOutcomes | django_database_task/management/commands/run_database_tasks.py:524-530 | adds exactly the true outcomes among those collected |
| WorkerLoop.Command.AllCollected | django_database_task/management/commands/run_database_tasks.py:638-642 | once no job is out, the collected outcomes are those of the jobs submitted, one each |
| ExitCodes.CombinesExactlyWhenToldApart | django_database_task/supervisor.py:157-180 | the supervisor exits as one worker doing all the work would, for every nonempty list of workers, if and only if the two codes differ or are 0 |
| ExitCodes.CombineIsTotal | django_database_task/management/commands/run_database_tasks.py:447-462 | the combined code of the workers' codes is the code of their summed work |
| ExitCodes.CombinedMeans | django_database_task/supervisor.py:157-180 | and that is the one for failures if any worker counted one, else the one for idleness if none processed a task, else 0 |
| ExitCodes.OrderlyCombined | django_database_task/supervisor.py:176-180 | of codes that are all normal: one failure is enough, and idleness takes all |
| ExitCodes.AbnormalIsReported | django_database_task/supervisor.py:171-175 | any code that is none of the three makes the result nonzero, and the result is that of the first such code |
| ExitCodes.FirstAbnormal | django_database_task/supervisor.py:172-175 | 0 exactly when all codes are normal, otherwise one of the codes that are not |
| Backoff.FailuresTakeTime | django_database_task/supervisor.py:559-564 | n failures to start in a row take at least the sum of the first n delays, up to the next restart |
| Backoff.DelayGrows | django_database_task/supervisor.py:559-564 | delays do not shrink while failures go on, and do not pass the maximum |
| Backoff.DelayDoubles | django_database_task/supervisor.py:559-564 | the first delay is `backoff_start`, each further failure doubles it, up to `backoff_max` |
| Backoff.DefaultDelaySum | django_database_task/supervisor.py:51-55 | with the defaults the first n delays add up to 31 + 30(n - 5) seconds for n >= 5 |
| Slots.FailingRestartsTakeTime | django_database_task/supervisor.py:433-492 | of any running slot the supervisor keeps: its last n failures kept its process waiting for those delays |
| Slots.FitMeans | django_database_task/supervisor.py:392-396 | indices are unique and increasing in list order, and every slot is sound: a running one has no restart scheduled, and `failures` is its trailing run of early nonzero exits; it has a pid exactly if it was ever started |
| Slots.RunningIndicesAre | django_database_task/supervisor.py:371-373 | the indices that are polled, signalled or killed are those of all slots with a process, once each |
| Slots.ActiveIs | django_database_task/supervisor.py:413 | the number to keep is that of the slots not asked to stop |
| Supervisor.WorkerSupervisor.Spawn | django_database_task/supervisor.py:443-463 | only a slot that is due; the start is counted as a restart exactly if the slot was started before, and as one after an abnormal exit exactly if that is so; false exactly if the process could not be started |
| Supervisor.WorkerSupervisor.StartDue | django_database_task/supervisor.py:433-441 | no slot that was due is left waiting, and no other is touched |
| Supervisor.WorkerSupervisor.RestartDelay | django_database_task/supervisor.py:559-564 | forgets the failures after a clean or a long run, else counts one more and waits as the policy says |
| Supervisor.WorkerSupervisor.RecordExit | django_database_task/supervisor.py:470-482 | the code that is recorded, which differs from the one found only for a process that was asked to stop, and all that it changes in the slot |
| Supervisor.WorkerSupervisor.Dispose | django_database_task/supervisor.py:484-491 | drops a retiring slot, leaves a stopped one, and schedules any other with the delay its exit calls for |
| Supervisor.WorkerSupervisor.Reap | django_database_task/supervisor.py:465-492 | polls every running process once, in order, and loses none: spawns = exit codes + running; the slots with a process afterwards are those found alive |
| Reports.ReportsAreTrue | django_database_task/supervisor.py:497-557 | of all reports of a run: failures and recoveries alternate, a failure first; at a failure every slot to keep has failures and no process that ran `stable_after`; a recovery names a slot to keep whose process ran that long, or exited with 0 no sooner than the failure before |
| Reports.NewsIsTrue | django_database_task/supervisor.py:520-557 | what there is to report at a look keeps all reports true |
| Supervisor.WorkerSupervisor.CheckFailing | django_database_task/supervisor.py:509-557 | reports a failure, with the number of slots to keep, or a recovery exactly when the slots' fields say so, and keeps what it saw |
| Supervisor.WorkerSupervisor.RetireNewest | django_database_task/supervisor.py:412-431 | the newest slot to keep is signalled, or dropped when it has no process, unless it is the last |
| Supervisor.WorkerSupervisor.ApplyScaling | django_database_task/supervisor.py:398-410 | takes the number to keep from a to max(1, a + p) for a net request p, if no other arrives meanwhile; if others do, the number kept, what is pending and what was refused still add up |
| Supervisor.WorkerSupervisor.AnyBusy | django_database_task/supervisor.py:386-390 | in restart mode nothing runs or is due only after a shutdown was requested |
| Supervisor.WorkerSupervisor.Tick | django_database_task/supervisor.py:377-390 | a pass applies the scaling that was asked for before it, whatever that is, polls every running process once, reports what there is to report of the slots as they are after that and before any restart, and leaves no slot waiting that was due, unless a process could not be started |
| Supervisor.WorkerSupervisor.Supervise | django_database_task/supervisor.py:377-390 | over all passes: processes and exits are accounted for, slots tended, requests for workers add up, and reports stay and are true; it gives up exactly if a process could not be started; otherwise it returns on a shutdown or, without restarts, once every slot was started and is done |
| Supervisor.WorkerSupervisor.StopWorkers | django_database_task/supervisor.py:568-600 | every running worker is signalled; none is left; workers are killed only without grace, on a second request, or past the deadline, and it goes on waiting only with grace and before the deadline |
| Supervisor.WorkerSupervisor.KillWorkers | django_database_task/supervisor.py:602-629 | every running worker is killed, once, and its code recorded as it is |
| ExitCodes.CrashIsReported | django_database_task/supervisor.py:157-180 | if any process crashed, the combined code is not 0; one that ended on a signal it was not asked to stop by did crash |
| Supervisor.WorkerSupervisor.AllOnRecord | django_database_task/supervisor.py:642-669 | once no worker runs, every process started has its exit code recorded, after a crash the exit code is not 0, and no process is excused that had no reason to stop |
| Supervisor.WorkerSupervisor.Run | django_database_task/supervisor.py:316-341 | however it ends: no worker running, as many exit codes as processes started, a crash reported; each process that counts as asked to stop was told to retire or ended after the first request; it raises only if a process could not be started |
| Broker.AcceptedAre | django_database_task/postgres/broker.py:290-327 | the messages are exactly those of the payloads that name a task, in their field or as all of their text, and, for a worker with a queue, that queue |
| Broker.AcceptedInOrder | django_database_task/postgres/broker.py:172-183 | in the order of the payloads, once each |
| Broker.PostgresNotifyBroker.Drain | django_database_task/postgres/broker.py:264-279 | takes notifications one at a time, stops at the message that makes enough, and leaves the rest |
| Broker.PostgresNotifyBroker.Receive | django_database_task/postgres/broker.py:160-195 | over any calls on one connection the messages returned are the accepted ones among the notifications taken, which are a prefix of those delivered, in order; at most `max_messages` a call, and as many if any notification is left; a call that raises took none that is accepted, and exactly what is pending is dropped when the connection is replaced; the messages of a call are those of all payloads newly taken that name a task and, for a worker with a queue, that queue |

## Left out

* Task functions, JSON, imports, signals and log records: a run returns, raises, or returns and has a `task_finished` receiver raise. A receiver that raises after a failure, and `BaseException`s, are not modelled.
* Re-reading the row after the finishing write (`backends.py:520`) is one step with the write.
* `updated_at`, and `created_at`; times are integers, as only their order counts.
* A skip-locked claim of a row that another transaction holds fails at once in the protocol, as in the code; no freedom from livelock is claimed.
* The protocol's fetch takes any READY row, due or not and of any queue: it has more runs than the code.
* Ids are not used twice.
* Admin actions, HTTP views and authentication, Cloud Tasks, SQS, queue statistics, option parsing, console output.
* Signals, processes, sockets and timers are the environment. Loops that wait for the outside have a budget of waits that may come to nothing, of any size, after which a shutdown or an end of waiting comes: every finite run is covered, and that the outside ever ends a wait is not claimed.
* The executors' part of `tasks_failed` goes up as a job's outcome is put in the queue, a step later than in the code; it is read only after all outcomes were collected.
* Counting tasks as started: the cap is on counted tasks and those in flight.
* Stopping the pool (`threads.py:77-83`), and `close_old_connections` raising.
* The supervisor's slots are values in a sequence field rather than objects, as only the supervisor holds them: aliasing is not captured. The clock is read where the code reads it. Requests to add and remove workers arrive before a pass and after each slot added or retired.
* On Windows the exit status of a stopped process differs; the model has the POSIX one.
* JSON parsing and `strip` of notification payloads: a payload comes parsed.
- Executor.ProcessOneTask: the clock stands still, tasks are not enqueued meanwhile, and other workers only claim.
- Executor.ProcessTasks: the clock stands still during the drain, tasks are not enqueued meanwhile, and other workers only claim.
- Executor.RunTaskById: what other workers do between its two transactions is to claim tasks.
- Maintenance.RequeueStaleTasks: other workers do nothing meanwhile; a negative batch size, and 0 with a dry run, which Django rejects, are not modelled.
- Maintenance.PurgeCompletedTasks: other workers do nothing meanwhile; the protocol's purge covers them.
- Broker.PostgresNotifyBroker.Receive: a worker's queue does not change, so it is a constant of the broker here.
