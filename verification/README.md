# Herder's job queue, verified

Herder runs AI command-line agents as queued jobs. Its guarantees rest on one SQLite database
that any number of workers, schedulers and CLI commands read and write at once. This project
models that database, the algorithms around it and two text algorithms, in Dafny, and proves
what they keep over whole runs.

| file | what it holds |
|---|---|
| `Transitions.dfy`, `JobDb.dfy`, `JobStore.dfy` | the status machine, what each SQL statement does to a row, and the store whose methods do it in place |
| `Enqueue.dfy` | dedup, budget caps, idempotency keys, nested transactions |
| `Interleaving.dfy`, `Safety.dfy`, `AuditTrail.dfy` | any number of callers on one database, with `finish_job`, `requeue` and `mark_dead` split into read and write, and what holds in every run |
| `Supervisor.dfy`, `WorkerLoop.dfy` | executing one claimed job, the retry policy, and the serial pass, alone and with the world acting between its statements |
| `Leases.dfy`, `PollLoop.dfy` | a timed model of claims, heartbeats and finishes, and the loop that polls a process |
| `Pool.dfy`, `PoolClock.dfy`, `ParallelPass.dfy` | the thread pool and its shared semaphores, how long jobs wait for a permit, and the whole parallel pass on the jobs table |
| `Routing.dfy`, `Backoff.dfy` | provider choice and retry delays |
| `Scheduler.dfy`, `SchedulerRuns.dfy`, `ScheduleRaces.dfy`, `IsoTime.dfy`, `IsoText.dfy` | the scheduler tick, whole runs of ticks, ticks that interleave, and timestamps as text |
| `Text.dfy`, `ManagedBlock.dfy`, `BlockLaws.dfy` | Python's string operations, the managed block in a brain file, and the map it implements |
| `Redact.dfy`, `RedactSecrets.dfy` | the seven secret patterns, a backtracking matcher, the substitutions, and what they do to each shape of secret |

How the model is set up:

- A job's id is its row number; rows are appended and never deleted, so new ids are fresh.
- Instants are integers. That stored ISO strings compare like the instants they stand for is
  proved (`IsoTime.StringOrderIsTimeOrder`), not assumed.
- Every SQL statement is one atomic step; each step carries the clock reading of its caller, and
  readings of different callers need not agree. `Leases` and `PoolClock` have one clock for all.
- What cannot be seen from here is a parameter or a free choice: how a provider's run ends, what
  configuration resolves to, whether a file can be read, when a process exits.

What the code does not guarantee, each with the exact condition under which it does:

- Job logs are legal histories exactly when no requeue overwrites a status its call did not read
  (`AuditTrail.LogsAreHistoriesIffRequeuesFresh`; a failing run in `AuditTrail.StaleRetryLogsNoPath`).
- A job that waits for approval stays unclaimable exactly when nobody requeues that job
  (`Safety.GateHoldsIffNeverRequeued`; a failing run in `Safety.ManualRetryPassesTheGate`).
- The pool cannot deadlock exactly when every concurrency limit is at least one
  (`Pool.DeadlockFreeIffLimitsPositive`).
- A running job cannot be claimed a second time exactly when the lease is at least the longest gap
  between renewals (`Leases.SafeIffLeaseSuffices`); the wait for a permit, which is part of that
  gap, exceeds every bound in some pass (`PoolClock.EveryBoundIsExceeded`).
- A parallel pass claims a bounded number of jobs exactly when it reclaims a bounded number of
  those it is still running (`ParallelPass.ClaimsFollowRelapses`; without a bound in
  `ParallelPass.LapsedLeasesClaimForever`).
- A list of star-free patterns is redacted completely exactly when none of them matches inside the
  replacement (`Redact.NothingLeftIffSound`); Herder's seven meet this.
- A slot that was not enqueued is recorded as missed exactly when the next tick comes within 24
  hours (`SchedulerRuns.RecordedExactly`, `SchedulerRuns.LostAfterADay`).
- Writing a managed-block entry twice changes nothing exactly when the entry is one line
  (`BlockLaws.IdempotentIffOneLine`).

The docstring of `compute_backoff_seconds` says that attempts <= 0 give 0 (`src/herder/backoff.py:21-28`);
the code gives the base delay, and so does the model (`Backoff.DelaysDouble`).

## Model

| member | source | states |
|---|---|---|
| Transitions.QueuedOwnedOrTerminal | src/herder/transitions.py:17-28 | every status is exactly one of queued, owned by a worker, or terminal, and exactly done and rejected have no way out |
| Transitions.WhereFrom | src/herder/transitions.py:17-28 | the table read backwards: from which statuses each status may be reached, and from no other |
| JobDb.SomeNextClaim | src/herder/db/store.py:295-311 | whenever some row is claimable, the order by priority and age has a first claimable row to take |
| JobStore.Store.ClaimJob | src/herder/db/store.py:275-311 | takes a queued job that is eligible or a running one whose lease has passed, of the highest priority and the oldest among those, makes it running under the caller's lease with one more attempt; reports none exactly when nothing is claimable |
| JobStore.Store.RenewLease | src/herder/db/store.py:824-842 | only the owner of a running or cancelling job moves its lease; nothing else changes |
| JobStore.Store.CheckTransition | src/herder/db/store.py:378-384 | the read of a guarded call raises exactly for a missing job or an illegal edge |
| JobStore.Store.RecordJobEvent | src/herder/db/store.py:313-338 | appends one event and changes nothing else |
| JobStore.Store.FinishUpdate | src/herder/db/store.py:385-403 | the guarded UPDATE and its event, both or neither, whatever status was read before |
| JobStore.Store.RequeueUpdate | src/herder/db/store.py:592-609 | the same for requeue, with the next provider and the earliest next claim in the same statement |
| JobStore.Store.MarkDeadUpdate | src/herder/db/store.py:639-645 | the same for mark_dead, which leaves every other column |
| JobStore.Store.FinishJob | src/herder/db/store.py:353-410 | read, check and write in one go: raise, do nothing, or write once |
| JobStore.Store.RequeueJob | src/herder/db/store.py:555-615 | the same for requeue |
| JobStore.Store.MarkDead | src/herder/db/store.py:617-651 | the same for mark_dead |
| JobStore.Store.RequestCancel | src/herder/db/store.py:515-553 | a queued job is cancelled at once, a running one is flagged, any other is left; returns the status it leaves |
| JobStore.Store.ApproveJob | src/herder/db/store.py:653-676 | only a job that waits for approval is approved |
| JobStore.Store.RejectJob | src/herder/db/store.py:678-701 | only a job that waits for approval is rejected |
| JobStore.Store.InsertJob | src/herder/db/store.py:201-223 | appends the row, or fails exactly when its idempotency key is taken |
| JobStore.Store.RecordAttempt | src/herder/db/store.py:412-470 | appends one attempt |
| JobStore.Store.RecordScheduleRun | src/herder/db/store.py:743-776 | inserts a slot's row exactly when the slot has none |
| JobStore.Store.SetScheduleRunJobId | src/herder/db/store.py:807-820 | sets the job of one slot's row and of no other |
| JobStore.Store.Begin | src/herder/services/enqueue.py:144-148 | remembers the tables as they are |
| JobStore.Store.Rollback | src/herder/services/enqueue.py:201-223 | restores the tables that BEGIN remembered |
| EnqueueService.SomeFirstDuplicate | src/herder/db/store.py:174-199 | a duplicate exists only if an earliest one does |
| EnqueueService.FindActiveDuplicate | src/herder/db/store.py:174-199 | finds the earliest created live job for the same role, project, kind and prompt, exactly when there is one |
| EnqueueService.TryEnqueue | src/herder/services/enqueue.py:150-199 | inserts one row exactly when the request is admitted; otherwise says which duplicate, cap, disk or key stopped it |
| EnqueueService.EnqueueJob | src/herder/services/enqueue.py:77-223 | all or nothing, in its own transaction or the caller's: one new row exactly for admitted requests, other tables and the caller's snapshot untouched; the caller gets a job exactly for accepted requests |
| EnqueueService.RefusedIffCapReached | src/herder/services/enqueue.py:159-167 | a request that has no twin is refused for its budget exactly when the jobs not yet terminal, or those created in the last 24 hours, have reached their cap |
| EnqueueService.CollapsesIffTwin | src/herder/services/enqueue.py:151-157 | with dedup on, a request without a key is given the oldest live job for the same role, project, kind and prompt exactly when there is one |
| EnqueueService.CreatedAsRequested | src/herder/services/enqueue.py:174-199 | a created job carries the request's role, project, kind, prompt, priority and key, the resolved provider, no attempts, three tries, and waits for approval exactly if that is required |
| EnqueueService.NoTwinStandsIn | src/herder/services/enqueue.py:208-219 | with dedup off, or a key given, only the job that holds the key can stand in, and a created job's key was free |
| EnqueueService.RefusedWithoutInsert | src/herder/services/enqueue.py:100-141 | what configuration rejects, a dry run and a missing project root end without a job, each with its own outcome |
| Interleaving.StepKeepsRows | src/herder/db/store.py:295-311 | every statement of every caller keeps each row's columns in agreement with its status |
| Interleaving.StepKeepsWindow | src/herder/services/enqueue.py:159-167 | no statement puts more jobs into a 24-hour window than the daily cap |
| Interleaving.StepKeepsActive | src/herder/services/enqueue.py:159-163 | no statement lifts the number of active jobs above the cap plus the requeues so far |
| Interleaving.StepKeepsClaims | src/herder/db/store.py:295-311 | attempts keeps counting the claims of each job |
| Interleaving.RunKeepsInv | src/herder/db/store.py:353-651 | all of the above over any run, from any state in which they hold |
| Interleaving.AnyoneMayAct | src/herder/db/store.py:353-701 | any caller may cancel, approve, reject or renew any job at any time, and each guarded call may be made whenever its caller and the status allow |
| Interleaving.SingleStatements | src/herder/db/store.py:515-701 | what cancel, approve, reject and renew do to a row of the interleaved system, column by column |
| Safety.EveryChangeIsLegal | src/herder/db/store.py:378-410 | in every run, however stale the reads, each status change is an edge of the status machine |
| Safety.GuardedWriteIsLegal | src/herder/db/store.py:586-615 | the WHERE guard lets a write through only from a status its target is legal from, whatever was read |
| Safety.AbsorbedForever | src/herder/transitions.py:26-27 | a job that is done or rejected stays so in every continuation of every run |
| Safety.FinishTargetsSafeWhenStale | src/herder/db/store.py:381-390 | the targets for which finish_job's check survives any stale read, exactly: those its callers use, and the one no status leads to |
| Safety.EveryRowIsWellFormed | src/herder/db/store.py:295-311 | in every run worker and lease are set exactly while owned, finished_at exactly while terminal, an output only when done, and attempts equals the number of claims |
| Safety.OneEventPerEffectiveWrite | src/herder/db/store.py:398-410 | a guarded write that changes its row appends exactly one legal event about it; a lost race and every other step append none |
| Safety.EveryEventIsLegal | src/herder/db/store.py:313-338 | each logged event is an edge of the status machine, even under stale reads |
| Safety.NoWindowOverCap | src/herder/services/enqueue.py:164-167 | in every run every 24-hour window, wherever it falls, holds at most max_jobs_per_day created jobs |
| Safety.ActiveWithinCapPlusRequeues | src/herder/services/enqueue.py:159-163 | in every run the active jobs number at most max_active_jobs plus the requeues so far |
| Safety.AtMostOneJobPerKey | src/herder/db/migrations.py:45-46 | in every run two jobs never share an idempotency key |
| Safety.AtMostOneActiveJobPerTask | src/herder/services/enqueue.py:151-157 | with dedup on, and without requeues and keys, a role, project, kind and prompt have at most one active job |
| Safety.GateOfRun | src/herder/db/store.py:653-676 | the gated jobs of a run are those inserted as waiting_approval, and the approved ones those that some step took from there to approved |
| Safety.RequeuesAreCounted | src/herder/db/store.py:586-609 | the requeues of a run are its requeue writes that changed a row |
| Safety.GateHoldsIffNeverRequeued | src/herder/services/enqueue.py:174-176 | in every run, for every job inserted as waiting_approval and not approved: it is in no state claimable at any instant if and only if no requeue changed its row |
| Safety.NeverClaimableIsNeverClaimed | src/herder/db/store.py:295-309 | what is in no state claimable is never claimed |
| Safety.NeverClaimedBeforeApproval | src/herder/loops/queue_claim.py:55-99 | as a consequence, while only workers requeue, a job that waits for approval is never claimed before it |
| Safety.CancelAndRetry | src/herder/transitions.py:25 | from every state with a waiting job, cancel and retry make it claimable without approval |
| Safety.ManualRetryPassesTheGate | src/herder/transitions.py:25 | for every budget that admits a job, a run from the empty database claims a job that waits for approval and never got it |
| Safety.NotClaimedBeforeEligible | src/herder/db/store.py:299-302 | a job with an earliest next claim is not taken from the queue before it, in any run without another requeue |
| AuditTrail.UninterruptedCallIsFresh | src/herder/db/store.py:378-410 | a read directly followed by its write is the whole call, and finds what it read |
| AuditTrail.StepExplains | src/herder/db/store.py:313-338 | one step keeps a job's log explained by a legal path, even when it is a finish whose read is stale |
| AuditTrail.SilentMovesAreThose | src/herder/db/store.py:295-311 | the moves without an event are those of claim, cancel, approve and reject |
| AuditTrail.LogIsTheLoggedHistory | src/herder/db/store.py:313-338 | in runs whose requeues find the status they read, however stale the finishes, each job's log is the logged part of a legal path from its first status to its present one, and the rest are claims, cancels, approvals and rejections |
| AuditTrail.StaleRequeueIsImpossible | src/herder/db/store.py:586-609 | a requeue that read another stopped status than the job has logs something that no legal path logs |
| AuditTrail.LogsAreHistoriesIffRequeuesFresh | src/herder/db/store.py:586-615 | in every run, all logs are such histories if and only if every requeue that changes its row finds the status its call read |
| AuditTrail.TwoRetriesSpoilTheLog | src/herder/db/store.py:586-609 | from every state with a failed job: two retries that both read failed, and a cancel between their writes, give a stale requeue |
| AuditTrail.StaleRetryLogsNoPath | src/herder/db/store.py:586-609 | so for every budget that admits a job, a run from the empty database ends with a log that is no history |
| Supervisor.ProcessingEndsWhereItShould | src/herder/loops/queue_claim.py:55-130 | where a processed job ends for every way its run can go: done with its output, cancelled, failed for good after a crash, dead when its attempts are used up, queued for a transient error, failed otherwise; no other row changes |
| Supervisor.RunEndsWhereItShould | src/herder/loops/supervisor.py:148-179 | the same for a run that does not raise, which records exactly one attempt |
| Supervisor.FailedRunEnds | src/herder/loops/queue_claim.py:57-99 | a failed run ends dead exactly when its attempts are used up, pending exactly for a timeout, rate limit, unavailable or unknown error with tries left, failed otherwise; an error the runtime did not name goes by its classification |
| Supervisor.OtherRunEnds | src/herder/loops/supervisor.py:148-171 | any other run ends done with its output or cancelled, without an error |
| Supervisor.AttemptIsRecorded | src/herder/loops/supervisor.py:127-141 | the one attempt on record has the claimed row's number and provider and the run's own status and error |
| Supervisor.CrashIsRecorded | src/herder/loops/queue_claim.py:110-130 | a crash leaves one more failed attempt without a provider on record and the job failed; both say internal |
| Supervisor.RetryIsClaimableFrom | src/herder/loops/queue_claim.py:66-79 | a retried job is claimable from exactly base * 2^(attempts - 1) seconds after the decision, cut at the maximum, and at once when backoff is off |
| Supervisor.RetriesGoRound | src/herder/loops/queue_claim.py:80-97 | over n distinct providers a job that keeps failing runs, after k tries, on the provider k places further round, provided the one whose turn it is was not cooling on the attempts table when the retry was decided, this job's own failed attempts included |
| Supervisor.TolerantCooldownIsHealthy | src/herder/routing.py:76-80 | that proviso holds whenever allowed_fails exceeds the attempts on record and the tries together |
| Supervisor.FailingProviderIsAvoided | src/herder/loops/queue_claim.py:80-94 | once a provider has failed or timed out in allowed_fails tries of the job inside the window, the retry runs elsewhere while any provider of the role is below its threshold |
| Supervisor.FailuresAreOnRecord | src/herder/loops/supervisor.py:127-141 | the attempts table counts exactly the tries that ran on the provider and failed or timed out inside the window, besides what it held before |
| JobDb.OneMoreAttempt | src/herder/db/store.py:489-513 | an attempt raises a provider's count of recent failures by one exactly when it is that provider's, failed or timed out, and ended inside the window |
| Supervisor.FailsUntilDead | src/herder/loops/queue_claim.py:61-99 | a job that keeps failing transiently is pending with its own backoff after each try until max_retries tries (at least one), and dead from then on |
| Supervisor.TriesAreSpreadOut | src/herder/loops/queue_claim.py:66-79 | from its first try to its k-th at least the sum of the delays in between has gone by |
| WorkerLoop.OtherStepsAreQuiet | src/herder/loops/queue_claim.py:133-157 | every step of every other caller but an insert or a requeue stays within what the pass allows the rest of the world |
| WorkerLoop.Finish | src/herder/db/store.py:353-410 | finish_job by a worker leaves the job terminal whatever happens between its read and its write |
| WorkerLoop.FinishRun | src/herder/loops/supervisor.py:148-179 | each result is finished with its own status, error type and output |
| Supervisor.RenewalsMoveOnlyTheLease | src/herder/db/store.py:824-842 | a worker's own heartbeats move the lease and the heartbeat of its row and nothing else |
| WorkerLoop.Beat | src/herder/loops/supervisor.py:67-68 | the renewals of a running process, with the world acting between them |
| WorkerLoop.ExecuteJob | src/herder/loops/supervisor.py:24-179 | renews while the process runs, records the attempt and finishes the job; a reported status means the job is terminal; alone it has exactly the specified effect, heartbeats included |
| WorkerLoop.RequeueStopped | src/herder/db/store.py:555-615 | requeue of a stopped job leaves it stopped or pending and other jobs undisturbed, whatever happens between its read and its write |
| WorkerLoop.BuryStopped | src/herder/db/store.py:617-651 | mark_dead likewise, and it never revives |
| WorkerLoop.ApplyRetryPolicy | src/herder/loops/queue_claim.py:57-109 | with the world acting between its reads and its write, puts the job back only with retries left; alone it has exactly the specified effect |
| WorkerLoop.ProcessClaimed | src/herder/loops/queue_claim.py:40-130 | the job ends terminal or queued with retries left and other jobs are not disturbed; alone it has exactly the specified effect, heartbeats included |
| WorkerLoop.RoundLosesWeight | src/herder/loops/queue_claim.py:150-157 | one claimed and processed job uses up at least one of the tries the live jobs had left |
| WorkerLoop.WeightIsTriesLeft | src/herder/loops/queue_claim.py:64 | the weight of a live job is max(1, max_retries - attempts), and of any other zero |
| WorkerLoop.RunPendingOnce | src/herder/loops/queue_claim.py:133-157 | terminates while nobody adds or revives jobs, even if leases expire; processes at most the sum of max(1, max_retries - attempts) over live jobs; nothing is claimable when it returns; undisturbed its count is exactly the number of tries it added |
| Leases.BackgroundStatements | src/herder/db/store.py:353-842 | every statement of the interleaved system that neither claims, renews nor finishes leaves owned rows with their owner and lease |
| Leases.StepKeepsInv | src/herder/loops/supervisor.py:67-120 | every step keeps each execution the owner of its row under a lease that outlasts its present stage |
| Leases.ExecutionsCanGoOn | src/herder/loops/supervisor.py:67-179 | in every reachable state every execution can take its next step, end with any of the three results, or die |
| Leases.NoSecondClaim | src/herder/db/store.py:295-311 | with a lease at least the longest gap between renewals, no job in execution can be claimed and none is executed twice, for any workers and any clock |
| Leases.ShortLeaseRunsTwice | src/herder/runtimes/base.py:147-171 | with any shorter lease a reachable run has two workers executing one job |
| Leases.SafeIffLeaseSuffices | src/herder/runtimes/base.py:147-171 | the leases that exclude a second execution are exactly those of at least claim-to-loop delay + (heartbeat interval - 1) + poll period + exit-to-finish delay |
| PollLoop.RunWithTerminate | src/herder/runtimes/base.py:147-171 | the first poll with a reason to stop decides, exit before cancel before timeout; the heartbeat is called at exactly the polls where it is due |
| PollLoop.BeatsAreSpaced | src/herder/runtimes/base.py:152-157 | over n polls the heartbeats take up at least one interval each |
| PollLoop.BeatsAreNeverLate | src/herder/runtimes/base.py:151-171 | at every poll the last heartbeat is at most interval - 1 plus one period old |
| PollLoop.TimeoutIsPrompt | src/herder/runtimes/base.py:147-170 | no poll is made later than one period after the deadline |
| PollLoop.LoopRunsUnderLease | src/herder/runtimes/base.py:151-171 | every run of the loop is a run of the lease model, heartbeat for heartbeat |
| PollLoop.LeaseHoldsAtEveryPoll | src/herder/loops/supervisor.py:67-120 | at every poll the row still belongs to the worker under a lease that has not run out |
| Pool.BuildGroupLimits | src/herder/loops/queue_claim.py:160-190 | each concurrency group gets the least max_concurrency among its members, and only real groups get a limit |
| Pool.LimitsAreUnique | src/herder/loops/queue_claim.py:163-167 | that determines the limits |
| Pool.NamedGroupIsLimited | src/herder/loops/queue_claim.py:22-37 | a provider that names a group is limited under that name by no more than its own max_concurrency |
| Pool.OwnGroupIsLimited | src/herder/loops/queue_claim.py:22-37 | a provider that names none, or the empty one, is limited under its own name |
| Pool.LimitIsAMembers | src/herder/loops/queue_claim.py:183-190 | every limit is that of a provider which names the group, or whose own group it is |
| Pool.PermitsPlusHolders | src/herder/loops/queue_claim.py:224-245 | in every reachable state a group's free permits and its executing jobs add up to its limit |
| Pool.ProviderWithinItsLimit | src/herder/loops/queue_claim.py:198-203 | a provider never executes more jobs at once than its own max_concurrency, in whatever group |
| Pool.GroupWithinEveryMember | src/herder/loops/queue_claim.py:160-190 | in every reachable state the jobs executing on all providers that name one group number at most the max_concurrency of each of them |
| Pool.ThreadsWithinPool | src/herder/loops/queue_claim.py:247 | no more threads are in use than the pool has |
| Pool.NeverDeadlocks | src/herder/loops/queue_claim.py:205-209 | with limits of at least one, some thread can step while any task is unfinished |
| Pool.ThreadsUseUpWork | src/herder/loops/queue_claim.py:230-245 | each step of a thread uses up exactly one unit of work, so threads alone cannot go on for ever |
| Pool.PassDrains | src/herder/loops/queue_claim.py:247-262 | after the last claim every schedule of the threads is bounded and can stop only with all tasks finished |
| Pool.PassEnds | src/herder/loops/queue_claim.py:247-262 | threads and main thread together: n claims allow at most 6n + 1 steps, and when nothing but a claim could follow, the main thread has left its loop with every job finished |
| Pool.ExitsWithAllFinished | src/herder/loops/queue_claim.py:248-262 | the claim loop is left only when no submitted job is unfinished |
| Pool.ZeroLimitDeadlocks | src/herder/config.py:89 | in every configuration, a group whose limit is zero or less leads to a state with an unfinished job that nothing at all can leave |
| Pool.DeadlockFreeIffLimitsPositive | src/herder/loops/queue_claim.py:205-209 | for every configuration: no reachable state is stuck with unfinished jobs if and only if all limits are at least one |
| PoolClock.PermitComesLate | src/herder/loops/queue_claim.py:237-242 | for every job, whenever it was claimed: if n others of its group, whose limit is L, were served since, L times its wait is at least (n - L + 1) times the shortest execution |
| PoolClock.EveryBoundIsExceeded | src/herder/loops/queue_claim.py:237-242 | for every configuration, number of threads, group that lets jobs in and bound, some pass makes a job wait longer than the bound from its claim to its permit |
| PoolClock.NoLeaseCoversEveryQueue | src/herder/loops/queue_claim.py:237-257 | so no timing under which a lease suffices allows for every wait before the heartbeat begins |
| ParallelPass.FinishStopsItsJob | src/herder/db/store.py:378-403 | after a finish_job call its job is not owned, whether the call stopped at its read or wrote, and its write is quiet |
| ParallelPass.StepKeepsInv | src/herder/loops/queue_claim.py:55-130 | every step of the pass keeps what its tasks know of their rows: busy means claimed, stopped means terminal, retrying means terminal with tries left, for rows that no other task has taken since |
| ParallelPass.TaskEndsSettled | src/herder/loops/queue_claim.py:239-245 | a task that neither requeued nor lost its row gives its permit back with the job terminal |
| ParallelPass.PassIsPoolRun | src/herder/loops/queue_claim.py:247-262 | every parallel pass on the jobs table is a run of the pool, claim for submission |
| ParallelPass.ClaimsFollowRelapses | src/herder/loops/queue_claim.py:193-262 | in every pass, whatever its leases: with relapses the claims of jobs that a task of the pass is not through with, relapses <= claims <= sum of max(1, max_retries - attempts) over live jobs + 2 * relapses, and at most 9 * claims + 1 steps; so claims are bounded exactly when relapses are |
| ParallelPass.RelapseNeedsLapsedLease | src/herder/db/store.py:303-305 | the first relapse of a job takes it running under a lease that has run out |
| ParallelPass.ParallelPassEnds | src/herder/loops/queue_claim.py:193-262 | so without relapses it claims at most the tries the live jobs had left, each job counted for at least one, and ends |
| ParallelPass.LeavesWithNothingClaimable | src/herder/loops/queue_claim.py:248-256 | the loop is left only when nothing is claimable and every submitted job is finished |
| ParallelPass.LapsedLeasesClaimForever | src/herder/db/store.py:303-305 | for every configuration, group, number of threads, lease, claimable job and n, a pass whose clock moves past the lease between claims claims that one job n times |
| Routing.SelectProvider | src/herder/routing.py:58-93 | the indexed scan and its single-provider shortcut both make the specified choice |
| Routing.ChoiceIsNearestHealthy | src/herder/routing.py:32-44 | the choice is the nearest provider after the failed one that is not cooling, and the primary when all are |
| Routing.BelowIsChosen | src/herder/routing.py:46-52 | while some provider is below its threshold one that is below is chosen, and on the first enqueue the primary if it is |
| Routing.ScanVisitsEachIndexOnce | src/herder/routing.py:73-80 | the cyclic scan looks at every index once, at the failed provider's last |
| Routing.NextHealthyIsChosen | src/herder/routing.py:62-80 | if the provider after the failed one is not cooling it is chosen |
| Routing.InTurnIsModulo | src/herder/routing.py:73-76 | k places further round from index i is index (i + k) mod n |
| Backoff.DelaysGrowToTheCap | src/herder/backoff.py:40-43 | delays never shrink, stay within the cap, and stay at it once there |
| Backoff.DelaysDouble | src/herder/backoff.py:40-43 | each delay is twice the one before, cut at the cap, from base on; attempts of zero or less count as one |
| Backoff.TotalDelayBound | src/herder/loops/queue_claim.py:66-79 | all delays before the m-th attempt come to at most (m-1) caps and base * (2^(m-1) - 1) |
| Backoff.TotalDelayExact | src/herder/backoff.py:40-43 | and to exactly the latter while the cap is not reached |
| IsoTime.StringOrderIsTimeOrder | src/herder/db/store.py:170-172 | for all UTC datetimes the order of their isoformat strings is the order of the instants, though the fraction is left out at zero microseconds |
| IsoTime.SlotKeyInjective | src/herder/loops/scheduler_tick.py:107 | the key of a slot tells schedule and minute apart from all others, whatever the schedule's id contains |
| IsoText.IsoReadsBack | src/herder/db/store.py:295-297 | the text of a timestamp, read number by number between its separators, gives the datetime back; the fraction of six digits is there unless it is zero |
| IsoText.NextMinuteIsNextNumber | src/herder/loops/scheduler_tick.py:28-30 | the scheduler's minutes are numbered one after the other through every day, month and leap year |
| Scheduler.NextMatch | src/herder/loops/scheduler_tick.py:75-79 | the iterator's next slot is the least match after the last one |
| Scheduler.LastScheduledFor | src/herder/db/store.py:778-791 | the greatest recorded slot, or none exactly when there are no rows |
| Scheduler.MarkMissed | src/herder/loops/scheduler_tick.py:68-82 | fills exactly the matches since the last row, at most 24 hours back, that have no row, and touches no other schedule |
| Scheduler.EnqueueFor | src/herder/loops/scheduler_tick.py:101-112 | a job enqueued for a slot has the schedule's role, project and kind, the prompt's hash, priority zero and the key of schedule and minute |
| Scheduler.EnqueueSlot | src/herder/loops/scheduler_tick.py:91-115 | slot row and job together or neither; succeeds exactly when the slot is free, its prompt can be read and the request is accepted; a new job is the schedule's |
| Scheduler.TickOne | src/herder/loops/scheduler_tick.py:53-115 | one schedule's rows after a tick; a job exactly when the slot is due, free and accepted, and a new one is the schedule's |
| Scheduler.Tick | src/herder/loops/scheduler_tick.py:33-117 | every schedule's rows after a tick, the returned count, that every enqueued slot has the job with its key, and that every new job is the one some schedule asked for |
| Scheduler.SlotsNeverShareJobs | src/herder/loops/scheduler_tick.py:91-113 | two enqueued slots, of whatever schedules, never name the same job |
| ScheduleRaces.RowsNeverChange | src/herder/db/migrations.py:77-84 | when any number of ticks interleave statement by statement, a slot keeps its first row |
| ScheduleRaces.OneJobPerSlot | src/herder/loops/scheduler_tick.py:78-113 | and an enqueued slot names one job, which alone carries the slot's key and belongs to no other slot |
| SchedulerRuns.RecordedExactly | src/herder/loops/scheduler_tick.py:68-117 | over any run of ticks that follow one another, exactly which slots are enqueued and which are missed |
| SchedulerRuns.CompleteWhileTicking | src/herder/loops/scheduler_tick.py:35-87 | with ticks less than 24 hours apart every matching slot from the first enqueued one to the latest tick has its one row, enqueued or missed |
| SchedulerRuns.LostAfterADay | src/herder/loops/scheduler_tick.py:23-25 | the look-back is sharp: a failed slot followed by a day without ticks never gets a row |
| Text.FindIsFirst | src/herder/adapters.py:62-66 | find gives the first occurrence, and a negative index exactly when there is none |
| Text.CountZeroIffAbsent | src/herder/adapters.py:37-41 | a count is zero exactly when the text does not occur |
| Text.JoinOfSplit | src/herder/adapters.py:130-150 | joining the lines of a text gives the text back, and the lines hold no newline |
| Text.SplitOfJoin | src/herder/adapters.py:130-150 | and splitting joined lines gives the lines back |
| ManagedBlock.HerderIsProper | src/herder/adapters.py:11-12 | Herder's markers and introduction have the shape the other results need |
| ManagedBlock.AssembledIsValidIff | src/herder/adapters.py:25-67 | a text around two markers validates exactly when none of its three parts holds a marker |
| ManagedBlock.ValidFileIsItsParts | src/herder/adapters.py:127-128 | a valid file with a block is put together from the three parts it is split into, none of which holds a marker |
| ManagedBlock.BrainFile.WriteCheatsheet | src/herder/adapters.py:83-154 | writes what the specification says, or nothing exactly when validation fails |
| ManagedBlock.BrainFile.ReplaceLines | src/herder/adapters.py:134-139 | replaces exactly the agent's lines and reports whether there was one |
| ManagedBlock.BrainFile.InsertPosition | src/herder/adapters.py:142-145 | finds the place after which all lines are blank and before which the last one is not |
| ManagedBlock.BrainFile.WriteIntroBlock | src/herder/adapters.py:160-218 | the same for the introduction; an introduction already there means no change |
| BlockLaws.CheatsheetKeepsValidIff | src/herder/adapters.py:83-154 | the written file validates exactly when the new entry holds no marker |
| BlockLaws.ValidIffPaired | src/herder/adapters.py:37-66 | validation accepts exactly no markers at all, or one of each with the start not after the end |
| BlockLaws.NewFileText | src/herder/adapters.py:103-112 | a missing file becomes the block with the one entry, character by character |
| BlockLaws.AppendedText | src/herder/adapters.py:119-126 | a file without a block keeps its text, and an empty line and the block follow |
| BlockLaws.NewIntroText | src/herder/adapters.py:182-198 | a missing file becomes the block with the introduction |
| BlockLaws.IntroPlaced | src/herder/adapters.py:208-218 | a block without the introduction gets it in front of its lines; one that has it is left alone |
| BlockLaws.SpacesByCodePoint | src/herder/adapters.py:144 | which characters count as blank |
| BlockLaws.NewEntryPlace | src/herder/adapters.py:141-146 | a new entry goes right after the last line that is not blank |
| BlockLaws.HerderTexts | src/herder/adapters.py:11-12 | the markers |
| BlockLaws.WriteUpdatesMap | src/herder/adapters.py:83-154 | looking up the agent yields the new entry, another agent is found as before, and all lines not this agent's stay in order |
| BlockLaws.OutsideUntouched | src/herder/adapters.py:92-92 | text outside the markers is untouched; a file without a block survives whole in front of it |
| BlockLaws.IdempotentIffOneLine | src/herder/adapters.py:83-99 | writing again changes nothing exactly when the entry is one line |
| BlockLaws.IntroKeepsMap | src/herder/adapters.py:160-218 | the introduction keeps the file valid and every agent's entry |
| BlockLaws.IntroIdempotent | src/herder/adapters.py:163-167 | writing the introduction again changes nothing |
| BlockLaws.StarFreePrefixes | src/herder/adapters.py:104-104 | names without a star have line prefixes of which none begins another |
| BlockLaws.BlockRefinesMap | src/herder/adapters.py:83-218 | after any sequence of writes the file is valid and every agent is found by its last-written usage, unwritten agents as at first |
| BlockLaws.WritesKeepOutside | src/herder/adapters.py:83-218 | no sequence of writes touches the text outside the markers |
| Redact.MatcherIsExact | src/herder/redact.py:7-15 | the greedy backtracking matcher finds a match at a position exactly when the pattern matches some text that begins there |
| Redact.Substitute | src/herder/redact.py:29-30 | the left-to-right loop computes the specified substitution |
| Redact.SubReplacesMatchesOnly | src/herder/redact.py:29-30 | the output is the input with some non-overlapping matches, and nothing else, replaced |
| Redact.NothingLeftToRedact | src/herder/redact.py:20-31 | for star-free patterns that match nowhere inside the replacement, not even emptily: after all substitutions no substring matches any pattern, though later ones cut the text again |
| Redact.NothingLeftIffSound | src/herder/redact.py:20-31 | for star-free patterns, every text comes out clean if and only if none of them matches inside the replacement |
| Redact.ChangesOnlySecrets | src/herder/redact.py:20-31 | a text is left alone exactly when it holds no match |
| Redact.RedactIdempotent | src/herder/runtimes/base.py:176-177 | redacting what was redacted changes nothing |
| Redact.HerderPatternsAreSound | src/herder/redact.py:7-17 | the seven patterns meet that condition |
| RedactSecrets.SecretsAreMatches | src/herder/redact.py:7-15 | the seven patterns recognise exactly the seven shapes of secrets, written out character by character |
| RedactSecrets.OpenAiKeyGoes | src/herder/redact.py:8 | a key of sixteen or more characters goes whole, up to the first character that cannot belong to it |
| RedactSecrets.CommandCodeKeyGoes | src/herder/redact.py:9 | the same for forty or more |
| RedactSecrets.GitHubTokenGoes | src/herder/redact.py:10 | the same for a token of each of the five kinds |
| RedactSecrets.AwsKeyGoes | src/herder/redact.py:11 | sixteen characters go, whatever follows |
| RedactSecrets.PrivateKeyGoes | src/herder/redact.py:12 | the whole opening line of a private key goes |
| RedactSecrets.SlackTokenGoes | src/herder/redact.py:13 | a token of each of the five kinds goes whole |
| RedactSecrets.JwtGoes | src/herder/redact.py:14 | all three parts of a token go |
| RedactSecrets.RedactText | src/herder/redact.py:20-31 | the loop over the seven patterns makes the seven substitutions in order; its output holds no secret of any shape, and equals the input exactly when the input held none |

## Left out

- Process spawning, signals, Docker, SSH, Ollama and the ACP client: only the poll loop's timing and the outcome it returns are modelled.
- CLI, doctor, init and add wizards, bench, YAML parsing, worktrees, environments and sandbox profiles: plumbing.
- Statistics, log tailing, costs, migrations, garbage collection, error classification: easy members; a run's classified error is an input.
- Job columns that none of the modelled rules read (working directory, permissions, prompt path, run directory, costs, runtime) and the workers table.
- SQL itself: each statement is one atomic step, and a transaction is a snapshot that a rollback restores; no process dies between an UPDATE and its event INSERT.
- Rows equal in priority and created_at may be claimed in any order; the model allows every order.
- `request_cancel` is one step: split into its read and its write, which carries no status guard, it could overwrite a final status.
- WorkerLoop.RunPendingOnce: other callers may do anything but insert jobs and put stopped jobs back in the queue, since with a steady supply of work the pass need not end.
- Leases.NoSecondClaim: assumes that every renewal called for takes effect; the code ignores a heartbeat that raises. Execution by workers that are not under the time bounds, and runs started before the model's first state, are not covered.
- Leases.SafeIffLeaseSuffices: assumes that a renewal takes no longer than starting a process, one poll period or finishing a job.
- Pool.ZeroLimitDeadlocks: a limit below zero is modelled as one that never lets a job in; Python's semaphore already refuses it when the pass begins.
- ParallelPass.ClaimsFollowRelapses: as in the serial pass, other callers may do anything but insert jobs and put stopped jobs back; the statements of a task other than its requeue are among the quiet ones, so the model does not say which task made them.
- SchedulerRuns.RecordedExactly: each tick ends before the next begins and their minutes do not go back; for ticks that overlap only ScheduleRaces speaks, and there a late tick may mark a slot missed that its own tick then finds taken.
- PoolClock.PermitComesLate: bounds the wait from below; an upper bound would need one on how long executions last, which nothing gives.
- Safety.NoWindowOverCap: assumes that within one enqueue call the clock read for `created_at` is not earlier than the one read for the daily count; different callers' clocks need not agree.
- Safety.NotClaimedBeforeEligible: covers claims from the queue; a running job whose lease has expired is reclaimed regardless, as in the code.
- Cron syntax, time zones and daylight saving: a cron expression is a predicate on UTC minutes, and croniter's iterator the least match after a minute.
- SQLite's julianday: lease and eligibility comparisons are made on instants, not on floating-point days.
- SHA-256 and ULIDs: a prompt hash is an opaque string, and a new id is the next row number.
- File input and output and newline translation in the adapters: a file is an optional string; Python's white space is a fixed set of characters.
- Python's `re` engine: the matcher is the greedy backtracking one for the constructs the seven patterns use.
- A prompt, a role or a project that configuration rejects is one outcome; which message is raised is not modelled.
- The result that `run_with_terminate` builds after its loop (exit code, output, redaction of the log files): the loop's outcome is what decides it.
