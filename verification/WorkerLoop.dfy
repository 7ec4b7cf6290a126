/**
 The serial worker pass: claim, execute, apply the retry policy, until nothing is claimable.

 Between any two statements of the worker the rest of the world may act: other workers claim,
 run, finish and bury their jobs, users cancel, approve and reject, leases expire. It may not
 add jobs or put stopped ones back in the queue; then the pass must end.
 */
module WorkerLoop {
  import opened Options
  import opened Transitions
  import opened Counting
  import opened JobDb
  import opened JobStore
  import opened Routing
  import opened Supervisor
  import opened Interleaving

  // ---- what the rest of the world may do

  predicate QuietRow(a: Job, b: Job) {
    && (IsTerminal(a.status) ==> IsTerminal(b.status) && b.attempts == a.attempts)
    && (IsQueued(b.status) ==> IsQueued(a.status))
    && b.attempts >= a.attempts
    && b.maxRetries == a.maxRetries
  }

  predicate Quiet(before: seq<Job>, after: seq<Job>) {
    && |after| == |before|
    && forall k :: 0 <= k < |before| ==> QuietRow(before[k], after[k])
  }

  lemma ChangedRowIsQuiet(s: System, step: Step)
    requires WritesOk(s) && Enabled(s, step) && ChangeOf(s, step).Put?
    requires step.WriteStep? ==> !step.op.call.Requeue?
    ensures QuietRow(s.db.jobs[ChangeOf(s, step).id], ChangeOf(s, step).row)
  {
  }

  /** Every step of the interleaved system but an insert and a requeue is quiet. */
  lemma OtherStepsAreQuiet(s: System, step: Step)
    requires WritesOk(s) && Enabled(s, step) && !step.EnqueueStep?
    requires step.WriteStep? ==> !step.op.call.Requeue?
    ensures Quiet(s.db.jobs, Apply(s, step).db.jobs)
  {
    if ChangeOf(s, step).Put? {
      ChangedRowIsQuiet(s, step);
    }
  }

  /** Any number of steps of the rest of the world, or none when the worker is alone. */
  method Others(store: Store, alone: bool)
    modifies store
    ensures Quiet(old(store.jobs), store.jobs)
    ensures alone ==> store.Contents() == old(store.Contents())
  {
    assert Quiet(store.jobs, store.jobs);
    if !alone {
      var next: seq<Job> :| Quiet(store.jobs, next);
      store.jobs := next;
      store.events := *;
      store.attempts := *;
    }
  }

  // ---- executing one claimed job

  /** finish_job with the world acting between its read and its write. */
  method Finish(store: Store, id: JobId, target: Status, error: Option<string>, output: Option<string>,
                now: Instant, alone: bool)
    returns (ok: bool)
    requires target in {Done, Failed, Cancelled}
    requires id < |store.jobs| && !IsQueued(store.jobs[id].status)
    modifies store
    ensures Quiet(old(store.jobs), store.jobs) && IsTerminal(store.jobs[id].status)
    ensures ok <==> !ReadVerdict(old(store.jobs), id, Call.Finish(target, error, output)).Illegal?
    ensures alone ==> store.Contents() == AtomicCall(old(store.Contents()), id, Call.Finish(target, error, output), now)
  {
    var cur;
    ok, cur := store.CheckTransition(id, target);
    if ok && cur != target {
      Others(store, alone);
      QueuedOwnedOrTerminal(store.jobs[id].status);
      store.FinishUpdate(id, cur, target, error, output, now);
    } else if !ok {
      assert store.jobs[id].status !in {Running, Cancelling};
    }
  }

  /** finish_job with the arguments that the run's result calls for. */
  method FinishRun(store: Store, id: JobId, run: Execution, now: Instant, alone: bool) returns (report: Report)
    requires id < |store.jobs| && !IsQueued(store.jobs[id].status)
    modifies store
    ensures Quiet(old(store.jobs), store.jobs) && IsTerminal(store.jobs[id].status)
    ensures report == if ReadVerdict(old(store.jobs), id, EndingOf(run)).Illegal? then Crashed
                      else Ended(Target(EndingOf(run)))
    ensures alone ==> store.Contents() == AtomicCall(old(store.Contents()), id, EndingOf(run), now)
  {
    var ok;
    match run
    case Succeeded(output) =>
      ok := Finish(store, id, Done, None, Some(output), now, alone);
      report := if ok then Ended(Done) else Crashed;
    case WasCancelled =>
      ok := Finish(store, id, Cancelled, None, None, now, alone);
      report := if ok then Ended(Cancelled) else Crashed;
    case DidFail(_, error, classified) =>
      var errorType := error;
      if errorType in {None, Some("unknown")} {
        errorType := Some(classified);
      }
      ok := Finish(store, id, Failed, errorType, None, now, alone);
      report := if ok then Ended(Failed) else Crashed;
  }

  /** The heartbeats of a running process: renewals, with the world acting between them. */
  method Beat(cfg: Config, store: Store, id: JobId, worker: string, beats: seq<Instant>, alone: bool)
    requires id < |store.jobs|
    modifies store
    ensures Quiet(old(store.jobs), store.jobs)
    ensures alone ==> store.Contents() == Renewed(cfg, old(store.Contents()), id, worker, beats)
  {
    for k := 0 to |beats|
      invariant Quiet(old(store.jobs), store.jobs)
      invariant alone ==> store.Contents() == Renewed(cfg, old(store.Contents()), id, worker, beats[..k])
    {
      Others(store, alone);
      store.RenewLease(id, worker, cfg.lease, beats[k]);
      assert beats[..k + 1][..k] == beats[..k];
    }
    assert beats[..|beats|] == beats;
  }

  method ExecuteJob(cfg: Config, store: Store, id: JobId, job: Job, worker: string,
                    script: Script, at: Times, alone: bool)
    returns (report: Report)
    requires id < |store.jobs| && !IsQueued(store.jobs[id].status)
    modifies store
    ensures Quiet(old(store.jobs), store.jobs)
    ensures report.Ended? ==>
              IsTerminal(store.jobs[id].status) && script.RunsTo? && !script.raisesLate
              && report.status == Target(EndingOf(script.run))
    ensures alone ==> report == ReportOf(Renewed(cfg, old(store.Contents()), id, worker, at.beats), id, script)
    ensures alone ==> store.Contents() ==
                      Executed(Renewed(cfg, old(store.Contents()), id, worker, at.beats), id, job, worker, script, at)
  {
    Beat(cfg, store, id, worker, at.beats, alone);
    Others(store, alone);
    if script.Raises? {
      return Crashed;
    }
    store.RecordAttempt(AttemptOf(script.run, id, job, worker, at.ended));
    Others(store, alone);
    if script.raisesLate {
      return Crashed;
    }
    report := FinishRun(store, id, script.run, at.finished, alone);
  }

  /** The row may go back to the queue only with retries left. */
  ghost predicate Settled(j: Job) {
    IsTerminal(j.status) || (j.status == Pending && j.attempts < j.maxRetries)
  }

  /** requeue of a stopped job, with the world acting between its read and its write. */
  method RequeueStopped(store: Store, id: JobId, provider: Option<string>, eligibleAt: Option<Instant>,
                        now: Instant, alone: bool)
    requires id < |store.jobs| && IsTerminal(store.jobs[id].status)
    modifies store
    ensures |store.jobs| == |old(store.jobs)|
    ensures forall k :: 0 <= k < |store.jobs| && k != id ==> QuietRow(old(store.jobs)[k], store.jobs[k])
    ensures store.jobs[id].status == Pending || IsTerminal(store.jobs[id].status)
    ensures store.jobs[id].attempts == old(store.jobs)[id].attempts
    ensures store.jobs[id].maxRetries == old(store.jobs)[id].maxRetries
    ensures alone ==> store.Contents() == AtomicCall(old(store.Contents()), id, Requeue(provider, eligibleAt), now)
  {
    var ok, cur := store.CheckTransition(id, Pending);
    if ok && cur != Pending {
      Others(store, alone);
      store.RequeueUpdate(id, cur, provider, eligibleAt, now);
    }
  }

  /** mark_dead, likewise. */
  method BuryStopped(store: Store, id: JobId, now: Instant, alone: bool)
    requires id < |store.jobs| && IsTerminal(store.jobs[id].status)
    modifies store
    ensures Quiet(old(store.jobs), store.jobs)
    ensures alone ==> store.Contents() == AtomicCall(old(store.Contents()), id, MarkDead, now)
  {
    var ok, cur := store.CheckTransition(id, Dead);
    if ok && cur != Dead {
      Others(store, alone);
      store.MarkDeadUpdate(id, cur, now);
    }
  }

  method ApplyRetryPolicy(cfg: Config, store: Store, id: JobId, now: Instant, alone: bool)
    requires id < |store.jobs| && IsTerminal(store.jobs[id].status)
    modifies store
    ensures |store.jobs| == |old(store.jobs)|
    ensures forall k :: 0 <= k < |store.jobs| && k != id ==> QuietRow(old(store.jobs)[k], store.jobs[k])
    ensures Settled(store.jobs[id]) && store.jobs[id].attempts == old(store.jobs)[id].attempts
    ensures store.jobs[id].maxRetries == old(store.jobs)[id].maxRetries
    ensures alone ==> store.Contents() == Retried(cfg, old(store.Contents()), id, now)
  {
    var row := store.jobs[id];
    Others(store, alone);
    if IsRetryable(row.errorType) && row.attempts < row.maxRetries {
      var eligibleAt := EligibleAt(cfg, row.attempts, now);
      var next := None;
      if HasFallbacks(cfg, row) {
        var role := cfg.roles[row.role.value];
        var p := SelectProvider(role.providers, Some(row.provider), role.cooldown, store, now);
        next := Some(p);
      }
      Others(store, alone);
      RequeueStopped(store, id, next, eligibleAt, now, alone);
    } else if row.attempts >= row.maxRetries {
      BuryStopped(store, id, now, alone);
    }
  }

  /** Execute one claimed job; a crash is recorded and the job finalized as failed. */
  method ProcessClaimed(cfg: Config, store: Store, id: JobId, job: Job, worker: string,
                        script: Script, at: Times, alone: bool)
    requires id < |store.jobs| && !IsQueued(store.jobs[id].status)
    modifies store
    ensures |store.jobs| == |old(store.jobs)|
    ensures forall k :: 0 <= k < |store.jobs| && k != id ==> QuietRow(old(store.jobs)[k], store.jobs[k])
    ensures Settled(store.jobs[id]) && store.jobs[id].attempts >= old(store.jobs)[id].attempts
    ensures store.jobs[id].maxRetries == old(store.jobs)[id].maxRetries
    ensures alone ==>
              var held := Renewed(cfg, old(store.Contents()), id, worker, at.beats);
              store.Contents() == Processed(cfg, held, id, job, worker, script, at)
  {
    var report := ExecuteJob(cfg, store, id, job, worker, script, at, alone);
    Others(store, alone);
    if report == Ended(Failed) {
      ApplyRetryPolicy(cfg, store, id, at.decided, alone);
    } else if report.Crashed? {
      store.RecordAttempt(CrashAttempt(id, job, worker, at.decided));
      Others(store, alone);
      var ok := Finish(store, id, Failed, Some("internal"), None, at.decided, alone);
    }
  }

  // ---- the pass

  /** How often a job can still be claimed in one pass. */
  function Weight(j: Job): nat {
    if IsTerminal(j.status) then 0
    else if j.maxRetries - j.attempts > 1 then j.maxRetries - j.attempts
    else 1
  }

  /** Its remaining retries, but at least one while it lives. */
  lemma WeightIsTriesLeft(j: Job)
    ensures j.status in {Done, Failed, Dead, Cancelled, Rejected} ==> Weight(j) == 0
    ensures j.status !in {Done, Failed, Dead, Cancelled, Rejected} ==>
              Weight(j) == (if j.maxRetries - j.attempts < 1 then 1 else j.maxRetries - j.attempts)
  {
  }

  lemma QuietWeighsNoMore(before: seq<Job>, after: seq<Job>)
    requires Quiet(before, after)
    ensures Sum(after, Weight) <= Sum(before, Weight)
  {
    SumLeq(after, before, Weight, Weight);
  }

  /** A claimed and processed job has fewer tries left than when it was found. */
  lemma RoundLosesWeight(found: seq<Job>, after: seq<Job>, id: JobId, now: Instant)
    requires id < |found| == |after| && Claimable(found[id], now)
    requires forall k :: 0 <= k < |found| && k != id ==> QuietRow(found[k], after[k])
    requires Settled(after[id]) && after[id].attempts > found[id].attempts
    requires after[id].maxRetries == found[id].maxRetries
    ensures Sum(after, Weight) < Sum(found, Weight)
  {
    assert Weight(after[id]) < Weight(found[id]);
    SumLess(after, found, id, Weight);
  }

  function Tries(j: Job): nat {
    j.attempts
  }

  /** Undisturbed, a round adds one try to the job it claims and none to any other. */
  lemma RoundAddsOneTry(cfg: Config, found: Db, id: JobId, worker: string, lease: int, now: Instant,
                        script: Script, at: Times)
    requires id < |found.jobs|
    ensures var job := ClaimedRow(found.jobs[id], worker, lease, now);
            var held := Renewed(cfg, PutRow(found, id, job), id, worker, at.beats);
            Sum(Processed(cfg, held, id, job, worker, script, at).jobs, Tries) == Sum(found.jobs, Tries) + 1
  {
    var job := ClaimedRow(found.jobs[id], worker, lease, now);
    RenewalsMoveOnlyTheLease(cfg, PutRow(found, id, job), id, worker, at.beats);
    var held := Renewed(cfg, PutRow(found, id, job), id, worker, at.beats);
    var after := Processed(cfg, held, id, job, worker, script, at).jobs;
    ProcessingEndsWhereItShould(cfg, held, id, job, worker, script, at);
    assert after == found.jobs[id := after[id]];
    SumPut(found.jobs, id, after[id], Tries);
  }

  /**
   Claim and process until nothing is claimable. The pass ends, and it processes at most as
   many jobs as the live jobs had tries left, counting each for at least one. Undisturbed, it
   counts exactly the tries it adds.
   */
  method RunPendingOnce(cfg: Config, store: Store, worker: string, lease: int, alone: bool)
    returns (count: nat, now: Instant)
    modifies store
    ensures alone ==> Sum(store.jobs, Tries) == Sum(old(store.jobs), Tries) + count
    ensures count <= Sum(old(store.jobs), Weight)
    ensures forall k :: 0 <= k < |store.jobs| ==> !Claimable(store.jobs[k], now)
  {
    count := 0;
    while true
      invariant count + Sum(store.jobs, Weight) <= Sum(old(store.jobs), Weight)
      invariant alone ==> Sum(store.jobs, Tries) == Sum(old(store.jobs), Tries) + count
      decreases Sum(store.jobs, Weight)
    {
      ghost var before := store.jobs;
      Others(store, alone);
      QuietWeighsNoMore(before, store.jobs);
      ghost var found := store.Contents();
      now := *;
      var id := store.ClaimJob(worker, lease, now);
      if id.None? {
        break;
      }
      var script: Script, at: Times := *, *;
      ProcessClaimed(cfg, store, id.value, store.jobs[id.value], worker, script, at, alone);
      count := count + 1;
      RoundLosesWeight(found.jobs, store.jobs, id.value, now);
      RoundAddsOneTry(cfg, found, id.value, worker, lease, now, script, at);
    }
  }
}
