/**
 Executing one claimed job and applying the retry policy, as a function on the database: what
 the worker does to it while nobody else acts. Module WorkerLoop has the statements themselves,
 with and without the rest of the world in between.
 */
module Supervisor {
  import opened Options
  import opened Transitions
  import opened Counting
  import opened JobDb
  import opened Backoff
  import opened Routing

  datatype Role = Role(providers: seq<string>, cooldown: Cooldown)

  datatype Config = Config(roles: map<string, Role>, lease: int, backoffBase: int, backoffMax: int)

  const RETRYABLE := {"timeout", "rate_limit", "unavailable", "unknown"}

  predicate IsRetryable(errorType: Option<string>) {
    errorType.Some? && errorType.value in RETRYABLE
  }

  /** How the provider's run ended. */
  datatype Execution =
    | Succeeded(output: string)
    | WasCancelled
    | DidFail(status: string, error: Option<string>, classified: string)  // failed, timeout, ...

  /** How one call of execute_job goes: it raises before its attempt is recorded, after it, or not. */
  datatype Script =
    | Raises
    | RunsTo(run: Execution, raisesLate: bool)

  /** When the heartbeat was called, the run ended, finish_job wrote, and the retry policy decided. */
  datatype Times = Times(beats: seq<Instant>, ended: Instant, finished: Instant, decided: Instant)

  /** What execute_job tells its caller: a final status, or an exception. */
  datatype Report = Ended(status: Status) | Crashed

  function AttemptOf(run: Execution, id: JobId, job: Job, worker: string, at: Instant): Attempt {
    match run
    case Succeeded(_) => Attempt(id, job.attempts, worker, "done", None, Some(job.provider), at)
    case WasCancelled => Attempt(id, job.attempts, worker, "cancelled", None, Some(job.provider), at)
    case DidFail(status, error, _) => Attempt(id, job.attempts, worker, status, error, Some(job.provider), at)
  }

  function CrashAttempt(id: JobId, job: Job, worker: string, at: Instant): Attempt {
    Attempt(id, job.attempts, worker, "failed", Some("internal"), None, at)
  }

  /** An error the runtime could not name is classified by its output. */
  function FailureType(error: Option<string>, classified: string): Option<string> {
    if error in {None, Some("unknown")} then Some(classified) else error
  }

  /** The finish_job call a run ends with. */
  function EndingOf(run: Execution): Call {
    match run
    case Succeeded(output) => Finish(Done, None, Some(output))
    case WasCancelled => Finish(Cancelled, None, None)
    case DidFail(_, error, classified) => Finish(Failed, FailureType(error, classified), None)
  }

  /** The worker's own heartbeats, one renewal after the other. */
  function Renewed(cfg: Config, db: Db, id: JobId, worker: string, beats: seq<Instant>): (t: Db)
    ensures |t.jobs| == |db.jobs|
  {
    if beats == [] || id >= |db.jobs| then db
    else
      var n := |beats| - 1;
      var before := Renewed(cfg, db, id, worker, beats[..n]);
      PutRow(before, id, RenewedRow(before.jobs[id], worker, cfg.lease, beats[n]))
  }

  /** They move the lease and the heartbeat of its row, and nothing else. */
  lemma {:induction false} RenewalsMoveOnlyTheLease(cfg: Config, db: Db, id: JobId, worker: string, beats: seq<Instant>)
    requires id < |db.jobs|
    ensures var t := Renewed(cfg, db, id, worker, beats);
            var row := db.jobs[id].(leaseUntil := t.jobs[id].leaseUntil, heartbeatAt := t.jobs[id].heartbeatAt);
            t == PutRow(db, id, row)
  {
    if beats != [] {
      RenewalsMoveOnlyTheLease(cfg, db, id, worker, beats[..|beats| - 1]);
    } else {
      assert db.jobs[id := db.jobs[id]] == db.jobs;
    }
  }

  /** The job of an execution from the end of its heartbeats on: attempt, finish_job, unless it raises. */
  function Executed(db: Db, id: JobId, job: Job, worker: string, script: Script, at: Times): Db {
    match script
    case Raises => db
    case RunsTo(run, raisesLate) =>
      var recorded := db.(attempts := db.attempts + [AttemptOf(run, id, job, worker, at.ended)]);
      if raisesLate then recorded else AtomicCall(recorded, id, EndingOf(run), at.finished)
  }

  function ReportOf(db: Db, id: JobId, script: Script): Report {
    match script
    case Raises => Crashed
    case RunsTo(run, raisesLate) =>
      if raisesLate || ReadVerdict(db.jobs, id, EndingOf(run)).Illegal? then Crashed else Ended(Target(EndingOf(run)))
  }

  // ---- the retry policy

  function EligibleAt(cfg: Config, attempts: nat, now: Instant): Option<Instant> {
    var delay := ComputeBackoffSeconds(attempts, cfg.backoffBase, cfg.backoffMax);
    if delay > 0 then Some(now + delay * SECOND) else None
  }

  predicate HasFallbacks(cfg: Config, job: Job) {
    job.role.Some? && job.role.value in cfg.roles && |cfg.roles[job.role.value].providers| > 1
  }

  /** A role with several providers moves on to the nearest healthy one. */
  function NextProvider(cfg: Config, job: Job, attempts: seq<Attempt>, now: Instant): Option<string> {
    if HasFallbacks(cfg, job) then
      var role := cfg.roles[job.role.value];
      Some(Choice(role.providers, StartIndex(role.providers, Some(job.provider)),
                  Cooling(attempts, role.cooldown, now), 0))
    else None
  }

  function RetryCall(cfg: Config, job: Job, attempts: seq<Attempt>, now: Instant): Option<Call> {
    if IsRetryable(job.errorType) && job.attempts < job.maxRetries then
      Some(Requeue(NextProvider(cfg, job, attempts, now), EligibleAt(cfg, job.attempts, now)))
    else if job.attempts >= job.maxRetries then Some(MarkDead)
    else None
  }

  function Retried(cfg: Config, db: Db, id: JobId, now: Instant): Db
    requires id < |db.jobs|
  {
    match RetryCall(cfg, db.jobs[id], db.attempts, now)
    case Some(call) => AtomicCall(db, id, call, now)
    case None => db
  }

  /** The whole of it, from the end of the heartbeats on. */
  function Processed(cfg: Config, db: Db, id: JobId, job: Job, worker: string, script: Script, at: Times): Db
    requires id < |db.jobs|
  {
    var ran := Executed(db, id, job, worker, script, at);
    match ReportOf(db, id, script)
    case Crashed =>
      AtomicCall(ran.(attempts := ran.attempts + [CrashAttempt(id, job, worker, at.decided)]),
                 id, Finish(Failed, Some("internal"), None), at.decided)
    case Ended(status) => if status == Failed then Retried(cfg, ran, id, at.decided) else ran
  }

  // ---- where a processed job ends up

  /** What the retry policy makes of a job that failed on its n-th attempt. */
  function AfterFailure(error: Option<string>, attempts: nat, maxRetries: int): Status {
    if attempts >= maxRetries then Dead else if IsRetryable(error) then Pending else Failed
  }

  function FinalStatus(script: Script, job: Job): Status {
    match script
    case Raises => Failed
    case RunsTo(run, raisesLate) =>
      if raisesLate then Failed
      else match run
           case Succeeded(_) => Done
           case WasCancelled => Cancelled
           case DidFail(_, error, classified) =>
             AfterFailure(FailureType(error, classified), job.attempts, job.maxRetries)
  }

  /** The finish_job call of an uninterrupted run is legal and writes its row. */
  lemma EndingIsWritten(db: Db, id: JobId, run: Execution, now: Instant)
    requires id < |db.jobs| && IsOwned(db.jobs[id].status)
    ensures !ReadVerdict(db.jobs, id, EndingOf(run)).Illegal?
    ensures AtomicCall(db, id, EndingOf(run), now) ==
            db.(jobs := db.jobs[id := WrittenRow(db.jobs[id], EndingOf(run), now)],
                events := db.events + [Event(id, db.jobs[id].status, Target(EndingOf(run)), now)])
  {
  }

  /** So is the retry policy's call, if it makes one. */
  lemma RetryIsWritten(cfg: Config, db: Db, id: JobId, now: Instant)
    requires id < |db.jobs| && db.jobs[id].status == Failed
    ensures Retried(cfg, db, id, now) ==
            match RetryCall(cfg, db.jobs[id], db.attempts, now)
            case None => db
            case Some(call) =>
              db.(jobs := db.jobs[id := WrittenRow(db.jobs[id], call, now)],
                  events := db.events + [Event(id, Failed, Target(call), now)])
  {
  }

  lemma ProcessedRun(cfg: Config, db: Db, id: JobId, job: Job, worker: string, run: Execution, at: Times)
    requires id < |db.jobs| && IsOwned(db.jobs[id].status)
    ensures var recorded := db.(attempts := db.attempts + [AttemptOf(run, id, job, worker, at.ended)]);
            var event := Event(id, db.jobs[id].status, Target(EndingOf(run)), at.finished);
            var ended := recorded.(jobs := db.jobs[id := WrittenRow(db.jobs[id], EndingOf(run), at.finished)],
                                   events := db.events + [event]);
            Processed(cfg, db, id, job, worker, RunsTo(run, false), at) ==
            if run.DidFail? then Retried(cfg, ended, id, at.decided) else ended
  {
    EndingIsWritten(db.(attempts := db.attempts + [AttemptOf(run, id, job, worker, at.ended)]), id, run, at.finished);
  }

  lemma RunEndsWhereItShould(cfg: Config, db: Db, id: JobId, job: Job, worker: string, run: Execution, at: Times)
    requires id < |db.jobs| && IsOwned(db.jobs[id].status)
    ensures var t := Processed(cfg, db, id, job, worker, RunsTo(run, false), at);
            && |t.jobs| == |db.jobs| && t.jobs == db.jobs[id := t.jobs[id]]
            && t.jobs[id].status == FinalStatus(RunsTo(run, false), db.jobs[id])
            && t.jobs[id].attempts == db.jobs[id].attempts && t.jobs[id].maxRetries == db.jobs[id].maxRetries
            && (t.jobs[id].status == Done ==> t.jobs[id].outputPath == Some(run.output))
            && t.attempts == db.attempts + [AttemptOf(run, id, job, worker, at.ended)]
  {
    ProcessedRun(cfg, db, id, job, worker, run, at);
    if run.DidFail? {
      RetryIsWritten(cfg, Executed(db, id, job, worker, RunsTo(run, false), at), id, at.decided);
    }
  }

  /**
   A job owned by its worker is, when processing ends, done with its output, cancelled, failed
   for an internal error that is never retried, or where the retry policy sends it: dead once its
   attempts are used up, back in the queue for a transient error, failed otherwise. No other row
   changes and its attempt is on record.
   */
  lemma ProcessingEndsWhereItShould(cfg: Config, db: Db, id: JobId, job: Job, worker: string, script: Script, at: Times)
    requires id < |db.jobs| && IsOwned(db.jobs[id].status)
    ensures var t := Processed(cfg, db, id, job, worker, script, at);
            && |t.jobs| == |db.jobs| && t.jobs == db.jobs[id := t.jobs[id]]
            && t.jobs[id].status == FinalStatus(script, db.jobs[id])
            && t.jobs[id].attempts == db.jobs[id].attempts && t.jobs[id].maxRetries == db.jobs[id].maxRetries
            && (t.jobs[id].status == Done ==> t.jobs[id].outputPath == Some(script.run.output))
            && ((script.Raises? || script.raisesLate) ==> t.jobs[id].errorType == Some("internal"))
            && db.attempts < t.attempts && t.attempts[|t.attempts| - 1].attemptNo == job.attempts
  {
    if script.RunsTo? && !script.raisesLate {
      RunEndsWhereItShould(cfg, db, id, job, worker, script.run, at);
    }
  }

  /** A retried job waits for its backoff and runs next on the provider that routing picks. */
  lemma RetryIsDelayedAndRouted(cfg: Config, db: Db, id: JobId, job: Job, worker: string, script: Script, at: Times)
    requires id < |db.jobs| && IsOwned(db.jobs[id].status)
    requires FinalStatus(script, db.jobs[id]) == Pending
    ensures var t := Processed(cfg, db, id, job, worker, script, at);
            && t.jobs[id].nextEligibleAt == EligibleAt(cfg, db.jobs[id].attempts, at.decided)
            && t.jobs[id].provider == (var next := NextProvider(cfg, db.jobs[id], t.attempts, at.decided);
                                       if next.Some? then next.value else db.jobs[id].provider)
            && t.events == db.events + [Event(id, db.jobs[id].status, Failed, at.finished),
                                        Event(id, Failed, Pending, at.decided)]
  {
  }

  // ---- a job that keeps failing

  datatype Try = Try(worker: string, lease: int, claimed: Instant, run: Execution, at: Times)

  predicate FailsForNow(t: Try) {
    && t.run.DidFail? && IsRetryable(FailureType(t.run.error, t.run.classified))
    && t.claimed <= t.at.decided
  }

  /** The job claimed, and renewed as long as its process ran. */
  function Held(cfg: Config, db: Db, id: JobId, t: Try): Db
    requires id < |db.jobs|
  {
    Renewed(cfg, PutRow(db, id, ClaimedRow(db.jobs[id], t.worker, t.lease, t.claimed)), id, t.worker, t.at.beats)
  }

  lemma HeldRow(cfg: Config, db: Db, id: JobId, t: Try)
    requires id < |db.jobs|
    ensures var held := Held(cfg, db, id, t);
            && |held.jobs| == |db.jobs| && held.attempts == db.attempts
            && held.jobs[id].status == Running && held.jobs[id].attempts == db.jobs[id].attempts + 1
            && held.jobs[id].maxRetries == db.jobs[id].maxRetries
            && held.jobs[id].role == db.jobs[id].role && held.jobs[id].provider == db.jobs[id].provider
  {
    var job := ClaimedRow(db.jobs[id], t.worker, t.lease, t.claimed);
    RenewalsMoveOnlyTheLease(cfg, PutRow(db, id, job), id, t.worker, t.at.beats);
  }

  /** Claim the job and process it. */
  function Round(cfg: Config, db: Db, id: JobId, t: Try): Db
    requires id < |db.jobs|
  {
    var job := ClaimedRow(db.jobs[id], t.worker, t.lease, t.claimed);
    Processed(cfg, Held(cfg, db, id, t), id, job, t.worker, RunsTo(t.run, false), t.at)
  }

  function Rounds(cfg: Config, db: Db, id: JobId, tries: seq<Try>): (t: Db)
    requires id < |db.jobs|
    ensures |t.jobs| == |db.jobs|
  {
    if tries == [] then db
    else
      var n := |tries| - 1;
      Round(cfg, Rounds(cfg, db, id, tries[..n]), id, tries[n])
  }

  lemma FailingRound(cfg: Config, db: Db, id: JobId, t: Try)
    requires id < |db.jobs| && FailsForNow(t)
    ensures var row := Round(cfg, db, id, t).jobs[id];
            && row.attempts == db.jobs[id].attempts + 1 && row.maxRetries == db.jobs[id].maxRetries
            && row.status == (if row.attempts >= row.maxRetries then Dead else Pending)
            && (row.status == Pending ==> row.nextEligibleAt == EligibleAt(cfg, row.attempts, t.at.decided))
  {
    var job := ClaimedRow(db.jobs[id], t.worker, t.lease, t.claimed);
    var script := RunsTo(t.run, false);
    var held := Held(cfg, db, id, t);
    HeldRow(cfg, db, id, t);
    ProcessingEndsWhereItShould(cfg, held, id, job, t.worker, script, t.at);
    if FinalStatus(script, held.jobs[id]) == Pending {
      RetryIsDelayedAndRouted(cfg, held, id, job, t.worker, script, t.at);
    }
  }

  /** It is tried max_retries times (and at least once), and the last failure buries it. */
  lemma {:induction false} FailsUntilDead(cfg: Config, db: Db, id: JobId, tries: seq<Try>)
    requires id < |db.jobs| && db.jobs[id].attempts == 0 && tries != []
    requires forall k :: 0 <= k < |tries| ==> FailsForNow(tries[k])
    ensures var row := Rounds(cfg, db, id, tries).jobs[id];
            && row.attempts == |tries| && row.maxRetries == db.jobs[id].maxRetries
            && row.status == (if |tries| >= row.maxRetries then Dead else Pending)
            && (row.status == Pending ==>
                  row.nextEligibleAt == EligibleAt(cfg, |tries|, tries[|tries| - 1].at.decided))
  {
    var n := |tries| - 1;
    if n > 0 {
      FailsUntilDead(cfg, db, id, tries[..n]);
    }
    FailingRound(cfg, Rounds(cfg, db, id, tries[..n]), id, tries[n]);
  }

  /** Each try is made when the job is claimable, and none before the last one was decided. */
  ghost predicate Scheduled(cfg: Config, db: Db, id: JobId, tries: seq<Try>)
    requires id < |db.jobs|
  {
    forall k: nat :: 0 < k < |tries| ==> ClaimedAfter(cfg, db, id, tries, k)
  }

  predicate ClaimedAfter(cfg: Config, db: Db, id: JobId, tries: seq<Try>, k: nat)
    requires id < |db.jobs| && 0 < k < |tries|
  {
    tries[k - 1].at.decided <= tries[k].claimed
    && Claimable(Rounds(cfg, db, id, tries[..k]).jobs[id], tries[k].claimed)
  }

  lemma NextTryWaits(cfg: Config, db: Db, id: JobId, tries: seq<Try>, k: nat)
    requires id < |db.jobs| && db.jobs[id].attempts == 0 && 0 < k < |tries|
    requires forall j :: 0 <= j < |tries| ==> FailsForNow(tries[j])
    requires ClaimedAfter(cfg, db, id, tries, k)
    ensures tries[k].claimed - tries[k - 1].claimed
            >= ComputeBackoffSeconds(k, cfg.backoffBase, cfg.backoffMax) * SECOND
  {
    FailsUntilDead(cfg, db, id, tries[..k]);
    assert tries[..k][k - 1] == tries[k - 1] && FailsForNow(tries[k - 1]);
  }

  /** From the first try to the last at least all the delays in between go by. */
  lemma {:induction false} TriesAreSpreadOut(cfg: Config, db: Db, id: JobId, tries: seq<Try>, k: nat)
    requires id < |db.jobs| && db.jobs[id].attempts == 0 && k < |tries|
    requires forall j :: 0 <= j < |tries| ==> FailsForNow(tries[j])
    requires Scheduled(cfg, db, id, tries)
    ensures tries[k].claimed - tries[0].claimed >= TotalDelay(k + 1, cfg.backoffBase, cfg.backoffMax) * SECOND
  {
    if k > 0 {
      TriesAreSpreadOut(cfg, db, id, tries, k - 1);
      NextTryWaits(cfg, db, id, tries, k);
    }
  }

  // ---- which provider each try runs on

  predicate IsRotated(cfg: Config, job: Job, role: Role) {
    && job.role.Some? && job.role.value in cfg.roles && cfg.roles[job.role.value] == role
    && |role.providers| > 1 && AreDistinct(role.providers)
  }

  /** When the retry policy decided on try k, the provider whose turn it was next was not cooling. */
  predicate TurnIsHealthy(cfg: Config, db: Db, id: JobId, role: Role, i: nat, tries: seq<Try>, k: nat)
    requires id < |db.jobs| && k < |tries| && i < |role.providers|
  {
    !IsCooling(Rounds(cfg, db, id, tries[..k + 1]).attempts, role.cooldown, tries[k].at.decided,
               role.providers[InTurn(i, k + 1, |role.providers|)])
  }

  lemma NextInTurn(cfg: Config, job: Job, attempts: seq<Attempt>, now: Instant, role: Role, at: nat, next: nat)
    requires IsRotated(cfg, job, role) && at < |role.providers| && job.provider == role.providers[at]
    requires next == InTurn(at, 1, |role.providers|)
    requires !IsCooling(attempts, role.cooldown, now, role.providers[next])
    ensures NextProvider(cfg, job, attempts, now) == Some(role.providers[next])
  {
    NextHealthyIsChosen(role.providers, at, next, Cooling(attempts, role.cooldown, now));
  }

  lemma RoundKeepsRole(cfg: Config, db: Db, id: JobId, t: Try)
    requires id < |db.jobs| && FailsForNow(t)
    ensures Round(cfg, db, id, t).jobs[id].role == db.jobs[id].role
  {
    var job := ClaimedRow(db.jobs[id], t.worker, t.lease, t.claimed);
    var held := Held(cfg, db, id, t);
    HeldRow(cfg, db, id, t);
    ProcessedRun(cfg, held, id, job, t.worker, t.run, t.at);
    RetryIsWritten(cfg, Executed(held, id, job, t.worker, RunsTo(t.run, false), t.at), id, t.at.decided);
  }

  lemma FailingRoundMovesOn(cfg: Config, db: Db, id: JobId, t: Try, role: Role, at: nat, next: nat)
    requires id < |db.jobs| && FailsForNow(t) && db.jobs[id].attempts + 1 < db.jobs[id].maxRetries
    requires IsRotated(cfg, db.jobs[id], role) && at < |role.providers| && db.jobs[id].provider == role.providers[at]
    requires next == InTurn(at, 1, |role.providers|)
    requires !IsCooling(Round(cfg, db, id, t).attempts, role.cooldown, t.at.decided, role.providers[next])
    ensures Round(cfg, db, id, t).jobs[id].provider == role.providers[next]
    ensures Round(cfg, db, id, t).jobs[id].role == db.jobs[id].role
  {
    var job := ClaimedRow(db.jobs[id], t.worker, t.lease, t.claimed);
    var attempts := Round(cfg, db, id, t).attempts;
    var held := Held(cfg, db, id, t);
    HeldRow(cfg, db, id, t);
    RoundKeepsRole(cfg, db, id, t);
    RetryIsDelayedAndRouted(cfg, held, id, job, t.worker, RunsTo(t.run, false), t.at);
    NextInTurn(cfg, held.jobs[id], attempts, t.at.decided, role, at, next);
  }

  lemma AttemptsCountTries(cfg: Config, db: Db, id: JobId, tries: seq<Try>)
    requires id < |db.jobs| && db.jobs[id].attempts == 0
    requires forall k :: 0 <= k < |tries| ==> FailsForNow(tries[k])
    ensures var row := Rounds(cfg, db, id, tries).jobs[id];
            row.attempts == |tries| && row.maxRetries == db.jobs[id].maxRetries
  {
    if tries != [] {
      FailsUntilDead(cfg, db, id, tries);
    }
  }

  ghost predicate TurnsAreHealthy(cfg: Config, db: Db, id: JobId, role: Role, i: nat, tries: seq<Try>)
    requires id < |db.jobs| && i < |role.providers|
  {
    forall k: nat :: k < |tries| ==> TurnIsHealthy(cfg, db, id, role, i, tries, k)
  }

  lemma EarlierTurnsAreHealthy(cfg: Config, db: Db, id: JobId, role: Role, i: nat, tries: seq<Try>)
    requires id < |db.jobs| && i < |role.providers| && tries != [] && TurnsAreHealthy(cfg, db, id, role, i, tries)
    ensures TurnsAreHealthy(cfg, db, id, role, i, tries[..|tries| - 1])
  {
    var before := tries[..|tries| - 1];
    forall k: nat | k < |before| ensures TurnIsHealthy(cfg, db, id, role, i, before, k) {
      assert before[..k + 1] == tries[..k + 1] && TurnIsHealthy(cfg, db, id, role, i, tries, k);
    }
  }

  /**
   A job that keeps failing goes round its role's providers: begun on index i of n distinct ones,
   after k tries it runs next k places further round, on index (i + k) mod n, as long as the one
   whose turn it is has not failed too often lately, this job's own failures included.
   */
  lemma {:induction false} RetriesGoRound(cfg: Config, db: Db, id: JobId, role: Role, i: nat, tries: seq<Try>)
    requires id < |db.jobs| && db.jobs[id].attempts == 0 && |tries| < db.jobs[id].maxRetries
    requires forall j :: 0 <= j < |tries| ==> FailsForNow(tries[j])
    requires IsRotated(cfg, db.jobs[id], role) && i < |role.providers| && db.jobs[id].provider == role.providers[i]
    requires TurnsAreHealthy(cfg, db, id, role, i, tries)
    ensures var row := Rounds(cfg, db, id, tries).jobs[id];
            row.provider == role.providers[InTurn(i, |tries|, |role.providers|)] && row.role == db.jobs[id].role
  {
    if tries != [] {
      var n, size := |tries| - 1, |role.providers|;
      EarlierTurnsAreHealthy(cfg, db, id, role, i, tries);
      RetriesGoRound(cfg, db, id, role, i, tries[..n]);
      AttemptsCountTries(cfg, db, id, tries[..n]);
      assert tries[..n + 1] == tries && TurnIsHealthy(cfg, db, id, role, i, tries, n);
      FailingRoundMovesOn(cfg, Rounds(cfg, db, id, tries[..n]), id, tries[n], role,
                          InTurn(i, n, size), InTurn(i, n + 1, size));
    }
  }

  lemma {:induction false} RoundsRecordTries(cfg: Config, db: Db, id: JobId, tries: seq<Try>)
    requires id < |db.jobs|
    ensures |Rounds(cfg, db, id, tries).attempts| == |db.attempts| + |tries|
  {
    if tries != [] {
      var n := |tries| - 1;
      RoundsRecordTries(cfg, db, id, tries[..n]);
      var mid, t := Rounds(cfg, db, id, tries[..n]), tries[n];
      var job := ClaimedRow(mid.jobs[id], t.worker, t.lease, t.claimed);
      HeldRow(cfg, mid, id, t);
      RunEndsWhereItShould(cfg, Held(cfg, mid, id, t), id, job, t.worker, t.run, t.at);
    }
  }

  /** A cooldown that tolerates more failures than there are attempts on record never interferes. */
  lemma TolerantCooldownIsHealthy(cfg: Config, db: Db, id: JobId, role: Role, i: nat, tries: seq<Try>)
    requires id < |db.jobs| && i < |role.providers| && role.cooldown.allowedFails > |db.attempts| + |tries|
    ensures TurnsAreHealthy(cfg, db, id, role, i, tries)
  {
    forall k: nat | k < |tries| ensures TurnIsHealthy(cfg, db, id, role, i, tries, k) {
      RoundsRecordTries(cfg, db, id, tries[..k + 1]);
      NotYetCooling(Rounds(cfg, db, id, tries[..k + 1]).attempts, role.cooldown, tries[k].at.decided,
                    role.providers[InTurn(i, k + 1, |role.providers|)]);
    }
  }

  lemma NotYetCooling(attempts: seq<Attempt>, cooldown: Cooldown, now: Instant, provider: string)
    requires cooldown.allowedFails > |attempts|
    ensures !IsCooling(attempts, cooldown, now, provider)
  {
    CountAtMostAll(attempts, IsRecentFailure(provider, now - cooldown.windowSeconds * SECOND));
  }

  // ---- a provider that fails too often is left alone

  /** How many of the tries ran on the provider and failed or timed out no earlier than `since`. */
  function FailuresOn(cfg: Config, db: Db, id: JobId, tries: seq<Try>, provider: string, since: Instant): nat
    requires id < |db.jobs|
  {
    if tries == [] then 0
    else
      var n := |tries| - 1;
      var t := tries[n];
      FailuresOn(cfg, db, id, tries[..n], provider, since)
      + if Rounds(cfg, db, id, tries[..n]).jobs[id].provider == provider && t.run.DidFail?
           && (t.run.status == "failed" || t.run.status == "timeout") && t.at.ended >= since
        then 1 else 0
  }

  lemma RoundRecords(cfg: Config, db: Db, id: JobId, t: Try, provider: string, since: Instant)
    requires id < |db.jobs| && t.run.DidFail?
    ensures RecentFailures(Round(cfg, db, id, t).attempts, provider, since) ==
            RecentFailures(db.attempts, provider, since)
            + (if db.jobs[id].provider == provider && (t.run.status == "failed" || t.run.status == "timeout")
                  && t.at.ended >= since then 1 else 0)
  {
    var job := ClaimedRow(db.jobs[id], t.worker, t.lease, t.claimed);
    HeldRow(cfg, db, id, t);
    RunEndsWhereItShould(cfg, Held(cfg, db, id, t), id, job, t.worker, t.run, t.at);
    OneMoreAttempt(db.attempts, AttemptOf(t.run, id, job, t.worker, t.at.ended), provider, since);
  }

  /** The attempts table knows of every failed try. */
  lemma {:induction false} FailuresAreOnRecord(cfg: Config, db: Db, id: JobId, tries: seq<Try>,
                                               provider: string, since: Instant)
    requires id < |db.jobs| && forall k :: 0 <= k < |tries| ==> FailsForNow(tries[k])
    ensures RecentFailures(Rounds(cfg, db, id, tries).attempts, provider, since) ==
            RecentFailures(db.attempts, provider, since) + FailuresOn(cfg, db, id, tries, provider, since)
  {
    if tries != [] {
      var n := |tries| - 1;
      FailuresAreOnRecord(cfg, db, id, tries[..n], provider, since);
      assert FailsForNow(tries[n]);
      RoundRecords(cfg, Rounds(cfg, db, id, tries[..n]), id, tries[n], provider, since);
    }
  }

  lemma {:induction false} RoundsKeepRole(cfg: Config, db: Db, id: JobId, tries: seq<Try>)
    requires id < |db.jobs| && forall k :: 0 <= k < |tries| ==> FailsForNow(tries[k])
    ensures Rounds(cfg, db, id, tries).jobs[id].role == db.jobs[id].role
  {
    if tries != [] {
      var n := |tries| - 1;
      RoundsKeepRole(cfg, db, id, tries[..n]);
      RoundKeepsRole(cfg, Rounds(cfg, db, id, tries[..n]), id, tries[n]);
    }
  }

  lemma RetryAvoids(cfg: Config, db: Db, id: JobId, t: Try, role: Role, bad: string, good: string)
    requires id < |db.jobs| && FailsForNow(t) && db.jobs[id].attempts + 1 < db.jobs[id].maxRetries
    requires HasFallbacks(cfg, db.jobs[id]) && cfg.roles[db.jobs[id].role.value] == role && good in role.providers
    requires !IsBelow(Round(cfg, db, id, t).attempts, role.cooldown, t.at.decided, bad)
    requires IsBelow(Round(cfg, db, id, t).attempts, role.cooldown, t.at.decided, good)
    ensures Round(cfg, db, id, t).jobs[id].provider != bad
    ensures Round(cfg, db, id, t).jobs[id].provider in role.providers
  {
    var job := ClaimedRow(db.jobs[id], t.worker, t.lease, t.claimed);
    var held, after := Held(cfg, db, id, t), Round(cfg, db, id, t);
    HeldRow(cfg, db, id, t);
    RetryIsDelayedAndRouted(cfg, held, id, job, t.worker, RunsTo(t.run, false), t.at);
    BelowIsChosen(role.providers, Some(held.jobs[id].provider), after.attempts, role.cooldown, t.at.decided);
  }

  /**
   Once a provider has failed or timed out in allowed_fails tries of the job inside the window, the
   retry decided then runs elsewhere, if any provider of the role is still below its threshold.
   */
  lemma FailingProviderIsAvoided(cfg: Config, db: Db, id: JobId, role: Role, tries: seq<Try>, bad: string, good: string,
                                 now: Instant, since: Instant)
    requires id < |db.jobs| && db.jobs[id].attempts == 0 && 0 < |tries| < db.jobs[id].maxRetries
    requires forall k :: 0 <= k < |tries| ==> FailsForNow(tries[k])
    requires db.jobs[id].role.Some? && db.jobs[id].role.value in cfg.roles && cfg.roles[db.jobs[id].role.value] == role
    requires |role.providers| > 1 && good in role.providers
    requires now == tries[|tries| - 1].at.decided && since == now - role.cooldown.windowSeconds * 1_000_000
    requires FailuresOn(cfg, db, id, tries, bad, since) >= role.cooldown.allowedFails
    requires RecentFailures(Rounds(cfg, db, id, tries).attempts, good, since) < role.cooldown.allowedFails
    ensures Rounds(cfg, db, id, tries).jobs[id].provider != bad
    ensures Rounds(cfg, db, id, tries).jobs[id].provider in role.providers
  {
    var n := |tries| - 1;
    FailuresAreOnRecord(cfg, db, id, tries, bad, since);
    CountShows(Rounds(cfg, db, id, tries).attempts, role.cooldown, now, since, bad);
    CountShows(Rounds(cfg, db, id, tries).attempts, role.cooldown, now, since, good);
    BeforeLastTry(cfg, db, id, tries);
    LastTryAvoids(cfg, Rounds(cfg, db, id, tries[..n]), Rounds(cfg, db, id, tries), id, tries[n], role, bad, good, now);
  }

  lemma LastTryAvoids(cfg: Config, db: Db, after: Db, id: JobId, t: Try, role: Role, bad: string, good: string,
                      now: Instant)
    requires id < |db.jobs| && FailsForNow(t) && db.jobs[id].attempts + 1 < db.jobs[id].maxRetries
    requires HasFallbacks(cfg, db.jobs[id]) && cfg.roles[db.jobs[id].role.value] == role && good in role.providers
    requires after == Round(cfg, db, id, t) && now == t.at.decided
    requires !IsBelow(after.attempts, role.cooldown, now, bad) && IsBelow(after.attempts, role.cooldown, now, good)
    ensures id < |after.jobs| && after.jobs[id].provider != bad && after.jobs[id].provider in role.providers
  {
    FailingRound(cfg, db, id, t);
    RetryAvoids(cfg, db, id, t, role, bad, good);
  }

  lemma CountShows(attempts: seq<Attempt>, cooldown: Cooldown, now: Instant, since: Instant, provider: string)
    requires since == now - cooldown.windowSeconds * 1_000_000
    ensures IsBelow(attempts, cooldown, now, provider) <==>
            RecentFailures(attempts, provider, since) < cooldown.allowedFails
  {
  }

  lemma BeforeLastTry(cfg: Config, db: Db, id: JobId, tries: seq<Try>)
    requires id < |db.jobs| && db.jobs[id].attempts == 0 && 0 < |tries| < db.jobs[id].maxRetries
    requires forall k :: 0 <= k < |tries| ==> FailsForNow(tries[k])
    ensures var row := Rounds(cfg, db, id, tries[..|tries| - 1]).jobs[id];
            row.role == db.jobs[id].role && row.attempts + 1 < row.maxRetries
  {
    RoundsKeepRole(cfg, db, id, tries[..|tries| - 1]);
    AttemptsCountTries(cfg, db, id, tries[..|tries| - 1]);
  }

  // ---- the retry policy in its own constants

  /** The errors that are tried again. */
  predicate IsTransient(error: string) {
    error == "timeout" || error == "rate_limit" || error == "unavailable" || error == "unknown"
  }

  /** The name an error goes by: what the runtime called it, unless it did not know. */
  predicate IsCalled(run: Execution, error: string)
    requires run.DidFail?
  {
    if run.error == None || run.error == Some("unknown") then error == run.classified else run.error == Some(error)
  }

  /**
   A failed run ends dead when its attempts are used up, pending when its error is transient, and
   failed otherwise; dead and failed rows say which error it was.
   */
  lemma FailedRunEnds(cfg: Config, db: Db, id: JobId, job: Job, worker: string, run: Execution, at: Times,
                      error: string)
    requires id < |db.jobs| && IsOwned(db.jobs[id].status) && run.DidFail? && IsCalled(run, error)
    ensures var row := Processed(cfg, db, id, job, worker, RunsTo(run, false), at).jobs[id];
            var used := db.jobs[id].attempts >= db.jobs[id].maxRetries;
            && (row.status == Dead <==> used)
            && (row.status == Pending <==> !used && IsTransient(error))
            && (row.status == Failed <==> !used && !IsTransient(error))
            && (row.status != Pending ==> row.errorType == Some(error) && row.finishedAt == Some(at.finished))
  {
    ProcessedRun(cfg, db, id, job, worker, run, at);
    RetryIsWritten(cfg, Executed(db, id, job, worker, RunsTo(run, false), at), id, at.decided);
  }

  /** A run that did not fail ends done with its output, or cancelled. */
  lemma OtherRunEnds(cfg: Config, db: Db, id: JobId, job: Job, worker: string, run: Execution, at: Times)
    requires id < |db.jobs| && IsOwned(db.jobs[id].status) && !run.DidFail?
    ensures var row := Processed(cfg, db, id, job, worker, RunsTo(run, false), at).jobs[id];
            && row.errorType == None && row.finishedAt == Some(at.finished)
            && row.status == (if run.Succeeded? then Done else Cancelled)
            && row.outputPath == (if run.Succeeded? then Some(run.output) else None)
  {
    ProcessedRun(cfg, db, id, job, worker, run, at);
  }

  /** The attempt on record is that of the claimed row, under the provider it ran on. */
  lemma AttemptIsRecorded(cfg: Config, db: Db, id: JobId, job: Job, worker: string, run: Execution, at: Times)
    requires id < |db.jobs| && IsOwned(db.jobs[id].status)
    ensures var t := Processed(cfg, db, id, job, worker, RunsTo(run, false), at);
            |t.attempts| == |db.attempts| + 1 && t.attempts[..|db.attempts|] == db.attempts
            && var a := t.attempts[|db.attempts|];
               && a.job == id && a.attemptNo == job.attempts && a.workerId == worker && a.provider == Some(job.provider)
               && a.finishedAt == at.ended
               && a.status == (match run case Succeeded(_) => "done" case WasCancelled => "cancelled"
                                         case DidFail(status, _, _) => status)
               && a.errorType == (if run.DidFail? then run.error else None)
  {
    RunEndsWhereItShould(cfg, db, id, job, worker, run, at);
  }

  /**
   A retried job can be claimed from exactly this moment on: base seconds after the decision, doubled
   with every attempt after the first, cut at the maximum; at once when backoff is off.
   */
  lemma RetryIsClaimableFrom(cfg: Config, db: Db, id: JobId, job: Job, worker: string, run: Execution, at: Times,
                             now: Instant)
    requires id < |db.jobs| && IsOwned(db.jobs[id].status) && run.DidFail? && db.jobs[id].attempts >= 1
    requires FinalStatus(RunsTo(run, false), db.jobs[id]) == Pending && cfg.backoffMax > 0
    ensures var row := Processed(cfg, db, id, job, worker, RunsTo(run, false), at).jobs[id];
            var doubled := cfg.backoffBase * Pow2(db.jobs[id].attempts - 1);
            var seconds := if cfg.backoffMax < doubled then cfg.backoffMax else doubled;
            Claimable(row, now) <==> cfg.backoffBase <= 0 || now >= at.decided + seconds * 1_000_000
  {
    RetryIsDelayedAndRouted(cfg, db, id, job, worker, RunsTo(run, false), at);
    DelaysGrowToTheCap(db.jobs[id].attempts, db.jobs[id].attempts, cfg.backoffBase, cfg.backoffMax);
  }

  /** A crash leaves a failed attempt on record and a job that failed for good; both say internal. */
  lemma CrashIsRecorded(cfg: Config, db: Db, id: JobId, job: Job, worker: string, script: Script, at: Times)
    requires id < |db.jobs| && IsOwned(db.jobs[id].status) && (script.Raises? || script.raisesLate)
    ensures var t := Processed(cfg, db, id, job, worker, script, at);
            && t.jobs[id].status == Failed && t.jobs[id].errorType == Some("internal")
            && t.jobs[id].finishedAt == Some(at.decided)
            && |t.attempts| == |db.attempts| + (if script.Raises? then 1 else 2)
            && var a := t.attempts[|t.attempts| - 1];
               && a.job == id && a.attemptNo == job.attempts && a.workerId == worker && a.provider == None
               && a.status == "failed" && a.errorType == Some("internal")
  {
  }
}
