/**
 The database as a value, and what each SQL statement of the store does to it.

 A job's id is its row number: rows are only ever appended, never deleted, and a new id is
 always fresh. Instants are microseconds; module IsoTime proves that the stored ISO strings
 compare like the instants they stand for.
 */
module JobDb {
  import opened Options
  import opened Transitions
  import opened Counting

  type JobId = nat
  type Instant = int

  datatype Job = Job(
    role: Option<string>,
    project: Option<string>,
    kind: string,
    promptHash: string,
    provider: string,
    status: Status,
    priority: int,
    attempts: nat,
    maxRetries: int,
    errorType: Option<string>,
    outputPath: Option<string>,
    workerId: Option<string>,
    leaseUntil: Option<Instant>,
    heartbeatAt: Option<Instant>,
    idempotencyKey: Option<string>,
    createdAt: Instant,
    startedAt: Option<Instant>,
    finishedAt: Option<Instant>,
    nextEligibleAt: Option<Instant>)

  datatype Event = Event(job: JobId, from: Status, to: Status, at: Instant)

  datatype Attempt = Attempt(
    job: JobId,
    attemptNo: nat,
    workerId: string,
    status: string,
    errorType: Option<string>,
    provider: Option<string>,
    finishedAt: Instant)

  /** A schedule_runs row; (schedule, minute) is unique because it is the key of the map. */
  datatype RunStatus = Missed | Enqueued
  datatype Run = Run(status: RunStatus, job: Option<JobId>)

  datatype Db = Db(
    jobs: seq<Job>,
    events: seq<Event>,
    attempts: seq<Attempt>,
    runs: map<string, map<int, Run>>)

  /** One schedule's rows. */
  function RowsOf(runs: map<string, map<int, Run>>, schedule: string): map<int, Run> {
    if schedule in runs then runs[schedule] else map[]
  }

  function PutRow(db: Db, id: JobId, row: Job): Db
    requires id < |db.jobs|
  {
    db.(jobs := db.jobs[id := row])
  }

  // ---- claiming

  predicate Claimable(j: Job, now: Instant) {
    || (j.status in {Pending, Approved}
        && (j.nextEligibleAt.None? || j.nextEligibleAt.value <= now))
    || (j.status == Running && j.leaseUntil.Some? && j.leaseUntil.value < now)
  }

  /** ORDER BY priority DESC, created_at ASC; rows equal in both may come in any order. */
  predicate Precedes(a: Job, b: Job) {
    a.priority > b.priority || (a.priority == b.priority && a.createdAt < b.createdAt)
  }

  predicate IsNextClaim(jobs: seq<Job>, id: JobId, now: Instant) {
    && id < |jobs|
    && Claimable(jobs[id], now)
    && forall k :: 0 <= k < |jobs| && Claimable(jobs[k], now) ==> !Precedes(jobs[k], jobs[id])
  }

  function ClaimedRow(j: Job, worker: string, lease: int, now: Instant): Job {
    j.(status := Running,
       workerId := Some(worker),
       startedAt := if j.startedAt.None? then Some(now) else j.startedAt,
       leaseUntil := Some(now + lease),
       heartbeatAt := Some(now),
       attempts := j.attempts + 1)
  }

  /** A claim succeeds whenever some row is claimable: the ordering always has a first row. */
  lemma {:induction false} SomeNextClaim(jobs: seq<Job>, id: JobId, now: Instant)
    requires id < |jobs| && Claimable(jobs[id], now)
    ensures exists best: nat :: IsNextClaim(jobs, best, now)
  {
    var n := |jobs| - 1;
    if exists k :: 0 <= k < n && Claimable(jobs[k], now) {
      var k :| 0 <= k < n && Claimable(jobs[k], now);
      assert jobs[..n][k] == jobs[k];
      SomeNextClaim(jobs[..n], k, now);
      var best: nat :| IsNextClaim(jobs[..n], best, now);
      assert forall i :: 0 <= i < n ==> jobs[..n][i] == jobs[i];
      if Claimable(jobs[n], now) && Precedes(jobs[n], jobs[best]) {
        assert IsNextClaim(jobs, n, now);
      } else {
        assert IsNextClaim(jobs, best, now);
      }
    } else {
      assert IsNextClaim(jobs, id, now);
    }
  }

  // ---- the three guarded mutators: finish_job, requeue and mark_dead

  datatype Call =
    | Finish(target: Status, error: Option<string>, output: Option<string>)
    | Requeue(provider: Option<string>, eligibleAt: Option<Instant>)
    | MarkDead

  /** The status a call drives the job to. */
  function Target(call: Call): Status {
    match call
    case Finish(target, _, _) => target
    case Requeue(_, _) => Pending
    case MarkDead => Dead
  }

  /** The statuses in the WHERE clause of the call's UPDATE. */
  function WriteGuard(call: Call): set<Status> {
    match call
    case Finish(_, _, _) => {Running, Cancelling}
    case Requeue(_, _) => {Failed, Dead, Cancelled}
    case MarkDead => {Failed}
  }

  function WrittenRow(j: Job, call: Call, now: Instant): Job {
    match call
    case Finish(target, error, output) =>
      j.(status := target, errorType := error, outputPath := output,
         finishedAt := Some(now), workerId := None, leaseUntil := None)
    case Requeue(provider, eligibleAt) =>
      j.(status := Pending, errorType := None, finishedAt := None,
         workerId := None, leaseUntil := None,
         provider := if provider.Some? then provider.value else j.provider,
         nextEligibleAt := eligibleAt)
    case MarkDead => j.(status := Dead)
  }

  /** What a call decides from its read: raise, do nothing, or go on to write. */
  datatype Verdict = Illegal | AlreadyThere | Proceed(cur: Status)

  function ReadVerdict(jobs: seq<Job>, id: JobId, call: Call): Verdict {
    if id >= |jobs| then Illegal
    else if jobs[id].status == Target(call) then AlreadyThere
    else if IsLegal(jobs[id].status, Target(call)) then Proceed(jobs[id].status)
    else Illegal
  }

  /** A call that has read status `cur` and has not written yet; `cur` may be stale. */
  datatype PendingWrite = PendingWrite(id: JobId, cur: Status, call: Call)

  predicate WriteHits(jobs: seq<Job>, op: PendingWrite) {
    op.id < |jobs| && jobs[op.id].status in WriteGuard(op.call)
  }

  function Write(db: Db, op: PendingWrite, now: Instant): Db {
    if WriteHits(db.jobs, op) then
      db.(jobs := db.jobs[op.id := WrittenRow(db.jobs[op.id], op.call, now)],
          events := db.events + [Event(op.id, op.cur, Target(op.call), now)])
    else db
  }

  /** The whole call when nobody interferes between its read and its write. */
  function AtomicCall(db: Db, id: JobId, call: Call, now: Instant): Db {
    match ReadVerdict(db.jobs, id, call)
    case Proceed(cur) => Write(db, PendingWrite(id, cur, call), now)
    case _ => db
  }

  // ---- single-statement mutators

  predicate CancelsAtOnce(s: Status) {
    IsQueued(s)
  }

  function CancelledRow(j: Job, now: Instant): Job {
    if CancelsAtOnce(j.status) then
      j.(status := Cancelled, finishedAt := Some(now), workerId := None, leaseUntil := None)
    else if j.status == Running then j.(status := Cancelling)
    else j
  }

  function ApprovedRow(j: Job): Job {
    if j.status == WaitingApproval then j.(status := Approved) else j
  }

  function RejectedRow(j: Job, now: Instant): Job {
    if j.status == WaitingApproval then j.(status := Rejected, finishedAt := Some(now)) else j
  }

  function RenewedRow(j: Job, worker: string, lease: int, now: Instant): Job {
    if j.workerId == Some(worker) && IsOwned(j.status) then
      j.(leaseUntil := Some(now + lease), heartbeatAt := Some(now))
    else j
  }

  // ---- queries

  function IsActive(): Job -> bool {
    (j: Job) => !IsTerminal(j.status)
  }

  function CreatedSince(t: Instant): Job -> bool {
    (j: Job) => j.createdAt >= t
  }

  function CountActive(jobs: seq<Job>): nat {
    Count(jobs, IsActive())
  }

  function CountSince(jobs: seq<Job>, t: Instant): nat {
    Count(jobs, CreatedSince(t))
  }

  predicate HoldsKey(j: Job, key: Option<string>) {
    key.Some? && j.idempotencyKey == key
  }

  predicate KeyTaken(jobs: seq<Job>, key: Option<string>) {
    exists k :: 0 <= k < |jobs| && HoldsKey(jobs[k], key)
  }

  predicate SameWork(j: Job, role: Option<string>, project: Option<string>, kind: string, hash: string) {
    j.promptHash == hash && j.role == role && j.project == project && j.kind == kind
  }

  function IsRecentFailure(provider: string, since: Instant): Attempt -> bool {
    (a: Attempt) => a.provider == Some(provider) && a.status in {"failed", "timeout"} && a.finishedAt >= since
  }

  function RecentFailures(attempts: seq<Attempt>, provider: string, since: Instant): nat {
    Count(attempts, IsRecentFailure(provider, since))
  }

  /** Only failed and timed-out attempts of the provider inside the window count, each for one. */
  lemma OneMoreAttempt(attempts: seq<Attempt>, a: Attempt, provider: string, since: Instant)
    ensures RecentFailures([], provider, since) == 0
    ensures RecentFailures(attempts + [a], provider, since) ==
            RecentFailures(attempts, provider, since)
            + (if a.provider == Some(provider) && (a.status == "failed" || a.status == "timeout")
                  && a.finishedAt >= since then 1 else 0)
  {
    CountAppend(attempts, a, IsRecentFailure(provider, since));
  }
}
