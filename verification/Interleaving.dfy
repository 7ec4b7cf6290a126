/**
 Any number of workers, CLI commands and schedulers on one database.

 Each SQL statement is one step. finish_job, requeue and mark_dead are split into the read
 that checks the transition and the write that makes it, so between the two every other
 step may happen and the status a write remembers may be stale. request_cancel is one step.
 Clocks are arbitrary: every step carries the instant its caller read.
 */
module Interleaving {
  import opened Options
  import opened Transitions
  import opened Counting
  import opened JobDb
  import opened EnqueueService

  datatype System = System(
    db: Db,
    budget: Budget,
    writes: multiset<PendingWrite>,  // calls between their read and their write
    claims: seq<JobId>,              // every claim so far
    requeues: nat,                   // requeue writes that changed a row so far
    gated: set<JobId>,               // jobs inserted as waiting_approval
    approvals: set<JobId>)           // jobs an approve statement moved to approved

  datatype Step =
    | EnqueueStep(req: Request, plan: Plan, diskOk: bool, now: Instant, created: Instant)
    | ClaimStep(id: JobId, worker: string, lease: int, now: Instant)
    | ReadStep(id: JobId, call: Call, manual: bool)
    | WriteStep(op: PendingWrite, now: Instant)
    | CancelStep(id: JobId, now: Instant)
    | ApproveStep(id: JobId)
    | RejectStep(id: JobId, now: Instant)
    | RenewStep(id: JobId, worker: string, lease: int, now: Instant)

  /** What the callers of finish_job pass: one of three targets, and an output only with done. */
  predicate CallerFinishes(call: Call) {
    call.Finish? ==> call.target in {Done, Failed, Cancelled} && (call.output.Some? ==> call.target == Done)
  }

  /**
   A worker only reads and writes back jobs it claimed, and buries only those whose attempts are
   used up; the CLI only requeues stopped ones.
   */
  predicate CallerAllowed(s: System, id: JobId, call: Call, manual: bool) {
    && CallerFinishes(call)
    && (if manual then call.Requeue? else id in s.claims)
    && (call.MarkDead? ==> id < |s.db.jobs| && s.db.jobs[id].attempts >= s.db.jobs[id].maxRetries)
  }

  predicate Enabled(s: System, step: Step) {
    match step
    case EnqueueStep(_, _, _, now, created) => now <= created
    case ClaimStep(id, _, _, now) => IsNextClaim(s.db.jobs, id, now)
    case ReadStep(id, call, manual) =>
      CallerAllowed(s, id, call, manual) && ReadVerdict(s.db.jobs, id, call).Proceed?
    case WriteStep(op, _) => op in s.writes
    case CancelStep(id, _) => id < |s.db.jobs|
    case ApproveStep(id) => id < |s.db.jobs|
    case RejectStep(id, _) => id < |s.db.jobs|
    case RenewStep(id, _, _, _) => id < |s.db.jobs|
  }

  function Apply(s: System, step: Step): System
    requires Enabled(s, step)
  {
    var jobs := s.db.jobs;
    match step
    case EnqueueStep(req, plan, diskOk, now, created) =>
      s.(db := s.db.(jobs := JobsAfter(jobs, s.budget, req, plan, diskOk, now, created)),
         gated := if Admits(jobs, s.budget, req, plan, diskOk, now) && plan.requireConfirm
                  then s.gated + {|jobs|} else s.gated)
    case ClaimStep(id, worker, lease, now) =>
      s.(db := PutRow(s.db, id, ClaimedRow(jobs[id], worker, lease, now)), claims := s.claims + [id])
    case ReadStep(id, call, _) =>
      s.(writes := s.writes + multiset{PendingWrite(id, jobs[id].status, call)})
    case WriteStep(op, now) =>
      s.(db := Write(s.db, op, now),
         writes := s.writes - multiset{op},
         requeues := if op.call.Requeue? && WriteHits(jobs, op) then s.requeues + 1 else s.requeues)
    case CancelStep(id, now) => s.(db := PutRow(s.db, id, CancelledRow(jobs[id], now)))
    case ApproveStep(id) =>
      s.(db := PutRow(s.db, id, ApprovedRow(jobs[id])),
         approvals := if jobs[id].status == WaitingApproval then s.approvals + {id} else s.approvals)
    case RejectStep(id, now) => s.(db := PutRow(s.db, id, RejectedRow(jobs[id], now)))
    case RenewStep(id, worker, lease, now) => s.(db := PutRow(s.db, id, RenewedRow(jobs[id], worker, lease, now)))
  }

  predicate Init(s: System) {
    s == System(Db([], [], [], map[]), s.budget, multiset{}, [], 0, {}, {})
  }

  /** Executing `steps` one after the other leads from s to t. */
  ghost predicate Leads(s: System, steps: seq<Step>, t: System)
    decreases |steps|
  {
    if steps == [] then s == t
    else Enabled(s, steps[0]) && Leads(Apply(s, steps[0]), steps[1..], t)
  }

  /** What one step does to the jobs table: nothing, one changed row, or one new row. */
  datatype Change = Same | Put(id: JobId, row: Job) | Add(row: Job)

  function ChangeOf(s: System, step: Step): (c: Change)
    requires Enabled(s, step)
    ensures c.Put? ==> c.id < |s.db.jobs|
    ensures Apply(s, step).db.jobs ==
            match c {
              case Same => s.db.jobs
              case Put(id, row) => s.db.jobs[id := row]
              case Add(row) => s.db.jobs + [row]
            }
  {
    var jobs := s.db.jobs;
    match step
    case EnqueueStep(req, plan, diskOk, now, created) =>
      if Admits(jobs, s.budget, req, plan, diskOk, now) then Add(NewJob(req, plan, created)) else Same
    case ClaimStep(id, worker, lease, now) => Put(id, ClaimedRow(jobs[id], worker, lease, now))
    case ReadStep(_, _, _) => Same
    case WriteStep(op, now) => if WriteHits(jobs, op) then Put(op.id, WrittenRow(jobs[op.id], op.call, now)) else Same
    case CancelStep(id, now) => Put(id, CancelledRow(jobs[id], now))
    case ApproveStep(id) => Put(id, ApprovedRow(jobs[id]))
    case RejectStep(id, now) => Put(id, RejectedRow(jobs[id], now))
    case RenewStep(id, worker, lease, now) => Put(id, RenewedRow(jobs[id], worker, lease, now))
  }

  // ---- the invariants

  /** Every call on its way to its write read a status from which its target is legal. */
  predicate WritesOk(s: System) {
    forall op :: op in s.writes ==>
      op.id < |s.db.jobs| && IsLegal(op.cur, Target(op.call)) && CallerFinishes(op.call)
  }

  /** Which columns go with which status. */
  predicate RowOk(j: Job) {
    && (IsOwned(j.status) <==> j.workerId.Some?)
    && (IsOwned(j.status) <==> j.leaseUntil.Some?)
    && (IsTerminal(j.status) <==> j.finishedAt.Some?)
    && (j.outputPath.Some? ==> j.status == Done)
    && (j.startedAt.Some? <==> j.attempts > 0)
  }

  function IsClaimOf(id: JobId): JobId -> bool {
    c => c == id
  }

  predicate ClaimsCounted(s: System) {
    && (forall c :: c in s.claims ==> c < |s.db.jobs|)
    && (forall i :: 0 <= i < |s.db.jobs| ==> s.db.jobs[i].attempts == Count(s.claims, IsClaimOf(i)))
  }

  predicate EventsOk(s: System) {
    forall k :: 0 <= k < |s.db.events| ==>
      s.db.events[k].job < |s.db.jobs| && IsLegal(s.db.events[k].from, s.db.events[k].to)
  }

  predicate ActiveOk(s: System) {
    CountActive(s.db.jobs) <= Cap(s.budget.maxActiveJobs) + s.requeues
  }

  function Cap(limit: int): nat {
    if limit < 0 then 0 else limit
  }

  function CreatedIn(start: Instant): Job -> bool {
    (j: Job) => start <= j.createdAt <= start + DAY
  }

  ghost predicate WindowsOk(s: System) {
    forall start :: Count(s.db.jobs, CreatedIn(start)) <= Cap(s.budget.maxJobsPerDay)
  }

  predicate KeysUnique(jobs: seq<Job>) {
    forall i, k :: 0 <= i < k < |jobs| && jobs[i].idempotencyKey.Some? ==>
      jobs[i].idempotencyKey != jobs[k].idempotencyKey
  }

  ghost predicate Inv(s: System) {
    WritesOk(s) && (forall i :: 0 <= i < |s.db.jobs| ==> RowOk(s.db.jobs[i]))
    && ClaimsCounted(s) && EventsOk(s) && ActiveOk(s) && WindowsOk(s) && KeysUnique(s.db.jobs)
  }

  // ---- one step keeps each of them

  lemma StepKeepsWrites(s: System, step: Step)
    requires WritesOk(s) && Enabled(s, step)
    ensures WritesOk(Apply(s, step))
  {
    assert |Apply(s, step).db.jobs| >= |s.db.jobs|;
  }

  lemma WrittenRowOk(j: Job, cur: Status, call: Call, now: Instant)
    requires RowOk(j) && j.status in WriteGuard(call) && IsLegal(cur, Target(call)) && CallerFinishes(call)
    ensures RowOk(WrittenRow(j, call, now))
  {
  }

  lemma ChangedRowOk(s: System, step: Step)
    requires WritesOk(s) && Enabled(s, step) && ChangeOf(s, step).Put? && RowOk(s.db.jobs[ChangeOf(s, step).id])
    ensures RowOk(ChangeOf(s, step).row)
  {
    if step.WriteStep? {
      WrittenRowOk(s.db.jobs[step.op.id], step.op.cur, step.op.call, step.now);
    }
  }

  lemma StepKeepsRows(s: System, step: Step)
    requires WritesOk(s) && Enabled(s, step)
    requires forall i :: 0 <= i < |s.db.jobs| ==> RowOk(s.db.jobs[i])
    ensures forall i :: 0 <= i < |Apply(s, step).db.jobs| ==> RowOk(Apply(s, step).db.jobs[i])
  {
    var c := ChangeOf(s, step);
    if c.Put? {
      ChangedRowOk(s, step);
    }
  }

  lemma OnlyClaimsCount(s: System, step: Step)
    requires Enabled(s, step) && !step.ClaimStep?
    ensures Apply(s, step).claims == s.claims
    ensures ChangeOf(s, step).Put? ==> ChangeOf(s, step).row.attempts == s.db.jobs[ChangeOf(s, step).id].attempts
    ensures ChangeOf(s, step).Add? ==> ChangeOf(s, step).row.attempts == 0
  {
  }

  lemma ClaimIsCounted(s: System, step: Step)
    requires ClaimsCounted(s) && Enabled(s, step) && step.ClaimStep?
    ensures ClaimsCounted(Apply(s, step))
  {
    var t := Apply(s, step);
    forall i | 0 <= i < |t.db.jobs| ensures t.db.jobs[i].attempts == Count(t.claims, IsClaimOf(i)) {
      CountAppend(s.claims, step.id, IsClaimOf(i));
    }
  }

  lemma StepKeepsClaims(s: System, step: Step)
    requires WritesOk(s) && ClaimsCounted(s) && Enabled(s, step)
    ensures ClaimsCounted(Apply(s, step))
  {
    if step.ClaimStep? {
      ClaimIsCounted(s, step);
    } else {
      OnlyClaimsCount(s, step);
      match ChangeOf(s, step)
      case Same =>
      case Put(id, row) =>
      case Add(row) =>
        assert forall k :: 0 <= k < |s.claims| ==> s.claims[k] in s.claims;
        CountZero(s.claims, IsClaimOf(|s.db.jobs|));
    }
  }

  lemma StepKeepsEvents(s: System, step: Step)
    requires WritesOk(s) && EventsOk(s) && Enabled(s, step)
    ensures EventsOk(Apply(s, step))
  {
    assert |Apply(s, step).db.jobs| >= |s.db.jobs|;
  }

  lemma StepKeepsActive(s: System, step: Step)
    requires WritesOk(s) && ActiveOk(s) && Enabled(s, step)
    ensures ActiveOk(Apply(s, step))
  {
    match ChangeOf(s, step)
    case Same =>
    case Put(id, row) => CountPut(s.db.jobs, id, row, IsActive());
    case Add(row) => CountAppend(s.db.jobs, row, IsActive());
  }

  lemma ChangeKeepsCreation(s: System, step: Step)
    requires Enabled(s, step)
    ensures Apply(s, step).budget == s.budget
    ensures ChangeOf(s, step).Put? ==> ChangeOf(s, step).row.createdAt == s.db.jobs[ChangeOf(s, step).id].createdAt
    ensures ChangeOf(s, step).Add? ==>
              step.EnqueueStep? && step.now <= ChangeOf(s, step).row.createdAt
              && CountSince(s.db.jobs, step.now - DAY) < s.budget.maxJobsPerDay
  {
  }

  /** Everything a window holds before an insert into it was counted by the daily cap. */
  lemma StepKeepsWindow(s: System, step: Step, start: Instant)
    requires WindowsOk(s) && Enabled(s, step)
    ensures Count(Apply(s, step).db.jobs, CreatedIn(start)) <= Cap(s.budget.maxJobsPerDay)
  {
    var jobs := s.db.jobs;
    ChangeKeepsCreation(s, step);
    match ChangeOf(s, step)
    case Same =>
    case Put(id, row) =>
      CountPut(jobs, id, row, CreatedIn(start));
    case Add(row) =>
      CountAppend(jobs, row, CreatedIn(start));
      if CreatedIn(start)(row) {
        CountLeq(jobs, CreatedIn(start), CreatedSince(step.now - DAY));
      }
  }

  lemma StepKeepsKeys(s: System, step: Step)
    requires KeysUnique(s.db.jobs) && Enabled(s, step)
    ensures KeysUnique(Apply(s, step).db.jobs)
  {
    var c := ChangeOf(s, step);
    if c.Add? {
      assert forall k :: 0 <= k < |s.db.jobs| ==> !HoldsKey(s.db.jobs[k], step.req.key);
    }
  }

  lemma StepKeepsInv(s: System, step: Step)
    requires Inv(s) && Enabled(s, step)
    ensures Inv(Apply(s, step))
  {
    StepKeepsWrites(s, step);
    StepKeepsRows(s, step);
    StepKeepsClaims(s, step);
    StepKeepsEvents(s, step);
    StepKeepsActive(s, step);
    forall start ensures Count(Apply(s, step).db.jobs, CreatedIn(start)) <= Cap(s.budget.maxJobsPerDay) {
      StepKeepsWindow(s, step, start);
    }
    StepKeepsKeys(s, step);
  }

  lemma InitInv(s: System)
    requires Init(s)
    ensures Inv(s)
  {
  }

  lemma {:induction false} RunKeepsInv(s: System, steps: seq<Step>, t: System)
    requires Inv(s) && Leads(s, steps, t)
    ensures Inv(t)
    decreases |steps|
  {
    if steps != [] {
      StepKeepsInv(s, steps[0]);
      RunKeepsInv(Apply(s, steps[0]), steps[1..], t);
    }
  }

  // ---- the steps, in terms of the columns

  /** Anyone may act on any job at any time; only a claim waits for its turn. */
  lemma AnyoneMayAct(s: System, id: JobId, worker: string, lease: int, now: Instant, op: PendingWrite)
    requires id < |s.db.jobs|
    ensures Enabled(s, CancelStep(id, now)) && Enabled(s, ApproveStep(id)) && Enabled(s, RejectStep(id, now))
    ensures Enabled(s, RenewStep(id, worker, lease, now))
    ensures Enabled(s, WriteStep(op, now)) <==> op in s.writes
    ensures s.db.jobs[id].status in {Failed, Dead, Cancelled} ==> Enabled(s, ReadStep(id, Requeue(None, None), true))
    ensures id in s.claims && s.db.jobs[id].status in {Running, Cancelling} ==>
              && Enabled(s, ReadStep(id, Call.Finish(Done, None, None), false))
              && Enabled(s, ReadStep(id, Call.Finish(Failed, None, None), false))
              && Enabled(s, ReadStep(id, Call.Finish(Cancelled, None, None), false))
    ensures id in s.claims && s.db.jobs[id].status == Failed ==> Enabled(s, ReadStep(id, Requeue(None, None), false))
    ensures id in s.claims && s.db.jobs[id].status == Failed && s.db.jobs[id].attempts >= s.db.jobs[id].maxRetries ==>
              Enabled(s, ReadStep(id, MarkDead, false))
  {
  }

  /** What the statements that are one step each do to a row. */
  lemma SingleStatements(s: System, id: JobId, worker: string, lease: int, now: Instant)
    requires id < |s.db.jobs|
    ensures var was, row := s.db.jobs[id], Apply(s, CancelStep(id, now)).db.jobs[id];
            if was.status in {Pending, WaitingApproval, Approved} then
              row == was.(status := Cancelled, finishedAt := Some(now), workerId := None, leaseUntil := None)
            else row == was.(status := if was.status == Running then Cancelling else was.status)
    ensures var was, row := s.db.jobs[id], Apply(s, ApproveStep(id)).db.jobs[id];
            row == was.(status := if was.status == WaitingApproval then Approved else was.status)
    ensures var was, row := s.db.jobs[id], Apply(s, RejectStep(id, now)).db.jobs[id];
            row == if was.status == WaitingApproval then was.(status := Rejected, finishedAt := Some(now)) else was
    ensures var was, row := s.db.jobs[id], Apply(s, RenewStep(id, worker, lease, now)).db.jobs[id];
            row == if was.workerId == Some(worker) && was.status in {Running, Cancelling}
                   then was.(leaseUntil := Some(now + lease), heartbeatAt := Some(now)) else was
  {
  }
}
