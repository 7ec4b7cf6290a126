/** What holds in every run of the interleaved system. */
module Safety {
  import opened Options
  import opened Transitions
  import opened Counting
  import opened JobDb
  import opened EnqueueService
  import opened Interleaving

  /** A run: from the empty database, any enabled steps in any order. */
  ghost predicate Runs(start: System, steps: seq<Step>, t: System) {
    Init(start) && Leads(start, steps, t)
  }

  lemma RunInv(start: System, steps: seq<Step>, t: System)
    requires Runs(start, steps, t)
    ensures Inv(t)
  {
    InitInv(start);
    RunKeepsInv(start, steps, t);
  }

  // ---- the state machine

  /** The guard of each UPDATE lets through only statuses from which its target is legal. */
  lemma GuardedWriteIsLegal(cur: Status, actual: Status, call: Call)
    requires IsLegal(cur, Target(call)) && CallerFinishes(call) && actual in WriteGuard(call)
    ensures IsLegal(actual, Target(call))
  {
  }

  lemma ChangedStatusIsLegal(s: System, step: Step)
    requires WritesOk(s) && Enabled(s, step) && ChangeOf(s, step).Put?
    ensures var c := ChangeOf(s, step);
            c.row.status == s.db.jobs[c.id].status || IsLegal(s.db.jobs[c.id].status, c.row.status)
  {
    if step.WriteStep? {
      GuardedWriteIsLegal(step.op.cur, s.db.jobs[step.op.id].status, step.op.call);
    }
  }

  lemma StepIsLegal(s: System, step: Step, id: JobId)
    requires WritesOk(s) && Enabled(s, step) && id < |s.db.jobs|
    ensures var next := Apply(s, step).db.jobs;
            id < |next| && (next[id].status == s.db.jobs[id].status || IsLegal(s.db.jobs[id].status, next[id].status))
  {
    if ChangeOf(s, step).Put? {
      ChangedStatusIsLegal(s, step);
    }
  }

  /** However stale the reads, every status change of every run is an edge of the state machine. */
  lemma EveryChangeIsLegal(start: System, steps: seq<Step>, t: System, step: Step, id: JobId)
    requires Runs(start, steps, t) && Enabled(t, step) && id < |t.db.jobs|
    ensures var next := Apply(t, step).db.jobs;
            id < |next| && (next[id].status == t.db.jobs[id].status || IsLegal(t.db.jobs[id].status, next[id].status))
  {
    RunInv(start, steps, t);
    StepIsLegal(t, step, id);
  }

  /** A job that is done or rejected stays so, whatever is still in flight. */
  lemma {:induction false} AbsorbedForever(start: System, steps: seq<Step>, s: System,
                                           more: seq<Step>, t: System, id: JobId)
    requires Runs(start, steps, s) && Leads(s, more, t)
    requires id < |s.db.jobs| && s.db.jobs[id].status in {Done, Rejected}
    ensures id < |t.db.jobs| && t.db.jobs[id].status == s.db.jobs[id].status
  {
    RunInv(start, steps, s);
    AbsorbedFrom(s, more, t, id);
  }

  lemma NothingFollows(from: Status, to: Status)
    requires from in {Done, Rejected}
    ensures !IsLegal(from, to)
  {
  }

  lemma AbsorbedByStep(s: System, step: Step, id: JobId)
    requires WritesOk(s) && Enabled(s, step) && id < |s.db.jobs| && s.db.jobs[id].status in {Done, Rejected}
    ensures id < |Apply(s, step).db.jobs| && Apply(s, step).db.jobs[id].status == s.db.jobs[id].status
  {
    StepIsLegal(s, step, id);
    NothingFollows(s.db.jobs[id].status, Apply(s, step).db.jobs[id].status);
  }

  lemma {:induction false} AbsorbedFrom(s: System, steps: seq<Step>, t: System, id: JobId)
    requires Inv(s) && Leads(s, steps, t)
    requires id < |s.db.jobs| && s.db.jobs[id].status in {Done, Rejected}
    ensures id < |t.db.jobs| && t.db.jobs[id].status == s.db.jobs[id].status
    decreases |steps|
  {
    if steps != [] {
      var next := Apply(s, steps[0]);
      AbsorbedByStep(s, steps[0], id);
      StepKeepsInv(s, steps[0]);
      AbsorbedFrom(next, steps[1..], t, id);
    }
  }

  /**
   finish_job checks its target against the status it read but writes over running or
   cancelling. The check protects the write against every stale read exactly for the targets
   its callers use (and, vacuously, for the one target that nothing leads to).
   */
  lemma FinishTargetsSafeWhenStale(target: Status)
    ensures (forall cur, actual ::
               IsLegal(cur, target) && actual in WriteGuard(Finish(target, None, None)) ==> IsLegal(actual, target))
            <==> target in {Done, Failed, Cancelled, WaitingApproval}
  {
    match target
    case Pending => assert IsLegal(Failed, target) && !IsLegal(Running, target);
    case Approved => assert IsLegal(WaitingApproval, target) && !IsLegal(Running, target);
    case Running => assert IsLegal(Pending, target) && !IsLegal(Cancelling, target);
    case Cancelling => assert IsLegal(Running, target) && !IsLegal(Cancelling, target);
    case Dead => assert IsLegal(Failed, target) && !IsLegal(Running, target);
    case Rejected => assert IsLegal(WaitingApproval, target) && !IsLegal(Running, target);
    case _ =>
  }

  // ---- rows and the audit log

  function ClaimsOf(id: JobId): Step -> bool {
    (step: Step) => step.ClaimStep? && step.id == id
  }

  lemma {:induction false} ClaimsAreCounted(s: System, steps: seq<Step>, t: System, id: JobId)
    requires Leads(s, steps, t)
    ensures Count(t.claims, IsClaimOf(id)) == Count(s.claims, IsClaimOf(id)) + Count(steps, ClaimsOf(id))
    decreases |steps|
  {
    if steps != [] {
      CountFirst(steps, ClaimsOf(id));
      if steps[0].ClaimStep? {
        CountAppend(s.claims, steps[0].id, IsClaimOf(id));
      } else {
        OnlyClaimsCount(s, steps[0]);
      }
      ClaimsAreCounted(Apply(s, steps[0]), steps[1..], t, id);
    }
  }

  /** In every run each row's columns agree with its status, and attempts counts its claims. */
  lemma EveryRowIsWellFormed(start: System, steps: seq<Step>, t: System, id: JobId)
    requires Runs(start, steps, t) && id < |t.db.jobs|
    ensures var j := t.db.jobs[id];
            && (j.workerId != None <==> j.status == Running || j.status == Cancelling)
            && (j.leaseUntil != None <==> j.status == Running || j.status == Cancelling)
            && (j.finishedAt != None <==>
                || j.status == Done || j.status == Failed || j.status == Dead
                || j.status == Cancelled || j.status == Rejected)
            && (j.outputPath != None ==> j.status == Done)
            && (j.startedAt != None <==> j.attempts > 0)
            && j.attempts == Count(steps, ClaimsOf(id))
  {
    RunInv(start, steps, t);
    assert RowOk(t.db.jobs[id]);
    ClaimsAreCounted(start, steps, t, id);
  }

  /** A guarded write logs one event exactly when it changes its row; nothing else logs. */
  lemma OneEventPerEffectiveWrite(start: System, steps: seq<Step>, t: System, step: Step)
    requires Runs(start, steps, t) && Enabled(t, step)
    ensures var next := Apply(t, step).db;
            if step.WriteStep? && next.jobs != t.db.jobs then
              && |next.events| == |t.db.events| + 1 && next.events[..|t.db.events|] == t.db.events
              && var e := next.events[|t.db.events|];
                 e.job < |t.db.jobs| && IsLegal(e.from, e.to)
                 && t.db.jobs[e.job].status != e.to && next.jobs[e.job].status == e.to
                 && (t.db.jobs[e.job].status == e.from || IsLegal(t.db.jobs[e.job].status, e.to))
            else next.events == t.db.events
  {
    RunInv(start, steps, t);
    if step.WriteStep? && WriteHits(t.db.jobs, step.op) {
      var id := step.op.id;
      assert Apply(t, step).db.jobs[id].status != t.db.jobs[id].status;
    }
  }

  lemma EveryEventIsLegal(start: System, steps: seq<Step>, t: System, k: nat)
    requires Runs(start, steps, t) && k < |t.db.events|
    ensures IsLegal(t.db.events[k].from, t.db.events[k].to)
  {
    RunInv(start, steps, t);
  }

  // ---- budgets

  /** The jobs created in the 24 hours, in microseconds, that begin there. */
  function CreatedInDay(jobs: seq<Job>, from: Instant): set<int> {
    set i | 0 <= i < |jobs| && from <= jobs[i].createdAt <= from + 24 * 60 * 60 * 1_000_000
  }

  /** No 24-hour window, wherever it falls, holds more jobs than the daily cap. */
  lemma NoWindowOverCap(start: System, steps: seq<Step>, t: System, from: Instant)
    requires Runs(start, steps, t)
    ensures |CreatedInDay(t.db.jobs, from)| <= if t.budget.maxJobsPerDay < 0 then 0 else t.budget.maxJobsPerDay
  {
    RunInv(start, steps, t);
    CountIsSize(t.db.jobs, CreatedIn(from));
    assert CreatedInDay(t.db.jobs, from) == Where(t.db.jobs, CreatedIn(from));
  }

  /** Only requeues can push the active jobs over their cap, each by at most one. */
  lemma ActiveWithinCapPlusRequeues(start: System, steps: seq<Step>, t: System)
    requires Runs(start, steps, t)
    ensures |LiveJobs(t.db.jobs)|
            <= (if t.budget.maxActiveJobs < 0 then 0 else t.budget.maxActiveJobs) + CountRequeues(start, steps)
  {
    RunInv(start, steps, t);
    LiveByColumns(t.db.jobs);
    RequeuesAreCounted(start, steps, t);
  }

  /** How many requeues of the run, by whomever, changed a row. */
  ghost function CountRequeues(s: System, steps: seq<Step>): nat
    decreases |steps|
  {
    if steps == [] || !Enabled(s, steps[0]) then 0
    else
      (if steps[0].WriteStep? && steps[0].op.call.Requeue? && Apply(s, steps[0]).db.jobs != s.db.jobs then 1 else 0)
      + CountRequeues(Apply(s, steps[0]), steps[1..])
  }

  lemma RequeueChangesRow(s: System, step: Step)
    requires Enabled(s, step) && step.WriteStep? && step.op.call.Requeue?
    ensures WriteHits(s.db.jobs, step.op) <==> Apply(s, step).db.jobs != s.db.jobs
  {
    if WriteHits(s.db.jobs, step.op) {
      assert Apply(s, step).db.jobs[step.op.id].status != s.db.jobs[step.op.id].status;
    }
  }

  lemma {:induction false} RequeuesAreCounted(s: System, steps: seq<Step>, t: System)
    requires Leads(s, steps, t)
    ensures t.requeues == s.requeues + CountRequeues(s, steps)
    decreases |steps|
  {
    if steps != [] {
      if steps[0].WriteStep? && steps[0].op.call.Requeue? {
        RequeueChangesRow(s, steps[0]);
      }
      RequeuesAreCounted(Apply(s, steps[0]), steps[1..], t);
    }
  }

  lemma AtMostOneJobPerKey(start: System, steps: seq<Step>, t: System)
    requires Runs(start, steps, t)
    ensures KeysUnique(t.db.jobs)
  {
    RunInv(start, steps, t);
  }

  // ---- dedup

  /** No requeue, and no idempotency key that would switch dedup off for its request. */
  predicate Plain(step: Step) {
    match step
    case EnqueueStep(req, _, _, _, _) => !Truthy(req.key)
    case ReadStep(_, call, _) => !call.Requeue?
    case _ => true
  }

  predicate SameTask(a: Job, b: Job) {
    a.role == b.role && a.project == b.project && a.kind == b.kind && a.promptHash == b.promptHash
  }

  predicate NoActiveTwins(jobs: seq<Job>) {
    forall i, k :: 0 <= i < k < |jobs| && !IsTerminal(jobs[i].status) && !IsTerminal(jobs[k].status) ==>
      !SameTask(jobs[i], jobs[k])
  }

  predicate DedupInv(s: System) {
    s.budget.dedupActive && NoActiveTwins(s.db.jobs) && forall op :: op in s.writes ==> !op.call.Requeue?
  }

  /** A finish or a burial leaves the job its task and, if it had stopped, stopped. */
  lemma WrittenTask(j: Job, call: Call, cur: Status, now: Instant)
    requires IsLegal(cur, Target(call)) && CallerFinishes(call) && !call.Requeue?
    ensures SameTask(WrittenRow(j, call, now), j) && IsTerminal(WrittenRow(j, call, now).status)
  {
  }

  lemma UnwrittenTask(s: System, step: Step)
    requires Enabled(s, step) && ChangeOf(s, step).Put? && !step.WriteStep?
    ensures var c := ChangeOf(s, step);
            SameTask(c.row, s.db.jobs[c.id]) && (IsTerminal(s.db.jobs[c.id].status) ==> IsTerminal(c.row.status))
  {
  }

  lemma ChangedTask(s: System, step: Step)
    requires WritesOk(s) && DedupInv(s) && Enabled(s, step) && ChangeOf(s, step).Put?
    ensures var c := ChangeOf(s, step);
            SameTask(c.row, s.db.jobs[c.id]) && (IsTerminal(s.db.jobs[c.id].status) ==> IsTerminal(c.row.status))
  {
    if step.WriteStep? {
      WrittenTask(s.db.jobs[step.op.id], step.op.call, step.op.cur, step.now);
    } else {
      UnwrittenTask(s, step);
    }
  }

  lemma ReadsAddNoRequeue(s: System, step: Step)
    requires DedupInv(s) && Enabled(s, step) && Plain(step)
    ensures forall op :: op in Apply(s, step).writes ==> !op.call.Requeue?
  {
  }

  lemma StepKeepsDedup(s: System, step: Step)
    requires WritesOk(s) && DedupInv(s) && Enabled(s, step) && Plain(step)
    ensures DedupInv(Apply(s, step))
  {
    ReadsAddNoRequeue(s, step);
    match ChangeOf(s, step)
    case Same =>
    case Put(id, row) =>
      ChangedTask(s, step);
    case Add(row) =>
      forall i | 0 <= i < |s.db.jobs| && SameTask(s.db.jobs[i], row) ensures IsTerminal(s.db.jobs[i].status) {
        assert !IsDuplicate(s.db.jobs, step.req, i);
      }
  }

  lemma {:induction false} DedupFrom(s: System, steps: seq<Step>, t: System)
    requires Inv(s) && DedupInv(s) && Leads(s, steps, t)
    requires forall k :: 0 <= k < |steps| ==> Plain(steps[k])
    ensures NoActiveTwins(t.db.jobs)
    decreases |steps|
  {
    if steps != [] {
      StepKeepsInv(s, steps[0]);
      StepKeepsDedup(s, steps[0]);
      DedupFrom(Apply(s, steps[0]), steps[1..], t);
    }
  }

  /** With dedup on, and without requeues and keys, a task has at most one active job. */
  lemma AtMostOneActiveJobPerTask(start: System, steps: seq<Step>, t: System)
    requires Runs(start, steps, t) && start.budget.dedupActive
    requires forall k :: 0 <= k < |steps| ==> Plain(steps[k])
    ensures NoActiveTwins(t.db.jobs)
  {
    InitInv(start);
    DedupFrom(start, steps, t);
  }

  // ---- the approval gate

  predicate Unapproved(s: System, id: JobId) {
    id in s.gated && id !in s.approvals
  }

  predicate IsStopped(st: Status) {
    st in {WaitingApproval, Rejected, Cancelled}
  }

  /** The step is a requeue, by whomever, that changes this job's row. */
  predicate RequeuesRow(s: System, step: Step, id: JobId) {
    step.WriteStep? && step.op.call.Requeue? && step.op.id == id && WriteHits(s.db.jobs, step.op)
  }

  ghost predicate NeverRequeued(s: System, steps: seq<Step>, id: JobId)
    decreases |steps|
  {
    steps == []
    || (Enabled(s, steps[0]) && !RequeuesRow(s, steps[0], id) && NeverRequeued(Apply(s, steps[0]), steps[1..], id))
  }

  ghost predicate SometimeClaimable(j: Job) {
    exists now :: Claimable(j, now)
  }

  /** In no state of the run can the job be claimed, at whatever instant. */
  ghost predicate NeverClaimable(s: System, steps: seq<Step>, id: JobId)
    decreases |steps|
  {
    && (id < |s.db.jobs| ==> !SometimeClaimable(s.db.jobs[id]))
    && (steps == [] || (Enabled(s, steps[0]) && NeverClaimable(Apply(s, steps[0]), steps[1..], id)))
  }

  lemma UnapprovedBefore(s: System, step: Step, id: JobId)
    requires Enabled(s, step) && id < |s.db.jobs|
    ensures id < |Apply(s, step).db.jobs|
    ensures Unapproved(Apply(s, step), id) ==> Unapproved(s, id)
  {
  }

  /** Approvals are never taken back, and whether a job is gated is settled when it is inserted. */
  lemma {:induction false} GateIsSettled(s: System, steps: seq<Step>, t: System, id: JobId)
    requires Leads(s, steps, t) && id < |s.db.jobs| && Unapproved(t, id)
    ensures Unapproved(s, id)
    decreases |steps|
  {
    if steps != [] {
      GateIsSettled(Apply(s, steps[0]), steps[1..], t, id);
      UnapprovedBefore(s, steps[0], id);
    }
  }

  /** The row it changes, if it changes one at all: no claim, no finish and no burial takes a stopped job. */
  lemma ChangedStoppedRow(s: System, step: Step)
    requires Enabled(s, step) && ChangeOf(s, step).Put? && IsStopped(s.db.jobs[ChangeOf(s, step).id].status)
    requires !RequeuesRow(s, step, ChangeOf(s, step).id)
    requires step.ApproveStep? ==> s.db.jobs[step.id].status != WaitingApproval
    ensures IsStopped(ChangeOf(s, step).row.status)
  {
  }

  lemma ApprovalIsRecorded(s: System, id: JobId)
    requires Enabled(s, ApproveStep(id)) && s.db.jobs[id].status == WaitingApproval
    ensures !Unapproved(Apply(s, ApproveStep(id)), id)
  {
  }

  lemma StoppedStaysStopped(s: System, step: Step, id: JobId)
    requires WritesOk(s) && Enabled(s, step) && id < |s.db.jobs| && IsStopped(s.db.jobs[id].status)
    requires !RequeuesRow(s, step, id) && Unapproved(s, id) && Unapproved(Apply(s, step), id)
    ensures IsStopped(Apply(s, step).db.jobs[id].status)
  {
    if ChangeOf(s, step).Put? && ChangeOf(s, step).id == id {
      if step.ApproveStep? && s.db.jobs[id].status == WaitingApproval {
        ApprovalIsRecorded(s, id);
        assert false;
      } else {
        ChangedStoppedRow(s, step);
      }
    }
  }

  lemma NewGatedIsStopped(s: System, step: Step, id: JobId)
    requires Inv(s) && GatedInTable(s) && Enabled(s, step)
    requires |s.db.jobs| <= id < |Apply(s, step).db.jobs| && Unapproved(Apply(s, step), id)
    ensures IsStopped(Apply(s, step).db.jobs[id].status)
  {
  }

  ghost predicate GatedInTable(s: System) {
    forall id: JobId :: id in s.gated ==> id < |s.db.jobs|
  }

  lemma GatedStaysInTable(s: System, step: Step)
    requires GatedInTable(s) && Enabled(s, step)
    ensures GatedInTable(Apply(s, step))
  {
  }

  lemma StoppedNext(s: System, step: Step, rest: seq<Step>, t: System, id: JobId)
    requires Inv(s) && GatedInTable(s) && Enabled(s, step) && Leads(Apply(s, step), rest, t) && Unapproved(t, id)
    requires id < |s.db.jobs| ==> IsStopped(s.db.jobs[id].status)
    requires !RequeuesRow(s, step, id)
    ensures id < |Apply(s, step).db.jobs| ==> IsStopped(Apply(s, step).db.jobs[id].status)
  {
    var next := Apply(s, step);
    if id < |next.db.jobs| {
      GateIsSettled(next, rest, t, id);
      if id < |s.db.jobs| {
        UnapprovedBefore(s, step, id);
        StoppedStaysStopped(s, step, id);
      } else {
        NewGatedIsStopped(s, step, id);
      }
    }
  }

  lemma StoppedIsNotClaimable(j: Job)
    requires IsStopped(j.status)
    ensures !SometimeClaimable(j)
  {
  }

  /** Only a requeue gets a stopped job going again. */
  lemma {:induction false} StoppedFrom(s: System, steps: seq<Step>, t: System, id: JobId)
    requires Inv(s) && GatedInTable(s) && Leads(s, steps, t) && Unapproved(t, id)
    requires id < |s.db.jobs| ==> IsStopped(s.db.jobs[id].status)
    requires NeverRequeued(s, steps, id)
    ensures NeverClaimable(s, steps, id)
    decreases |steps|
  {
    if id < |s.db.jobs| {
      StoppedIsNotClaimable(s.db.jobs[id]);
    }
    if steps != [] {
      var next := Apply(s, steps[0]);
      StepKeepsInv(s, steps[0]);
      GatedStaysInTable(s, steps[0]);
      StoppedNext(s, steps[0], steps[1..], t, id);
      StoppedFrom(next, steps[1..], t, id);
    }
  }

  lemma RequeuedIsClaimable(s: System, step: Step, id: JobId)
    requires Enabled(s, step) && RequeuesRow(s, step, id)
    ensures id < |Apply(s, step).db.jobs| && SometimeClaimable(Apply(s, step).db.jobs[id])
  {
    var row := Apply(s, step).db.jobs[id];
    assert Claimable(row, if row.nextEligibleAt.Some? then row.nextEligibleAt.value else 0);
  }

  lemma {:induction false} RequeueOpensTheGate(s: System, steps: seq<Step>, t: System, id: JobId)
    requires Leads(s, steps, t) && !NeverRequeued(s, steps, id)
    ensures !NeverClaimable(s, steps, id)
    decreases |steps|
  {
    if RequeuesRow(s, steps[0], id) {
      RequeuedIsClaimable(s, steps[0], id);
    } else {
      RequeueOpensTheGate(Apply(s, steps[0]), steps[1..], t, id);
    }
  }

  /** The job's row came into the table as waiting_approval. */
  ghost predicate BornWaiting(s: System, steps: seq<Step>, id: JobId)
    decreases |steps|
  {
    steps != [] && Enabled(s, steps[0])
    && var next := Apply(s, steps[0]);
       if |s.db.jobs| <= id < |next.db.jobs| then next.db.jobs[id].status == WaitingApproval
       else BornWaiting(next, steps[1..], id)
  }

  /** No step of the run took the job's row from waiting_approval to approved. */
  ghost predicate NeverApproved(s: System, steps: seq<Step>, id: JobId)
    decreases |steps|
  {
    steps == []
    || (Enabled(s, steps[0])
        && var next := Apply(s, steps[0]);
           !(id < |s.db.jobs| && id < |next.db.jobs| && s.db.jobs[id].status == WaitingApproval
             && next.db.jobs[id].status == Approved)
           && NeverApproved(next, steps[1..], id))
  }

  lemma GateStep(s: System, step: Step, id: JobId)
    requires WritesOk(s) && GatedInTable(s) && Enabled(s, step)
    ensures var t := Apply(s, step);
            && (id in t.approvals <==>
                || id in s.approvals
                || (id < |s.db.jobs| && id < |t.db.jobs| && s.db.jobs[id].status == WaitingApproval
                    && t.db.jobs[id].status == Approved))
            && (id in t.gated <==>
                id in s.gated || (|s.db.jobs| <= id < |t.db.jobs| && t.db.jobs[id].status == WaitingApproval))
  {
  }

  lemma {:induction false} GateOfRun(s: System, steps: seq<Step>, t: System, id: JobId)
    requires Inv(s) && GatedInTable(s) && Leads(s, steps, t)
    ensures id in t.approvals <==> id in s.approvals || !NeverApproved(s, steps, id)
    ensures id in t.gated <==> id in s.gated || (id >= |s.db.jobs| && BornWaiting(s, steps, id))
    decreases |steps|
  {
    if steps != [] {
      GateStep(s, steps[0], id);
      StepKeepsInv(s, steps[0]);
      GatedStaysInTable(s, steps[0]);
      GateOfRun(Apply(s, steps[0]), steps[1..], t, id);
    }
  }

  /**
   The gate holds for a job exactly as long as nobody requeues that very job: a job inserted as
   waiting_approval and not approved is never claimable just when no requeue changed its row.
   */
  lemma GateHoldsIffNeverRequeued(start: System, steps: seq<Step>, t: System, id: JobId)
    requires Runs(start, steps, t) && BornWaiting(start, steps, id) && NeverApproved(start, steps, id)
    ensures NeverRequeued(start, steps, id) <==> NeverClaimable(start, steps, id)
  {
    InitInv(start);
    GateOfRun(start, steps, t, id);
    if NeverRequeued(start, steps, id) {
      StoppedFrom(start, steps, t, id);
    } else {
      RequeueOpensTheGate(start, steps, t, id);
    }
  }

  lemma ClaimedIsClaimable(s: System, step: Step)
    requires Enabled(s, step) && step.ClaimStep?
    ensures step.id < |s.db.jobs| && SometimeClaimable(s.db.jobs[step.id])
  {
    assert Claimable(s.db.jobs[step.id], step.now);
  }

  lemma {:induction false} NeverClaimableIsNeverClaimed(s: System, steps: seq<Step>, t: System, id: JobId)
    requires Leads(s, steps, t) && NeverClaimable(s, steps, id) && id !in s.claims
    ensures id !in t.claims && (id < |t.db.jobs| ==> !SometimeClaimable(t.db.jobs[id]))
    decreases |steps|
  {
    if steps != [] {
      if steps[0].ClaimStep? {
        ClaimedIsClaimable(s, steps[0]);
      }
      NeverClaimableIsNeverClaimed(Apply(s, steps[0]), steps[1..], t, id);
    }
  }

  // ---- the gate when only workers requeue

  predicate NoManualRetry(steps: seq<Step>) {
    forall k :: 0 <= k < |steps| && steps[k].ReadStep? ==> !steps[k].manual
  }

  ghost predicate WritesFromClaims(s: System) {
    forall op :: op in s.writes ==> op.id in s.claims
  }

  lemma StepWritesFromClaims(s: System, step: Step)
    requires WritesFromClaims(s) && Enabled(s, step) && (step.ReadStep? ==> !step.manual)
    ensures WritesFromClaims(Apply(s, step))
  {
  }

  /** A worker requeues only what it has claimed, so it is never the first to open the gate. */
  lemma {:induction false} WorkersLeaveGateShut(s: System, steps: seq<Step>, t: System, id: JobId)
    requires Inv(s) && GatedInTable(s) && WritesFromClaims(s)
    requires Leads(s, steps, t) && NoManualRetry(steps) && Unapproved(t, id) && id !in s.claims
    requires id < |s.db.jobs| ==> IsStopped(s.db.jobs[id].status)
    ensures NeverRequeued(s, steps, id)
    decreases |steps|
  {
    if steps != [] {
      var next := Apply(s, steps[0]);
      StepKeepsInv(s, steps[0]);
      GatedStaysInTable(s, steps[0]);
      StepWritesFromClaims(s, steps[0]);
      StoppedNext(s, steps[0], steps[1..], t, id);
      WorkersLeaveGateShut(next, steps[1..], t, id);
    }
  }

  /** So while only workers requeue, a job that waits for approval is never claimed before it. */
  lemma NeverClaimedBeforeApproval(start: System, steps: seq<Step>, t: System, id: JobId)
    requires Runs(start, steps, t) && NoManualRetry(steps)
    requires BornWaiting(start, steps, id) && NeverApproved(start, steps, id)
    ensures id !in t.claims
    ensures forall worker, lease, now :: !Enabled(t, ClaimStep(id, worker, lease, now))
  {
    InitInv(start);
    GateOfRun(start, steps, t, id);
    WorkersLeaveGateShut(start, steps, t, id);
    GateHoldsIffNeverRequeued(start, steps, t, id);
    NeverClaimableIsNeverClaimed(start, steps, t, id);
    forall worker, lease, now ensures !Enabled(t, ClaimStep(id, worker, lease, now)) {
      assert id < |t.db.jobs| ==> !Claimable(t.db.jobs[id], now);
    }
  }

  /** The CLI's retry does open it: from every state with a waiting job, cancel it and retry it. */
  lemma CancelAndRetry(s: System, id: JobId, now: Instant) returns (steps: seq<Step>, t: System)
    requires id < |s.db.jobs| && s.db.jobs[id].status == WaitingApproval
    ensures Leads(s, steps, t) && t.gated == s.gated && t.approvals == s.approvals
    ensures |t.db.jobs| == |s.db.jobs| && t.db.jobs == s.db.jobs[id := t.db.jobs[id]] && Claimable(t.db.jobs[id], now)
  {
    var call := Requeue(None, None);
    var cancel, read := CancelStep(id, now), ReadStep(id, call, true);
    var write := WriteStep(PendingWrite(id, Cancelled, call), now);
    var s1 := Apply(s, cancel);
    var s2 := Apply(s1, read);
    t := Apply(s2, write);
    assert Leads(t, [], t);
    assert [write][1..] == [];
    assert Leads(s2, [write], t);
    assert [read, write][1..] == [write];
    assert Leads(s1, [read, write], t);
    steps := [cancel, read, write];
    assert steps[1..] == [read, write];
  }

  /** So some run claims a job that waits for approval and never gets it, whatever the budget. */
  lemma ManualRetryPassesTheGate(budget: Budget, req: Request, plan: Plan, now: Instant)
    returns (start: System, steps: seq<Step>, t: System)
    requires budget.maxActiveJobs >= 1 && budget.maxJobsPerDay >= 1
    requires plan.Resolved? && plan.rootExists && plan.requireConfirm && !req.dryRun
    ensures Runs(start, steps, t) && Unapproved(t, 0) && 0 in t.claims
  {
    start := System(Db([], [], [], map[]), budget, multiset{}, [], 0, {}, {});
    var enqueue := EnqueueStep(req, plan, true, now, now);
    assert CountActive([]) == 0 && CountSince([], now - DAY) == 0;
    var s := Apply(start, enqueue);
    assert s.db.jobs == [NewJob(req, plan, now)];
    var rest, retried := CancelAndRetry(s, 0, now);
    var claim := ClaimStep(0, "w", 1, now);
    t := Apply(retried, claim);
    LeadsThen(s, rest, retried, claim);
    steps := [enqueue] + (rest + [claim]);
    assert steps[1..] == rest + [claim];
  }

  lemma {:induction false} LeadsThen(s: System, steps: seq<Step>, t: System, step: Step)
    requires Leads(s, steps, t) && Enabled(t, step)
    ensures Leads(s, steps + [step], Apply(t, step))
    decreases |steps|
  {
    if steps == [] {
      assert Leads(Apply(t, step), [], Apply(t, step));
      assert (steps + [step])[1..] == [];
    } else {
      assert (steps + [step])[1..] == steps[1..] + [step];
      LeadsThen(Apply(s, steps[0]), steps[1..], t, step);
    }
  }

  // ---- retry delays

  predicate LeavesAlone(step: Step, id: JobId) {
    step.WriteStep? ==> step.op.id != id || !step.op.call.Requeue?
  }

  lemma KeepsEligibility(s: System, step: Step, id: JobId)
    requires Enabled(s, step) && LeavesAlone(step, id) && id < |s.db.jobs|
    ensures id < |Apply(s, step).db.jobs| && Apply(s, step).db.jobs[id].nextEligibleAt == s.db.jobs[id].nextEligibleAt
  {
  }

  /** A job requeued with a delay is not claimed from the queue before that instant. */
  lemma {:induction false} NotClaimedBeforeEligible(s: System, steps: seq<Step>, t: System, id: JobId,
                                                    worker: string, lease: int, now: Instant)
    requires Leads(s, steps, t) && forall k :: 0 <= k < |steps| ==> LeavesAlone(steps[k], id)
    requires id < |s.db.jobs| && s.db.jobs[id].nextEligibleAt.Some?
    requires Enabled(t, ClaimStep(id, worker, lease, now)) && t.db.jobs[id].status != Running
    ensures s.db.jobs[id].nextEligibleAt.value <= now
    decreases |steps|
  {
    if steps != [] {
      var next := Apply(s, steps[0]);
      KeepsEligibility(s, steps[0], id);
      NotClaimedBeforeEligible(next, steps[1..], t, id, worker, lease, now);
    }
  }
}
