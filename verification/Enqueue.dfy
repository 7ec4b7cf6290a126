/** The enqueue service: dedup, budget caps and the insert, inside one write transaction. */
module EnqueueService {
  import opened Options
  import opened Transitions
  import opened Counting
  import opened JobDb
  import opened JobStore

  const DAY: int := 24 * 60 * 60 * 1_000_000
  const DEFAULT_MAX_RETRIES := 3

  datatype Budget = Budget(maxActiveJobs: int, maxJobsPerDay: int, dedupActive: bool)

  datatype Request = Request(
    project: string,
    role: string,
    kind: string,
    promptHash: string,
    priority: int,
    dryRun: bool,
    key: Option<string>)

  /** What configuration says about a request, before the database is touched. */
  datatype Plan =
    | Unresolved  // empty prompt, unknown runtime, role or project, unsupported permission
    | Resolved(provider: string, requireConfirm: bool, rootExists: bool)

  datatype Error = ConfigError | BudgetError | IntegrityError | DiskError

  datatype Outcome =
    | DryRun
    | Created(id: JobId, status: Status)
    | Existing(id: JobId, status: Status)
    | Raised(error: Error)

  /** Python's truth of an optional string: the empty key counts as no key. */
  predicate Truthy(key: Option<string>) {
    key.Some? && key.value != ""
  }

  predicate IsDuplicate(jobs: seq<Job>, req: Request, id: JobId) {
    && id < |jobs|
    && SameWork(jobs[id], Some(req.role), Some(req.project), req.kind, req.promptHash)
    && !IsTerminal(jobs[id].status)
  }

  predicate HasDuplicate(jobs: seq<Job>, req: Request) {
    exists k: nat :: k < |jobs| && IsDuplicate(jobs, req, k)
  }

  /** The row find_active_duplicate returns: the earliest created duplicate. */
  predicate IsFirstDuplicate(jobs: seq<Job>, req: Request, id: JobId) {
    && IsDuplicate(jobs, req, id)
    && forall k: nat :: k < |jobs| && IsDuplicate(jobs, req, k) ==> jobs[id].createdAt <= jobs[k].createdAt
  }

  function NewJob(req: Request, plan: Plan, created: Instant): Job
    requires plan.Resolved?
  {
    Job(Some(req.role), Some(req.project), req.kind, req.promptHash, plan.provider,
        if plan.requireConfirm then WaitingApproval else Pending,
        req.priority, 0, DEFAULT_MAX_RETRIES, None, None, None, None, None, req.key,
        created, None, None, None)
  }

  /** The two reasons to stop before the insert, and the three ways the insert itself can go. */
  predicate Collapses(jobs: seq<Job>, budget: Budget, req: Request) {
    budget.dedupActive && !Truthy(req.key) && HasDuplicate(jobs, req)
  }

  predicate OverBudget(jobs: seq<Job>, budget: Budget, now: Instant) {
    CountActive(jobs) >= budget.maxActiveJobs || CountSince(jobs, now - DAY) >= budget.maxJobsPerDay
  }

  /** A request is admitted exactly when it names real work, is new, fits the budget and owns its key. */
  predicate Admits(jobs: seq<Job>, budget: Budget, req: Request, plan: Plan, diskOk: bool, now: Instant) {
    && plan.Resolved? && plan.rootExists && !req.dryRun
    && !Collapses(jobs, budget, req)
    && !OverBudget(jobs, budget, now)
    && diskOk
    && !KeyTaken(jobs, req.key)
  }

  function JobsAfter(jobs: seq<Job>, budget: Budget, req: Request, plan: Plan, diskOk: bool,
                     now: Instant, created: Instant): seq<Job> {
    if Admits(jobs, budget, req, plan, diskOk, now) then jobs + [NewJob(req, plan, created)] else jobs
  }

  /** The call hands its caller a job: a new one, or the one that stands for the same request. */
  predicate Accepts(jobs: seq<Job>, budget: Budget, req: Request, plan: Plan, diskOk: bool, now: Instant) {
    && plan.Resolved? && plan.rootExists && !req.dryRun
    && (Collapses(jobs, budget, req)
        || (!OverBudget(jobs, budget, now) && diskOk && (KeyTaken(jobs, req.key) ==> Truthy(req.key))))
  }

  /** What the caller is told, given the jobs table the call found. */
  predicate Explains(out: Outcome, jobs: seq<Job>, budget: Budget, req: Request, plan: Plan,
                     diskOk: bool, now: Instant) {
    match out
    case Created(id, status) =>
      && Admits(jobs, budget, req, plan, diskOk, now)
      && id == |jobs| && status == (if plan.requireConfirm then WaitingApproval else Pending)
    case Existing(id, status) =>
      && plan.Resolved? && plan.rootExists && !req.dryRun
      && id < |jobs| && status == jobs[id].status
      && if Collapses(jobs, budget, req) then IsFirstDuplicate(jobs, req, id)
         else !OverBudget(jobs, budget, now) && diskOk && Truthy(req.key) && jobs[id].idempotencyKey == req.key
    case DryRun => plan.Resolved? && req.dryRun
    case Raised(ConfigError) => plan.Unresolved? || (!req.dryRun && !plan.rootExists)
    case Raised(error) =>
      && plan.Resolved? && plan.rootExists && !req.dryRun
      && !Collapses(jobs, budget, req)
      && (error.BudgetError? <==> OverBudget(jobs, budget, now))
      && (error.DiskError? ==> !diskOk)
      && (error.IntegrityError? ==> diskOk && req.key == Some("") && KeyTaken(jobs, req.key))
  }

  lemma {:induction false} SomeFirstDuplicate(jobs: seq<Job>, req: Request, k: nat)
    requires IsDuplicate(jobs, req, k)
    ensures exists id: nat :: id < |jobs| && IsFirstDuplicate(jobs, req, id)
  {
    var n := |jobs| - 1;
    assert forall i :: 0 <= i < n ==> jobs[..n][i] == jobs[i];
    if exists i: nat :: i < n && IsDuplicate(jobs, req, i) {
      var i: nat :| i < n && IsDuplicate(jobs, req, i);
      assert IsDuplicate(jobs[..n], req, i);
      SomeFirstDuplicate(jobs[..n], req, i);
      var first: nat :| first < n && IsFirstDuplicate(jobs[..n], req, first);
      assert forall j: nat :: j < n && IsDuplicate(jobs, req, j) ==> IsDuplicate(jobs[..n], req, j);
      if IsDuplicate(jobs, req, n) && jobs[n].createdAt < jobs[first].createdAt {
        assert IsFirstDuplicate(jobs, req, n);
      } else {
        assert IsFirstDuplicate(jobs, req, first);
      }
    } else {
      assert IsFirstDuplicate(jobs, req, k);
    }
  }

  // ---- the same rules, in terms of the columns

  predicate IsLive(s: Status) {
    s != Done && s != Failed && s != Dead && s != Cancelled && s != Rejected
  }

  function LiveJobs(jobs: seq<Job>): set<int> {
    set i | 0 <= i < |jobs| && IsLive(jobs[i].status)
  }

  /** The jobs created in the last 24 hours, in microseconds. */
  function LastDay(jobs: seq<Job>, now: Instant): set<int> {
    set i | 0 <= i < |jobs| && jobs[i].createdAt >= now - 24 * 60 * 60 * 1_000_000
  }

  predicate HasKey(req: Request) {
    req.key != None && req.key != Some("")
  }

  /** A live job for the same role, project, kind and prompt. */
  predicate IsTwin(j: Job, req: Request) {
    j.role == Some(req.role) && j.project == Some(req.project) && j.kind == req.kind && j.promptHash == req.promptHash
    && IsLive(j.status)
  }

  /** A job as INSERT leaves it. */
  predicate IsFreshJob(j: Job, role: string, project: string, kind: string, hash: string, priority: int,
                       key: Option<string>, provider: string, confirm: bool, created: Instant) {
    && j.role == Some(role) && j.project == Some(project) && j.kind == kind && j.promptHash == hash
    && j.priority == priority && j.idempotencyKey == key && j.provider == provider && j.createdAt == created
    && j.status == (if confirm then WaitingApproval else Pending)
    && j.attempts == 0 && j.maxRetries == 3
    && j.workerId == None && j.leaseUntil == None && j.startedAt == None && j.finishedAt == None
    && j.nextEligibleAt == None && j.errorType == None && j.outputPath == None
  }

  lemma LiveByColumns(jobs: seq<Job>)
    ensures CountActive(jobs) == |LiveJobs(jobs)|
  {
    CountIsSize(jobs, IsActive());
    assert LiveJobs(jobs) == Where(jobs, IsActive());
  }

  lemma DayByColumns(jobs: seq<Job>, now: Instant)
    ensures CountSince(jobs, now - DAY)
            == |LastDay(jobs, now)|
  {
    CountIsSize(jobs, CreatedSince(now - DAY));
    assert LastDay(jobs, now) == Where(jobs, CreatedSince(now - DAY));
  }

  lemma TwinsAreDuplicates(jobs: seq<Job>, req: Request)
    ensures forall k: nat :: k < |jobs| ==> (IsDuplicate(jobs, req, k) <==> IsTwin(jobs[k], req))
    ensures HasDuplicate(jobs, req) <==> exists k :: 0 <= k < |jobs| && IsTwin(jobs[k], req)
  {
    if k :| 0 <= k < |jobs| && IsTwin(jobs[k], req) {
      assert IsDuplicate(jobs, req, k);
    }
  }

  method FindActiveDuplicate(store: Store, req: Request) returns (dup: Option<JobId>)
    ensures dup.Some? <==> HasDuplicate(store.jobs, req)
    ensures dup.Some? ==> IsFirstDuplicate(store.jobs, req, dup.value)
  {
    if k: nat :| k < |store.jobs| && IsDuplicate(store.jobs, req, k) {
      SomeFirstDuplicate(store.jobs, req, k);
      var first: nat :| first < |store.jobs| && IsFirstDuplicate(store.jobs, req, first);
      dup := Some(first);
    } else {
      dup := None;
    }
  }

  /** The statements between BEGIN and COMMIT; Raised stands for the exception that leaves them. */
  method TryEnqueue(store: Store, budget: Budget, req: Request, plan: Plan, diskOk: bool,
                    now: Instant, created: Instant) returns (out: Outcome)
    requires plan.Resolved? && plan.rootExists && !req.dryRun
    modifies store`jobs
    ensures store.jobs == JobsAfter(old(store.jobs), budget, req, plan, diskOk, now, created)
    ensures out.Created? || out.Existing? || (out.Raised? && !out.error.ConfigError?)
    ensures out.Existing? ==> Collapses(old(store.jobs), budget, req)
    ensures out == Raised(IntegrityError) ==>
              && !Collapses(old(store.jobs), budget, req) && !OverBudget(old(store.jobs), budget, now)
              && diskOk && KeyTaken(old(store.jobs), req.key)
    ensures out == Raised(IntegrityError) || Explains(out, old(store.jobs), budget, req, plan, diskOk, now)
  {
    if budget.dedupActive && !Truthy(req.key) {
      var dup := FindActiveDuplicate(store, req);
      if dup.Some? {
        return Existing(dup.value, store.jobs[dup.value].status);
      }
    }
    if CountActive(store.jobs) >= budget.maxActiveJobs || CountSince(store.jobs, now - DAY) >= budget.maxJobsPerDay {
      return Raised(BudgetError);
    }
    if !diskOk {
      return Raised(DiskError);
    }
    var id, row := |store.jobs|, NewJob(req, plan, created);
    var ok := store.InsertJob(row);
    out := if ok then Created(id, row.status) else Raised(IntegrityError);
  }

  method JobByKey(store: Store, key: Option<string>) returns (id: JobId)
    requires KeyTaken(store.jobs, key)
    ensures id < |store.jobs| && HoldsKey(store.jobs[id], key)
  {
    id :| id < |store.jobs| && HoldsKey(store.jobs[id], key);
  }

  /**
   Enqueue a job, or explain why not.

   Called outside a transaction it opens its own and always ends it; called inside one it
   leaves it open with its snapshot untouched, so the caller's rollback undoes the insert.
   Either way the other tables and the existing jobs are as they were.
   */
  method EnqueueJob(store: Store, budget: Budget, req: Request, plan: Plan, diskOk: bool,
                    now: Instant, created: Instant) returns (out: Outcome)
    modifies store
    ensures store.Contents() ==
            old(store.Contents()).(jobs := JobsAfter(old(store.jobs), budget, req, plan, diskOk, now, created))
    ensures store.inTransaction == old(store.inTransaction)
    ensures store.inTransaction ==> store.saved == old(store.saved)
    ensures out.Created? || out.Existing? <==> Accepts(old(store.jobs), budget, req, plan, diskOk, now)
    ensures Explains(out, old(store.jobs), budget, req, plan, diskOk, now)
  {
    if plan.Unresolved? {
      return Raised(ConfigError);
    }
    if req.dryRun {
      return DryRun;
    }
    if !plan.rootExists {
      return Raised(ConfigError);
    }
    var ownTxn := !store.inTransaction;
    if ownTxn {
      store.Begin();
    }
    out := TryEnqueue(store, budget, req, plan, diskOk, now, created);
    if ownTxn {
      if out.Raised? {
        store.Rollback();
      } else {
        store.Commit();
      }
    }
    if out == Raised(IntegrityError) && Truthy(req.key) {
      var existing := JobByKey(store, req.key);
      out := Existing(existing, store.jobs[existing].status);
    }
  }

  // ---- what the caller is told, in terms of the columns

  /**
   A request that names real work and has no twin is refused for its budget exactly when the jobs
   still live, or those created in the last 24 hours, have reached their cap.
   */
  lemma RefusedIffCapReached(out: Outcome, jobs: seq<Job>, budget: Budget, req: Request, plan: Plan,
                             diskOk: bool, now: Instant)
    requires Explains(out, jobs, budget, req, plan, diskOk, now)
    requires plan.Resolved? && plan.rootExists && !req.dryRun
    requires !budget.dedupActive || HasKey(req) || forall k :: 0 <= k < |jobs| ==> !IsTwin(jobs[k], req)
    ensures out == Raised(BudgetError) <==>
            || |LiveJobs(jobs)| >= budget.maxActiveJobs
            || |LastDay(jobs, now)| >= budget.maxJobsPerDay
  {
    LiveByColumns(jobs);
    DayByColumns(jobs, now);
    TwinsAreDuplicates(jobs, req);
    assert !Collapses(jobs, budget, req);
  }

  /** With dedup on, a request without a key gets the oldest of its twins exactly when it has one. */
  lemma CollapsesIffTwin(out: Outcome, jobs: seq<Job>, budget: Budget, req: Request, plan: Plan,
                         diskOk: bool, now: Instant)
    requires Explains(out, jobs, budget, req, plan, diskOk, now)
    requires plan.Resolved? && plan.rootExists && !req.dryRun && budget.dedupActive && !HasKey(req)
    ensures out.Existing? <==> exists k :: 0 <= k < |jobs| && IsTwin(jobs[k], req)
    ensures out.Existing? ==>
              out.id < |jobs| && IsTwin(jobs[out.id], req)
              && forall k :: 0 <= k < |jobs| && IsTwin(jobs[k], req) ==> jobs[out.id].createdAt <= jobs[k].createdAt
  {
    TwinsAreDuplicates(jobs, req);
  }

  /** A job that is created carries what the request and the configuration said. */
  lemma CreatedAsRequested(out: Outcome, jobs: seq<Job>, budget: Budget, req: Request, plan: Plan,
                           diskOk: bool, now: Instant, created: Instant)
    requires Explains(out, jobs, budget, req, plan, diskOk, now) && out.Created?
    ensures var after := JobsAfter(jobs, budget, req, plan, diskOk, now, created);
            && out.id == |jobs| && |after| == |jobs| + 1 && after[..|jobs|] == jobs
            && IsFreshJob(after[out.id], req.role, req.project, req.kind, req.promptHash, req.priority, req.key,
                          plan.provider, plan.requireConfirm, created)
            && out.status == after[out.id].status
  {
  }

  /** Any other outcome leaves the table alone. */
  lemma OtherwiseUnchanged(out: Outcome, jobs: seq<Job>, budget: Budget, req: Request, plan: Plan,
                           diskOk: bool, now: Instant, created: Instant)
    requires Explains(out, jobs, budget, req, plan, diskOk, now) && !out.Created?
    ensures JobsAfter(jobs, budget, req, plan, diskOk, now, created) == jobs
  {
  }

  /** With dedup off, or a key given, no twin stands in for the request: only the key's own job can. */
  lemma NoTwinStandsIn(out: Outcome, jobs: seq<Job>, budget: Budget, req: Request, plan: Plan,
                       diskOk: bool, now: Instant)
    requires Explains(out, jobs, budget, req, plan, diskOk, now) && (!budget.dedupActive || HasKey(req))
    ensures out.Existing? ==> HasKey(req) && out.id < |jobs| && jobs[out.id].idempotencyKey == req.key
    ensures out.Created? ==> forall k :: 0 <= k < |jobs| && req.key != None ==> jobs[k].idempotencyKey != req.key
  {
    if req.key != None {
      assert forall k :: 0 <= k < |jobs| && jobs[k].idempotencyKey == req.key ==> HoldsKey(jobs[k], req.key);
    }
  }

  /** Nothing is inserted for a rejected, a dry or a rootless request, and the disk's failure is reported. */
  lemma RefusedWithoutInsert(out: Outcome, jobs: seq<Job>, budget: Budget, req: Request, plan: Plan,
                             diskOk: bool, now: Instant)
    requires Explains(out, jobs, budget, req, plan, diskOk, now)
    ensures plan.Unresolved? ==> out == Raised(ConfigError)
    ensures plan.Resolved? && req.dryRun ==> out == DryRun
    ensures plan.Resolved? && !req.dryRun && !plan.rootExists ==> out == Raised(ConfigError)
    ensures !diskOk ==> !out.Created?
    ensures out == Raised(DiskError) ==> !diskOk
  {
  }
}
