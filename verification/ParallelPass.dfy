/**
 The parallel pass on the jobs table: the thread pool of module Pool, with the jobs it claims.

 Each pool task processes one claimed job: at some point its finish_job call has been made, it may
 then decide to retry, and may write the requeue; only afterwards does it give its permit back.
 Between any two of these anything else may happen. All other statements, of this pass and of the
 rest of the world, are quiet: nobody else adds jobs or revives them.
 */
module ParallelPass {
  import opened Options
  import opened Arithmetic
  import opened Transitions
  import opened Counting
  import opened JobDb
  import opened WorkerLoop
  import Pool

  /** How far a task is with its job: busy until finish_job has been called, through when it can write no more. */
  datatype Stage = Busy | Stopped | Retrying | Through

  datatype Flight = Flight(id: JobId, stage: Stage)

  /**
   A row, how many tasks are not through with it, and whether it has been claimed since while one
   was not.
   */
  datatype Slot = Slot(job: Job, flights: nat, relapsed: bool)

  datatype State = State(
    pool: Pool.State,
    flights: seq<Flight>,  // of each pool task
    slots: seq<Slot>,
    claims: nat,           // successful claims so far
    relapses: nat)         // those of a job that a task of this pass was not through with

  datatype Step =
    | Claim(id: JobId, worker: string, lease: int, now: Instant, group: Option<string>)
    | FindNone(now: Instant)
    | Thread(step: Pool.Step)  // Start, Acquire or Wake
    | Stop(task: nat)          // the task's finish_job call has been made
    | Decide(task: nat)        // the retry policy reads attempts < max_retries
    | Retry(task: nat, provider: Option<string>, eligibleAt: Option<Instant>)  // the requeue's UPDATE hits
    | End(task: nat)           // the task ends and gives its permit back
    | World(after: seq<Job>)   // any quiet statement of anyone

  function Jobs(slots: seq<Slot>): seq<Job> {
    seq(|slots|, k requires 0 <= k < |slots| => slots[k].job)
  }

  predicate IsActive(stage: Stage) {
    stage != Through
  }

  predicate HasRow(s: State, task: nat) {
    task < |s.flights| && s.flights[task].id < |s.slots|
  }

  function RowOf(s: State, task: nat): Job
    requires HasRow(s, task)
  {
    s.slots[s.flights[task].id].job
  }

  ghost predicate Enabled(providers: Pool.Providers, s: State, step: Step) {
    match step
    case Claim(id, _, _, now, group) =>
      IsNextClaim(Jobs(s.slots), id, now)
      && Pool.Enabled(providers, s.pool, Pool.Submit(s.slots[id].job.provider, group))
    case FindNone(now) =>
      (forall k :: 0 <= k < |s.slots| ==> !Claimable(s.slots[k].job, now))
      && Pool.Enabled(providers, s.pool, Pool.NothingToClaim)
    case Thread(p) => (p.Start? || p.Acquire? || p.Wake?) && Pool.Enabled(providers, s.pool, p)
    case Stop(task) => HasRow(s, task) && s.flights[task].stage == Busy && !IsOwned(RowOf(s, task).status)
    case Decide(task) =>
      HasRow(s, task) && s.flights[task].stage == Stopped && RowOf(s, task).attempts < RowOf(s, task).maxRetries
    case Retry(task, provider, eligibleAt) =>
      HasRow(s, task) && s.flights[task].stage == Retrying
      && RowOf(s, task).status in WriteGuard(Requeue(provider, eligibleAt))
    case End(task) =>
      HasRow(s, task) && s.flights[task].stage != Busy && Pool.Enabled(providers, s.pool, Pool.End(task))
    case World(after) => Quiet(Jobs(s.slots), after)
  }

  // ---- what the statements of module WorkerLoop have to do with these steps

  /**
   Once finish_job has been called the job is not owned: if the call did not go on to write,
   already when it read, and otherwise when it wrote. Its write is quiet.
   */
  lemma FinishStopsItsJob(db: Db, id: JobId, cur: Status, call: Call, now: Instant)
    requires id < |db.jobs| && call.Finish? && call.target in {Done, Failed, Cancelled}
    ensures !ReadVerdict(db.jobs, id, call).Proceed? ==> !IsOwned(db.jobs[id].status)
    ensures var after := Write(db, PendingWrite(id, cur, call), now).jobs;
            Quiet(db.jobs, after) && !IsOwned(after[id].status)
  {
  }

  // ---- the step function

  function Landed(slot: Slot): Slot {
    if slot.flights <= 1 then Slot(slot.job, 0, false) else slot.(flights := slot.flights - 1)
  }

  /** What the step is to the pool. */
  function PoolSteps(s: State, step: Step): seq<Pool.Step> {
    match step
    case Claim(id, _, _, _, group) => if id < |s.slots| then [Pool.Submit(s.slots[id].job.provider, group)] else []
    case FindNone(_) => [Pool.NothingToClaim]
    case Thread(p) => [p]
    case End(task) => [Pool.End(task)]
    case _ => []
  }

  function ClaimedSlot(slot: Slot, worker: string, lease: int, now: Instant): Slot {
    Slot(ClaimedRow(slot.job, worker, lease, now), slot.flights + 1, slot.flights > 0)
  }

  function RetriedSlot(slot: Slot, provider: Option<string>, eligibleAt: Option<Instant>): Slot {
    Landed(slot).(job := WrittenRow(slot.job, Requeue(provider, eligibleAt), 0))
  }

  function NextSlots(s: State, step: Step): seq<Slot> {
    match step
    case Claim(id, worker, lease, now, _) =>
      if id < |s.slots| then s.slots[id := ClaimedSlot(s.slots[id], worker, lease, now)] else s.slots
    case Retry(task, provider, eligibleAt) =>
      if HasRow(s, task) then
        s.slots[s.flights[task].id := RetriedSlot(s.slots[s.flights[task].id], provider, eligibleAt)]
      else s.slots
    case End(task) =>
      if HasRow(s, task) && IsActive(s.flights[task].stage) then
        s.slots[s.flights[task].id := Landed(s.slots[s.flights[task].id])]
      else s.slots
    case World(after) =>
      if |after| == |s.slots| then seq(|after|, k requires 0 <= k < |after| => s.slots[k].(job := after[k]))
      else s.slots
    case _ => s.slots
  }

  function NextFlights(s: State, step: Step): seq<Flight> {
    match step
    case Claim(id, _, _, _, _) => s.flights + [Flight(id, Busy)]
    case Stop(task) => WithStage(s.flights, task, Stopped)
    case Decide(task) => WithStage(s.flights, task, Retrying)
    case Retry(task, _, _) => WithStage(s.flights, task, Through)
    case End(task) => WithStage(s.flights, task, Through)
    case _ => s.flights
  }

  function WithStage(flights: seq<Flight>, task: nat, stage: Stage): seq<Flight> {
    if task < |flights| then flights[task := flights[task].(stage := stage)] else flights
  }

  predicate IsRelapse(s: State, step: Step) {
    step.Claim? && step.id < |s.slots| && s.slots[step.id].flights > 0
  }

  ghost function Apply(providers: Pool.Providers, s: State, step: Step): State
    requires Enabled(providers, s, step)
  {
    var ps := PoolSteps(s, step);
    State(if ps == [] then s.pool else Pool.Apply(providers, s.pool, ps[0]),
          NextFlights(s, step),
          NextSlots(s, step),
          s.claims + if step.Claim? then 1 else 0,
          s.relapses + if IsRelapse(s, step) then 1 else 0)
  }

  ghost predicate Leads(providers: Pool.Providers, s: State, steps: seq<Step>, t: State)
    decreases |steps|
  {
    if steps == [] then s == t
    else Enabled(providers, s, steps[0]) && Leads(providers, Apply(providers, s, steps[0]), steps[1..], t)
  }

  /** The pass begins: no task yet, nothing claimed. */
  ghost predicate Init(s: State, limits: map<string, int>) {
    Pool.Init(s.pool, limits) && s.flights == [] && s.claims == 0 && s.relapses == 0
    && forall k :: 0 <= k < |s.slots| ==> s.slots[k].flights == 0 && !s.slots[k].relapsed
  }

  // ---- the invariant

  function IsOf(id: JobId): Flight -> bool {
    (f: Flight) => f.id == id && IsActive(f.stage)
  }

  /** What a task knows of a row that no other task of the pass has had since. */
  predicate Knows(stage: Stage, job: Job) {
    match stage
    case Busy => !IsQueued(job.status)
    case Stopped => IsTerminal(job.status)
    case Retrying => IsTerminal(job.status) && job.attempts < job.maxRetries
    case Through => true
  }

  predicate SlotOk(flights: seq<Flight>, slots: seq<Slot>, id: JobId)
    requires id < |slots|
  {
    && slots[id].flights == Count(flights, IsOf(id))
    && (!slots[id].relapsed ==> slots[id].flights <= 1)
    && (slots[id].flights == 0 ==> !slots[id].relapsed)
  }

  predicate FlightOk(slots: seq<Slot>, f: Flight) {
    f.id < |slots| && (!slots[f.id].relapsed ==> Knows(f.stage, slots[f.id].job))
  }

  predicate Inv(s: State) {
    && (forall id: nat :: id < |s.slots| ==> SlotOk(s.flights, s.slots, id))
    && (forall k :: 0 <= k < |s.flights| ==> FlightOk(s.slots, s.flights[k]))
  }

  lemma {:induction false} TwoActive(flights: seq<Flight>, id: JobId, i: nat, k: nat)
    requires i < k < |flights| && IsOf(id)(flights[i]) && IsOf(id)(flights[k])
    ensures Count(flights, IsOf(id)) >= 2
  {
    var n := |flights| - 1;
    if k < n {
      TwoActive(flights[..n], id, i, k);
    } else {
      OneActive(flights[..n], id, i);
    }
  }

  lemma {:induction false} OneActive(flights: seq<Flight>, id: JobId, i: nat)
    requires i < |flights| && IsOf(id)(flights[i])
    ensures Count(flights, IsOf(id)) >= 1
  {
    if i < |flights| - 1 {
      OneActive(flights[..|flights| - 1], id, i);
    }
  }

  lemma {:induction false} SomeActive(flights: seq<Flight>, id: JobId) returns (i: nat)
    requires Count(flights, IsOf(id)) >= 1
    ensures i < |flights| && IsOf(id)(flights[i])
  {
    var n := |flights| - 1;
    if IsOf(id)(flights[n]) {
      i := n;
    } else {
      i := SomeActive(flights[..n], id);
    }
  }

  /** While a row has a single task that is not through with it, no other task of that row is active. */
  lemma OthersAreThrough(s: State, task: nat, j: nat)
    requires Inv(s) && HasRow(s, task) && IsActive(s.flights[task].stage)
    requires s.slots[s.flights[task].id].flights <= 1
    requires j < |s.flights| && j != task && s.flights[j].id == s.flights[task].id
    ensures s.flights[j].stage == Through
  {
    var id := s.flights[task].id;
    assert SlotOk(s.flights, s.slots, id);
    if IsActive(s.flights[j].stage) {
      TwoActive(s.flights, id, if j < task then j else task, if j < task then task else j);
    }
  }

  lemma NobodyIsActive(s: State, id: JobId, j: nat)
    requires Inv(s) && id < |s.slots| && s.slots[id].flights == 0 && j < |s.flights| && s.flights[j].id == id
    ensures s.flights[j].stage == Through
  {
    assert SlotOk(s.flights, s.slots, id);
    if IsActive(s.flights[j].stage) {
      OneActive(s.flights, id, j);
    }
  }

  lemma ClaimKeepsSlot(s: State, t: State, id: JobId, claimed: JobId, slot: Slot)
    requires Inv(s) && id < |s.slots| && claimed < |s.slots|
    requires t.flights == s.flights + [Flight(claimed, Busy)] && t.slots == s.slots[claimed := slot]
    requires slot.flights == s.slots[claimed].flights + 1 && slot.relapsed == (s.slots[claimed].flights > 0)
    ensures SlotOk(t.flights, t.slots, id)
  {
    assert SlotOk(s.flights, s.slots, id);
    CountAppend(s.flights, Flight(claimed, Busy), IsOf(id));
  }

  /** A task moves on to a stage in which it is still active, or is through with its row. */
  lemma MoveKeepsSlot(s: State, t: State, id: JobId, task: nat, stage: Stage)
    requires Inv(s) && id < |s.slots| == |t.slots| && HasRow(s, task) && t.flights == WithStage(s.flights, task, stage)
    requires var slot, mine := t.slots[id], s.slots[id];
             if id == s.flights[task].id && IsActive(s.flights[task].stage) && !IsActive(stage) then
               slot.flights == Landed(mine).flights && slot.relapsed == Landed(mine).relapsed
             else slot.flights == mine.flights && slot.relapsed == mine.relapsed
    requires IsActive(s.flights[task].stage) || !IsActive(stage)
    ensures SlotOk(t.flights, t.slots, id)
  {
    var was := s.flights[task];
    assert SlotOk(s.flights, s.slots, id);
    CountPut(s.flights, task, was.(stage := stage), IsOf(id));
    if IsActive(was.stage) {
      OneActive(s.flights, was.id, task);
    }
  }

  lemma StepKeepsSlot(providers: Pool.Providers, s: State, step: Step, id: JobId)
    requires Inv(s) && Enabled(providers, s, step) && id < |s.slots|
    ensures var t := Apply(providers, s, step); |t.slots| == |s.slots| && SlotOk(t.flights, t.slots, id)
  {
    var t := Apply(providers, s, step);
    match step
    case Claim(claimed, worker, lease, now, _) =>
      ClaimKeepsSlot(s, t, id, claimed, ClaimedSlot(s.slots[claimed], worker, lease, now));
    case Stop(task) => MoveKeepsSlot(s, t, id, task, Stopped);
    case Decide(task) => MoveKeepsSlot(s, t, id, task, Retrying);
    case Retry(task, _, _) => MoveKeepsSlot(s, t, id, task, Through);
    case End(task) => MoveKeepsSlot(s, t, id, task, Through);
    case _ => assert SlotOk(s.flights, s.slots, id);
  }

  lemma QuietKeepsKnowledge(stage: Stage, a: Job, b: Job)
    requires Knows(stage, a) && QuietRow(a, b)
    ensures Knows(stage, b)
  {
  }

  lemma StopKnows(job: Job)
    requires Knows(Busy, job) && !IsOwned(job.status)
    ensures Knows(Stopped, job)
  {
    QueuedOwnedOrTerminal(job.status);
  }

  lemma StepKeepsFlight(providers: Pool.Providers, s: State, step: Step, j: nat)
    requires Inv(s) && Enabled(providers, s, step) && j < |s.flights|
    ensures var t := Apply(providers, s, step);
            j < |t.flights| && t.flights[j].id == s.flights[j].id && FlightOk(t.slots, t.flights[j])
  {
    var f := s.flights[j];
    assert FlightOk(s.slots, f) && SlotOk(s.flights, s.slots, f.id);
    match step
    case Claim(id, _, _, _, _) =>
      if f.id == id && s.slots[id].flights == 0 {
        NobodyIsActive(s, id, j);
      }
    case Stop(task) =>
      if j == task && !s.slots[f.id].relapsed {
        StopKnows(s.slots[f.id].job);
      }
    case Decide(task) =>
    case Retry(task, _, _) =>
      if j != task && f.id == s.flights[task].id && s.slots[f.id].flights <= 1 {
        OthersAreThrough(s, task, j);
      }
    case End(task) =>
      if j != task && f.id == s.flights[task].id && s.slots[f.id].flights <= 1 && IsActive(s.flights[task].stage) {
        OthersAreThrough(s, task, j);
      }
    case World(after) =>
      if !s.slots[f.id].relapsed {
        QuietKeepsKnowledge(f.stage, s.slots[f.id].job, after[f.id]);
      }
    case _ =>
  }

  lemma StepKeepsInv(providers: Pool.Providers, s: State, step: Step)
    requires Inv(s) && Enabled(providers, s, step)
    ensures Inv(Apply(providers, s, step))
  {
    var t := Apply(providers, s, step);
    forall id: nat | id < |t.slots| ensures SlotOk(t.flights, t.slots, id) {
      if id < |s.slots| {
        StepKeepsSlot(providers, s, step, id);
      }
    }
    forall j: nat | j < |t.flights| ensures FlightOk(t.slots, t.flights[j]) {
      if j < |s.flights| {
        StepKeepsFlight(providers, s, step, j);
      }
    }
  }

  lemma InitInv(s: State, limits: map<string, int>)
    requires Init(s, limits)
    ensures Inv(s)
  {
  }

  lemma {:induction false} RunKeepsInv(providers: Pool.Providers, s: State, steps: seq<Step>, t: State)
    requires Inv(s) && Leads(providers, s, steps, t)
    ensures Inv(t)
    decreases |steps|
  {
    if steps != [] {
      StepKeepsInv(providers, s, steps[0]);
      RunKeepsInv(providers, Apply(providers, s, steps[0]), steps[1..], t);
    }
  }

  /** While a job has not relapsed, its task ends with the job stopped, or put back with tries left. */
  lemma TaskEndsSettled(providers: Pool.Providers, limits: map<string, int>, start: State, steps: seq<Step>,
                        s: State, task: nat)
    requires Init(start, limits) && Leads(providers, start, steps, s)
    requires Enabled(providers, s, End(task)) && IsActive(s.flights[task].stage)
    requires !s.slots[s.flights[task].id].relapsed
    ensures IsTerminal(RowOf(s, task).status)
  {
    InitInv(start, limits);
    RunKeepsInv(providers, start, steps, s);
    assert FlightOk(s.slots, s.flights[task]);
  }

  /** The first claim of a job that a task is not through with takes a running job whose lease ran out. */
  lemma RelapseNeedsLapsedLease(providers: Pool.Providers, limits: map<string, int>, start: State, steps: seq<Step>,
                                s: State, step: Step)
    requires Init(start, limits) && Leads(providers, start, steps, s) && Enabled(providers, s, step)
    requires IsRelapse(s, step) && !s.slots[step.id].relapsed
    ensures var job := s.slots[step.id].job;
            job.status == Running && job.leaseUntil.Some? && job.leaseUntil.value < step.now
  {
    InitInv(start, limits);
    RunKeepsInv(providers, start, steps, s);
    assert SlotOk(s.flights, s.slots, step.id);
    var i := SomeActive(s.flights, step.id);
    assert FlightOk(s.slots, s.flights[i]);
    assert Claimable(s.slots[step.id].job, step.now);
  }

  // ---- how many jobs the pass can claim

  /**
   How often a job can still be claimed without a relapse: while a task is not through with it only
   what a retry would leave, and one more if a stale retry may yet come.
   */
  function Tickets(): Slot -> nat {
    (slot: Slot) =>
      if slot.flights == 0 then Weight(slot.job) else TriesLeft(slot.job) + if slot.relapsed then 1 else 0
  }

  function TriesLeft(job: Job): nat {
    if job.maxRetries > job.attempts then job.maxRetries - job.attempts else 0
  }

  lemma ClaimUsesTicket(slot: Slot, worker: string, lease: int, now: Instant)
    requires Claimable(slot.job, now) && (slot.flights == 0 ==> !slot.relapsed)
    ensures Tickets()(ClaimedSlot(slot, worker, lease, now)) + 1
            <= Tickets()(slot) + if slot.flights > 0 then 2 else 0
  {
  }

  lemma RetryUsesTicket(slot: Slot, provider: Option<string>, eligibleAt: Option<Instant>)
    requires slot.flights >= 1 && (!slot.relapsed ==> Knows(Retrying, slot.job) && slot.flights == 1)
    ensures Tickets()(RetriedSlot(slot, provider, eligibleAt)) <= Tickets()(slot)
  {
  }

  lemma EndUsesTicket(slot: Slot)
    requires slot.flights >= 1 && (!slot.relapsed ==> IsTerminal(slot.job.status) && slot.flights == 1)
    ensures Tickets()(Landed(slot)) <= Tickets()(slot)
  {
  }

  lemma QuietUsesTickets(before: seq<Slot>, after: seq<Slot>)
    requires |after| == |before|
    requires forall k :: 0 <= k < |before| ==>
               QuietRow(before[k].job, after[k].job)
               && after[k].flights == before[k].flights && after[k].relapsed == before[k].relapsed
    ensures Sum(after, Tickets()) <= Sum(before, Tickets())
  {
    SumLeq(after, before, Tickets(), Tickets());
  }

  lemma ActiveSlot(s: State, task: nat)
    requires Inv(s) && HasRow(s, task) && IsActive(s.flights[task].stage)
    ensures var slot := s.slots[s.flights[task].id];
            slot.flights >= 1 && (!slot.relapsed ==> Knows(s.flights[task].stage, slot.job) && slot.flights == 1)
  {
    var id := s.flights[task].id;
    assert SlotOk(s.flights, s.slots, id) && FlightOk(s.slots, s.flights[task]);
    OneActive(s.flights, id, task);
  }

  lemma StepUsesTickets(providers: Pool.Providers, s: State, step: Step)
    requires Inv(s) && Enabled(providers, s, step)
    ensures var t := Apply(providers, s, step);
            t.claims + Sum(t.slots, Tickets()) - 2 * t.relapses <= s.claims + Sum(s.slots, Tickets()) - 2 * s.relapses
  {
    var t := Apply(providers, s, step);
    match step
    case Claim(id, worker, lease, now, _) =>
      assert SlotOk(s.flights, s.slots, id);
      ClaimUsesTicket(s.slots[id], worker, lease, now);
      SumPut(s.slots, id, ClaimedSlot(s.slots[id], worker, lease, now), Tickets());
    case Retry(task, provider, eligibleAt) =>
      var id := s.flights[task].id;
      ActiveSlot(s, task);
      RetryUsesTicket(s.slots[id], provider, eligibleAt);
      SumPut(s.slots, id, RetriedSlot(s.slots[id], provider, eligibleAt), Tickets());
    case End(task) =>
      if IsActive(s.flights[task].stage) {
        var id := s.flights[task].id;
        ActiveSlot(s, task);
        EndUsesTicket(s.slots[id]);
        SumPut(s.slots, id, Landed(s.slots[id]), Tickets());
      }
    case World(_) => QuietUsesTickets(s.slots, t.slots);
    case _ =>
  }

  lemma {:induction false} RunUsesTickets(providers: Pool.Providers, s: State, steps: seq<Step>, t: State)
    requires Inv(s) && Leads(providers, s, steps, t) && s.relapses <= s.claims
    ensures t.claims + Sum(t.slots, Tickets()) - 2 * t.relapses <= s.claims + Sum(s.slots, Tickets()) - 2 * s.relapses
    ensures t.relapses <= t.claims
    decreases |steps|
  {
    if steps != [] {
      StepUsesTickets(providers, s, steps[0]);
      StepKeepsInv(providers, s, steps[0]);
      RunUsesTickets(providers, Apply(providers, s, steps[0]), steps[1..], t);
    }
  }

  lemma {:induction false} TicketsAreWeights(slots: seq<Slot>)
    requires forall k :: 0 <= k < |slots| ==> slots[k].flights == 0
    ensures Sum(slots, Tickets()) == Sum(Jobs(slots), Weight)
  {
    if slots != [] {
      TicketsAreWeights(slots[..|slots| - 1]);
      assert Jobs(slots)[..|slots| - 1] == Jobs(slots[..|slots| - 1]);
    }
  }

  // ---- and how many steps it takes

  /** The steps of the pass itself, as the pool sees them. */
  ghost function PoolRun(providers: Pool.Providers, s: State, steps: seq<Step>): seq<Pool.Step>
    decreases |steps|
  {
    if steps == [] || !Enabled(providers, s, steps[0]) then []
    else PoolSteps(s, steps[0]) + PoolRun(providers, Apply(providers, s, steps[0]), steps[1..])
  }

  function IsOwnStep(): Step -> bool {
    (step: Step) => !step.World?
  }

  function IsStageStep(): Step -> bool {
    (step: Step) => step.Stop? || step.Decide? || step.Retry?
  }

  function StagesLeft(): Flight -> nat {
    (f: Flight) => match f.stage case Busy => 3 case Stopped => 2 case Retrying => 1 case Through => 0
  }

  lemma {:induction false} PassIsPoolRun(providers: Pool.Providers, s: State, steps: seq<Step>, t: State)
    requires Leads(providers, s, steps, t)
    ensures Pool.Leads(providers, s.pool, PoolRun(providers, s, steps), t.pool)
    ensures Count(PoolRun(providers, s, steps), Pool.IsSubmit()) + s.claims == t.claims
    ensures |PoolRun(providers, s, steps)| + Count(steps, IsStageStep()) == Count(steps, IsOwnStep())
    decreases |steps|
  {
    if steps != [] {
      var next, ps := Apply(providers, s, steps[0]), PoolSteps(s, steps[0]);
      var rest := PoolRun(providers, next, steps[1..]);
      PassIsPoolRun(providers, next, steps[1..], t);
      CountFirst(steps, IsOwnStep());
      CountFirst(steps, IsStageStep());
      if ps == [] {
        assert ps + rest == rest;
      } else {
        assert (ps + rest)[0] == ps[0] && (ps + rest)[1..] == rest;
        CountFirst(ps + rest, Pool.IsSubmit());
      }
    }
  }

  lemma StepUsesStages(providers: Pool.Providers, s: State, step: Step)
    requires Enabled(providers, s, step)
    ensures var t := Apply(providers, s, step);
            Sum(t.flights, StagesLeft()) + (if IsStageStep()(step) then 1 else 0)
            <= Sum(s.flights, StagesLeft()) + 3 * (t.claims - s.claims)
  {
    match step
    case Claim(id, _, _, _, _) => SumAppend(s.flights, Flight(id, Busy), StagesLeft());
    case Stop(task) => SumPut(s.flights, task, s.flights[task].(stage := Stopped), StagesLeft());
    case Decide(task) => SumPut(s.flights, task, s.flights[task].(stage := Retrying), StagesLeft());
    case Retry(task, _, _) => SumPut(s.flights, task, s.flights[task].(stage := Through), StagesLeft());
    case End(task) => SumPut(s.flights, task, s.flights[task].(stage := Through), StagesLeft());
    case _ =>
  }

  lemma {:induction false} RunUsesStages(providers: Pool.Providers, s: State, steps: seq<Step>, t: State)
    requires Leads(providers, s, steps, t)
    ensures Count(steps, IsStageStep()) + Sum(t.flights, StagesLeft())
            <= Sum(s.flights, StagesLeft()) + 3 * (t.claims - s.claims)
    decreases |steps|
  {
    if steps != [] {
      StepUsesStages(providers, s, steps[0]);
      RunUsesStages(providers, Apply(providers, s, steps[0]), steps[1..], t);
      CountFirst(steps, IsStageStep());
    }
  }

  /**
   In every pass, however short its leases: the claims number at least the relapses and at most
   the tries that the live jobs had left, each counted for at least one, plus twice the relapses;
   and the pass takes at most nine steps for each claim and one more. So a pass claims, and runs,
   without bound exactly when it relapses without bound.
   */
  lemma ClaimsFollowRelapses(providers: Pool.Providers, limits: map<string, int>, start: State,
                             steps: seq<Step>, t: State)
    requires Pool.AreLimits(providers, limits) && Init(start, limits) && Leads(providers, start, steps, t)
    ensures t.relapses <= t.claims <= Sum(Jobs(start.slots), Weight) + 2 * t.relapses
    ensures Count(steps, IsOwnStep()) <= 9 * t.claims + 1
  {
    InitInv(start, limits);
    RunUsesTickets(providers, start, steps, t);
    TicketsAreWeights(start.slots);
    PassIsPoolRun(providers, start, steps, t);
    RunUsesStages(providers, start, steps, t);
    Pool.InitInv(providers, limits, start.pool);
    Pool.StepsTakeEffort(providers, limits, start.pool, PoolRun(providers, start, steps), t.pool);
  }

  /** While no lease of the pass runs out, then, it ends with no more claims than tries. */
  lemma ParallelPassEnds(providers: Pool.Providers, limits: map<string, int>, start: State, steps: seq<Step>, t: State)
    requires Pool.AreLimits(providers, limits) && Init(start, limits) && Leads(providers, start, steps, t)
    requires t.relapses == 0
    ensures t.claims <= Sum(Jobs(start.slots), Weight)
    ensures Count(steps, IsOwnStep()) <= 9 * Sum(Jobs(start.slots), Weight) + 1
  {
    ClaimsFollowRelapses(providers, limits, start, steps, t);
  }

  lemma OnlyFindNoneLeaves(providers: Pool.Providers, s: State, step: Step)
    requires Enabled(providers, s, step) && s.pool.main != Pool.Exited
    requires Apply(providers, s, step).pool.main == Pool.Exited
    ensures step.FindNone? && s.pool.futures == {} && Apply(providers, s, step).pool.tasks == s.pool.tasks
  {
  }

  lemma NoFutureMeansFinished(providers: Pool.Providers, s: Pool.State)
    requires Pool.TasksOk(providers, s) && s.futures == {}
    ensures Pool.AllFinished(s)
  {
  }

  /** The claim loop is left only when nothing is claimable and every task has finished. */
  lemma LeavesWithNothingClaimable(providers: Pool.Providers, limits: map<string, int>, start: State,
                                   steps: seq<Step>, s: State, step: Step)
    requires Pool.AreLimits(providers, limits) && Init(start, limits) && Leads(providers, start, steps, s)
    requires Enabled(providers, s, step) && s.pool.main != Pool.Exited
    requires Apply(providers, s, step).pool.main == Pool.Exited
    ensures step.FindNone? && forall k :: 0 <= k < |s.slots| ==> !Claimable(s.slots[k].job, step.now)
    ensures Pool.AllFinished(Apply(providers, s, step).pool)
  {
    PassIsPoolRun(providers, start, steps, s);
    assert Pool.Reachable(providers, limits, s.pool);
    Pool.ReachableInv(providers, limits, s.pool);
    OnlyFindNoneLeaves(providers, s, step);
    NoFutureMeansFinished(providers, s.pool);
  }

  // ---- relapses need not be bounded

  lemma {:induction false} LeadsThen(providers: Pool.Providers, s: State, steps: seq<Step>, t: State, step: Step)
    requires Leads(providers, s, steps, t) && Enabled(providers, t, step)
    ensures Leads(providers, s, steps + [step], Apply(providers, t, step))
    decreases |steps|
  {
    if steps == [] {
      assert Leads(providers, Apply(providers, t, step), [], Apply(providers, t, step));
      assert (steps + [step])[1..] == [];
    } else {
      assert (steps + [step])[1..] == steps[1..] + [step];
      LeadsThen(providers, Apply(providers, s, steps[0]), steps[1..], t, step);
    }
  }

  /** A table of one claimable job, and `claims` claims of it so far, each but the first a relapse. */
  ghost predicate IsReclaimed(providers: Pool.Providers, group: Option<string>, claims: nat, at: Instant, s: State) {
    && s.claims == claims && s.relapses == (if claims == 0 then 0 else claims - 1)
    && s.pool.main == Pool.Claiming && |s.slots| == 1 && s.slots[0].flights == claims
    && Claimable(s.slots[0].job, at) && Pool.IsGroupOf(providers, s.slots[0].job.provider, group)
  }

  lemma ClaimAgain(providers: Pool.Providers, group: Option<string>, lease: nat, n: nat, at: Instant, s: State)
    returns (step: Step)
    requires IsReclaimed(providers, group, n, at, s)
    ensures Enabled(providers, s, step)
    ensures IsReclaimed(providers, group, n + 1, at + lease + 1, Apply(providers, s, step))
  {
    step := Claim(0, "w", lease, at, group);
  }

  /**
   In every configuration, with every number of threads and under every lease, a pass whose clock
   moves past the lease between claims reclaims its own waiting job as often as you like.
   */
  lemma {:induction false} LapsedLeasesClaimForever(
      providers: Pool.Providers, limits: map<string, int>, job: Job, group: Option<string>,
      lease: nat, now: Instant, workers: nat, n: nat)
    returns (start: State, steps: seq<Step>, t: State)
    requires Claimable(job, now) && workers >= 1 && Pool.IsGroupOf(providers, job.provider, group)
    ensures Init(start, limits) && start.slots == [Slot(job, 0, false)] && start.pool.workers == workers
    ensures Leads(providers, start, steps, t)
    ensures IsReclaimed(providers, group, n, now + n * (lease + 1), t)
  {
    if n == 0 {
      start := State(Pool.State(limits, workers, [], {}, Pool.Claiming), [], [Slot(job, 0, false)], 0, 0);
      steps, t := [], start;
    } else {
      var mid: State;
      start, steps, mid := LapsedLeasesClaimForever(providers, limits, job, group, lease, now, workers, n - 1);
      var claim := ClaimAgain(providers, group, lease, n - 1, now + (n - 1) * (lease + 1), mid);
      Distribute(n - 1, 1, lease + 1);
      LeadsThen(providers, start, steps, mid, claim);
      steps := steps + [claim];
      t := Apply(providers, mid, claim);
    }
  }
}
