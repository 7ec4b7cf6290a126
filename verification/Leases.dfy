/**
 Leases against the clock: when can a second worker claim a job that is still being executed?

 A claimed job waits for its thread and its semaphore, then its process is polled; a poll that
 finds the last heartbeat too old renews the lease; when the process has ended the job is
 finished. Timing bounds how long each stage lasts. The clock is one for all, and moves only as
 far as every execution's bound allows; everything else may happen in any order.
 */
module Leases {
  import opened Options
  import opened Transitions
  import opened JobDb
  import Interleaving

  datatype Timing = Timing(
    lease: int,     // lease_seconds
    toLoop: int,    // from the claim to the start of the poll loop
    interval: int,  // heartbeat_interval
    period: int,    // from one poll to the next, the heartbeat included
    renewal: int,   // from the poll that renews to the new last_beat
    toFinish: int)  // from the last poll to the write of finish_job, the kill included

  /** A renewal is one statement: no longer than the start of a process, a sleep or the end of one. */
  predicate Sane(c: Timing) {
    && c.lease >= 0 && c.interval >= 1 && c.period >= 1
    && 0 <= c.renewal <= c.toLoop && c.renewal <= c.period && c.renewal <= c.toFinish
  }

  datatype Stage =
    | Submitted(due: Instant)
    | Polling(lastBeat: Instant, due: Instant)
    | Beating(lastBeat: Instant, checked: Instant, due: Instant)
    | Stamping(checked: Instant, due: Instant)
    | Leaving(due: Instant)

  /** One execution: its job, its worker, when the lease was last set, and how far it is. */
  datatype Execution = Execution(id: JobId, worker: string, leased: Instant, stage: Stage)

  datatype System = System(jobs: seq<Job>, now: Instant, execs: seq<Execution>)

  datatype Step =
    | Tick(to: Instant)
    | ClaimStep(id: JobId, worker: string)
    | BeginLoop(k: nat)
    | Poll(k: nat)                 // the process still runs
    | Renew(k: nat)
    | Stamp(k: nat)
    | Leave(k: nat)                // the process has ended, was cancelled or timed out, or execute_job raised
    | FinishStep(k: nat, call: Call)
    | Crash(k: nat)                // the worker dies and leaves its job running
    | Background(jobs: seq<Job>)   // any statement that neither claims, renews nor finishes

  /** Rows that are owned stay so, by the same worker under the same lease; no other row gets owned. */
  predicate IsBackground(before: seq<Job>, after: seq<Job>) {
    && |before| <= |after|
    && (forall i :: 0 <= i < |before| && IsOwned(before[i].status) ==>
          IsOwned(after[i].status) && after[i].workerId == before[i].workerId
          && after[i].leaseUntil == before[i].leaseUntil)
    && (forall i :: 0 <= i < |after| && IsOwned(after[i].status) ==> i < |before| && IsOwned(before[i].status))
  }

  predicate Enabled(c: Timing, s: System, step: Step) {
    match step
    case Tick(to) => s.now <= to && forall k :: 0 <= k < |s.execs| ==> to <= s.execs[k].stage.due
    case ClaimStep(id, _) => IsNextClaim(s.jobs, id, s.now)
    case BeginLoop(k) => k < |s.execs| && s.execs[k].stage.Submitted?
    case Poll(k) => k < |s.execs| && s.execs[k].stage.Polling?
    case Renew(k) => k < |s.execs| && s.execs[k].stage.Beating? && s.execs[k].id < |s.jobs|
    case Stamp(k) => k < |s.execs| && s.execs[k].stage.Stamping?
    case Leave(k) => k < |s.execs| && (s.execs[k].stage.Submitted? || s.execs[k].stage.Polling?)
    case FinishStep(k, call) =>
      k < |s.execs| && s.execs[k].stage.Leaving? && s.execs[k].id < |s.jobs|
      && call.Finish? && call.target in {Done, Failed, Cancelled}
    case Crash(k) => k < |s.execs|
    case Background(jobs) => IsBackground(s.jobs, jobs)
  }

  function Enter(s: System, k: nat, stage: Stage): System
    requires k < |s.execs|
  {
    s.(execs := s.execs[k := s.execs[k].(stage := stage)])
  }

  /** What a poll of a live process does: renew if the last beat is old enough, else sleep. */
  function PollStage(c: Timing, lastBeat: Instant, now: Instant): Stage {
    if now - lastBeat >= c.interval then Beating(lastBeat, now, now + c.renewal)
    else Polling(lastBeat, now + c.period)
  }

  function Apply(c: Timing, s: System, step: Step): System
    requires Enabled(c, s, step)
  {
    match step
    case Tick(to) => s.(now := to)
    case ClaimStep(id, worker) =>
      s.(jobs := s.jobs[id := ClaimedRow(s.jobs[id], worker, c.lease, s.now)],
         execs := s.execs + [Execution(id, worker, s.now, Submitted(s.now + c.toLoop))])
    case BeginLoop(k) => Enter(s, k, Polling(s.now, s.now + c.period))
    case Poll(k) => Enter(s, k, PollStage(c, s.execs[k].stage.lastBeat, s.now))
    case Renew(k) =>
      var e := s.execs[k];
      s.(jobs := s.jobs[e.id := RenewedRow(s.jobs[e.id], e.worker, c.lease, s.now)],
         execs := s.execs[k := e.(leased := s.now, stage := Stamping(e.stage.checked, e.stage.due))])
    case Stamp(k) => Enter(s, k, Polling(s.now, s.execs[k].stage.checked + c.period))
    case Leave(k) => Enter(s, k, Leaving(s.now + c.toFinish))
    case FinishStep(k, call) =>
      var e := s.execs[k];
      s.(jobs := if s.jobs[e.id].status in WriteGuard(call)
                 then s.jobs[e.id := WrittenRow(s.jobs[e.id], call, s.now)] else s.jobs,
         execs := s.execs[..k] + s.execs[k + 1..])
    case Crash(k) => s.(execs := s.execs[..k] + s.execs[k + 1..])
    case Background(jobs) => s.(jobs := jobs)
  }

  ghost predicate Leads(c: Timing, s: System, steps: seq<Step>, t: System)
    decreases |steps|
  {
    if steps == [] then s == t
    else Enabled(c, s, steps[0]) && Leads(c, Apply(c, s, steps[0]), steps[1..], t)
  }

  /** Nobody executes yet; rows may already be running under leases of workers long gone. */
  ghost predicate Reachable(c: Timing, s: System) {
    exists start: System, steps: seq<Step> :: |start.execs| == 0 && Leads(c, start, steps, s)
  }

  lemma ChangedRowIsBackground(s: Interleaving.System, step: Interleaving.Step)
    requires Interleaving.WritesOk(s) && Interleaving.Enabled(s, step) && Interleaving.ChangeOf(s, step).Put?
    requires !step.ClaimStep? && !step.RenewStep? && (step.WriteStep? ==> !step.op.call.Finish?)
    ensures var c := Interleaving.ChangeOf(s, step);
            var was := s.db.jobs[c.id];
            IsOwned(c.row.status) == IsOwned(was.status)
            && (IsOwned(was.status) ==> c.row.workerId == was.workerId && c.row.leaseUntil == was.leaseUntil)
  {
  }

  /** The statements of the interleaved system that are background here. */
  lemma BackgroundStatements(s: Interleaving.System, step: Interleaving.Step)
    requires Interleaving.WritesOk(s) && Interleaving.Enabled(s, step)
    requires !step.ClaimStep? && !step.RenewStep? && (step.WriteStep? ==> !step.op.call.Finish?)
    ensures IsBackground(s.db.jobs, Interleaving.Apply(s, step).db.jobs)
  {
    if Interleaving.ChangeOf(s, step).Put? {
      ChangedRowIsBackground(s, step);
    }
  }

  // ---- the lease outlives every stage

  /** The longest an execution can go from setting its lease to its last write. */
  function LongestGap(c: Timing): int {
    c.toLoop + (c.interval - 1) + c.period + c.toFinish
  }

  predicate StageOk(c: Timing, e: Execution) {
    match e.stage
    case Submitted(due) => due <= e.leased + c.toLoop
    case Polling(lastBeat, due) => lastBeat <= e.leased + c.toLoop && due <= lastBeat + (c.interval - 1) + c.period
    case Beating(lastBeat, checked, due) =>
      && due == checked + c.renewal
      && checked <= e.leased + c.toLoop + (c.interval - 1) + c.period
    case Stamping(checked, due) => due == checked + c.renewal && checked <= e.leased
    case Leaving(due) => due <= e.leased + LongestGap(c)
  }

  /** No stage remembers an instant that is yet to come. */
  predicate StageBegan(stage: Stage, now: Instant) {
    (stage.Beating? || stage.Stamping?) ==> stage.checked <= now
  }

  predicate ExecOk(c: Timing, s: System, e: Execution) {
    && e.id < |s.jobs| && IsOwned(s.jobs[e.id].status)
    && s.jobs[e.id].workerId == Some(e.worker)
    && s.jobs[e.id].leaseUntil == Some(e.leased + c.lease)
    && s.now <= e.stage.due && StageOk(c, e) && StageBegan(e.stage, s.now)
  }

  predicate Inv(c: Timing, s: System) {
    && (forall k :: 0 <= k < |s.execs| ==> ExecOk(c, s, s.execs[k]))
    && forall i, k :: 0 <= i < k < |s.execs| ==> s.execs[i].id != s.execs[k].id
  }

  predicate LeaseSuffices(c: Timing) {
    Sane(c) && c.lease >= LongestGap(c)
  }

  lemma DueBeforeExpiry(c: Timing, e: Execution)
    requires LeaseSuffices(c) && StageOk(c, e)
    ensures e.stage.due <= e.leased + c.lease
  {
  }

  lemma NoneClaimable(c: Timing, s: System, k: nat)
    requires LeaseSuffices(c) && Inv(c, s) && k < |s.execs|
    ensures s.execs[k].id < |s.jobs| && !Claimable(s.jobs[s.execs[k].id], s.now)
  {
    DueBeforeExpiry(c, s.execs[k]);
    assert ExecOk(c, s, s.execs[k]);
  }

  lemma StageStep(c: Timing, s: System, step: Step, k: nat)
    requires LeaseSuffices(c) && k < |s.execs| && ExecOk(c, s, s.execs[k])
    requires (step == BeginLoop(k) || step == Poll(k) || step == Stamp(k) || step == Leave(k)) && Enabled(c, s, step)
    ensures ExecOk(c, Apply(c, s, step), Apply(c, s, step).execs[k])
  {
  }

  lemma RenewKeepsInv(c: Timing, s: System, k: nat)
    requires LeaseSuffices(c) && Inv(c, s) && Enabled(c, s, Renew(k))
    ensures Inv(c, Apply(c, s, Renew(k)))
  {
    var t := Apply(c, s, Renew(k));
    assert ExecOk(c, s, s.execs[k]);
    forall i | 0 <= i < |t.execs| ensures ExecOk(c, t, t.execs[i]) {
      assert ExecOk(c, s, s.execs[i]);
    }
  }

  lemma ClaimKeepsInv(c: Timing, s: System, step: Step)
    requires LeaseSuffices(c) && Inv(c, s) && step.ClaimStep? && Enabled(c, s, step)
    ensures Inv(c, Apply(c, s, step))
  {
    var t := Apply(c, s, step);
    forall i | 0 <= i < |s.execs| ensures s.execs[i].id != step.id && ExecOk(c, t, t.execs[i]) {
      NoneClaimable(c, s, i);
      assert ExecOk(c, s, s.execs[i]);
    }
  }

  lemma RemovalKeepsInv(c: Timing, s: System, step: Step, k: nat)
    requires LeaseSuffices(c) && Inv(c, s) && Enabled(c, s, step)
    requires (step.FinishStep? || step.Crash?) && step.k == k
    ensures Inv(c, Apply(c, s, step))
  {
    var t := Apply(c, s, step);
    forall i | 0 <= i < |t.execs|
      ensures ExecOk(c, t, t.execs[i])
    {
      var j := if i < k then i else i + 1;
      assert t.execs[i] == s.execs[j] && s.execs[j].id != s.execs[k].id;
      assert ExecOk(c, s, s.execs[j]);
    }
  }

  lemma StepKeepsInv(c: Timing, s: System, step: Step)
    requires LeaseSuffices(c) && Inv(c, s) && Enabled(c, s, step)
    ensures Inv(c, Apply(c, s, step))
  {
    match step
    case ClaimStep(_, _) => ClaimKeepsInv(c, s, step);
    case Renew(k) => RenewKeepsInv(c, s, k);
    case FinishStep(k, _) => RemovalKeepsInv(c, s, step, k);
    case Crash(k) => RemovalKeepsInv(c, s, step, k);
    case Tick(_) =>
      assert forall i :: 0 <= i < |s.execs| ==> ExecOk(c, s, s.execs[i]);
    case Background(_) =>
      assert forall i :: 0 <= i < |s.execs| ==> ExecOk(c, s, s.execs[i]);
    case BeginLoop(k) => OneStageKeepsInv(c, s, step, k);
    case Poll(k) => OneStageKeepsInv(c, s, step, k);
    case Stamp(k) => OneStageKeepsInv(c, s, step, k);
    case Leave(k) => OneStageKeepsInv(c, s, step, k);
  }

  lemma OneStageKeepsInv(c: Timing, s: System, step: Step, k: nat)
    requires LeaseSuffices(c) && Inv(c, s) && Enabled(c, s, step)
    requires step == BeginLoop(k) || step == Poll(k) || step == Stamp(k) || step == Leave(k)
    ensures Inv(c, Apply(c, s, step))
  {
    var t := Apply(c, s, step);
    assert ExecOk(c, s, s.execs[k]);
    StageStep(c, s, step, k);
    forall i | 0 <= i < |t.execs| ensures ExecOk(c, t, t.execs[i]) {
      assert ExecOk(c, s, s.execs[i]);
    }
  }

  lemma {:induction false} RunKeepsInv(c: Timing, s: System, steps: seq<Step>, t: System)
    requires LeaseSuffices(c) && Inv(c, s) && Leads(c, s, steps, t)
    ensures Inv(c, t)
    decreases |steps|
  {
    if steps != [] {
      StepKeepsInv(c, s, steps[0]);
      RunKeepsInv(c, Apply(c, s, steps[0]), steps[1..], t);
    }
  }

  ghost predicate ExecutedTwice(s: System) {
    exists i, k :: 0 <= i < k < |s.execs| && s.execs[i].id == s.execs[k].id
  }

  /**
   With a lease at least as long as the longest gap, no job that is being executed can be
   claimed, whatever other workers do and whatever the clock shows.
   */
  lemma NoSecondClaim(c: Timing, s: System, k: nat, id: JobId, worker: string)
    requires LeaseSuffices(c) && Reachable(c, s) && k < |s.execs|
    ensures !ExecutedTwice(s)
    ensures Enabled(c, s, ClaimStep(id, worker)) ==> id != s.execs[k].id
  {
    var start: System, steps: seq<Step> :| |start.execs| == 0 && Leads(c, start, steps, s);
    RunKeepsInv(c, start, steps, s);
    NoneClaimable(c, s, k);
  }

  // ---- and no shorter lease will do

  lemma {:induction false} LeadsThenStep(c: Timing, s: System, steps: seq<Step>, t: System, step: Step)
    requires Leads(c, s, steps, t) && Enabled(c, t, step)
    ensures Leads(c, s, steps + [step], Apply(c, t, step))
    decreases |steps|
  {
    if steps == [] {
      assert Leads(c, Apply(c, t, step), [], Apply(c, t, step));
      assert (steps + [step])[1..] == [];
    } else {
      LeadsThenStep(c, Apply(c, s, steps[0]), steps[1..], t, step);
      assert (steps + [step])[1..] == steps[1..] + [step];
    }
  }

  lemma ReachOne(c: Timing, s: System, step: Step)
    requires Reachable(c, s) && Enabled(c, s, step)
    ensures Reachable(c, Apply(c, s, step))
  {
    var start: System, steps: seq<Step> :| |start.execs| == 0 && Leads(c, start, steps, s);
    LeadsThenStep(c, start, steps, s, step);
  }

  /** A polled execution whose last beat was `since` ago; its worker has just polled. */
  function Watched(c: Timing, job: Job, beat: Instant, since: int): System {
    System([job], beat + since,
           [Execution(0, "w", beat - c.toLoop, Polling(beat, beat + since + c.period))])
  }

  /** A worker that polls every tick of the clock renews nothing for interval - 1 ticks. */
  lemma {:induction false} WatchReachable(c: Timing, job: Job, beat: Instant, since: nat)
    requires Sane(c) && since < c.interval && Reachable(c, Watched(c, job, beat, 0))
    ensures Reachable(c, Watched(c, job, beat, since))
  {
    if since > 0 {
      WatchReachable(c, job, beat, since - 1);
      var s := Watched(c, job, beat, since - 1);
      ReachOne(c, s, Tick(beat + since));
      var awake := Apply(c, s, Tick(beat + since));
      ReachOne(c, awake, Poll(0));
      assert Apply(c, awake, Poll(0)).execs == Watched(c, job, beat, since).execs;
    }
  }

  lemma FirstWatch(c: Timing, job: Job, now: Instant)
    requires Sane(c) && Claimable(job, now)
    ensures Reachable(c, Watched(c, ClaimedRow(job, "w", c.lease, now), now + c.toLoop, 0))
  {
    var s0 := System([job], now, []);
    assert Leads(c, s0, [], s0);
    ReachOne(c, s0, ClaimStep(0, "w"));
    var s1 := Apply(c, s0, ClaimStep(0, "w"));
    ReachOne(c, s1, Tick(now + c.toLoop));
    var s2 := Apply(c, s1, Tick(now + c.toLoop));
    ReachOne(c, s2, BeginLoop(0));
    var s3 := Apply(c, s2, BeginLoop(0));
    var w := Watched(c, ClaimedRow(job, "w", c.lease, now), now + c.toLoop, 0);
    assert s3.execs == w.execs && s3.jobs == w.jobs;
  }

  /** The last poll that renews nothing, a full sleep, the end of the process, a slow finish. */
  lemma SlowestFinish(c: Timing, job: Job, beat: Instant)
    returns (s: System)
    requires Sane(c) && Reachable(c, Watched(c, job, beat, c.interval - 1))
    ensures Reachable(c, s) && s.jobs == [job] && s.now == beat - c.toLoop + LongestGap(c)
    ensures |s.execs| == 1 && s.execs[0].id == 0
  {
    var s0 := Watched(c, job, beat, c.interval - 1);
    var wake := s0.now + c.period;
    ReachOne(c, s0, Tick(wake));
    var s1 := Apply(c, s0, Tick(wake));
    ReachOne(c, s1, Leave(0));
    var s2 := Apply(c, s1, Leave(0));
    ReachOne(c, s2, Tick(wake + c.toFinish));
    s := Apply(c, s2, Tick(wake + c.toFinish));
  }

  lemma ShortLeaseRunsTwice(c: Timing, job: Job, now: Instant) returns (s: System)
    requires Sane(c) && c.lease < LongestGap(c) && Claimable(job, now)
    ensures Reachable(c, s) && ExecutedTwice(s)
  {
    var row := ClaimedRow(job, "w", c.lease, now);
    FirstWatch(c, job, now);
    WatchReachable(c, row, now + c.toLoop, c.interval - 1);
    var late := SlowestFinish(c, row, now + c.toLoop);
    ReachOne(c, late, ClaimStep(0, "v"));
    s := Apply(c, late, ClaimStep(0, "v"));
    assert s.execs[0].id == s.execs[1].id;
  }

  /** Exactly the leases at least as long as the longest gap are safe. */
  lemma SafeIffLeaseSuffices(c: Timing, job: Job, now: Instant)
    requires Sane(c) && Claimable(job, now)
    ensures c.lease >= c.toLoop + (c.interval - 1) + c.period + c.toFinish <==>
            forall s :: Reachable(c, s) ==> !ExecutedTwice(s)
  {
    if c.lease >= LongestGap(c) {
      forall s | Reachable(c, s) ensures !ExecutedTwice(s) {
        if |s.execs| > 0 {
          NoSecondClaim(c, s, 0, 0, "");
        }
      }
    } else {
      var s := ShortLeaseRunsTwice(c, job, now);
    }
  }

  /**
   At every moment of every run an execution can go on: its loop can begin or poll, its heartbeat
   can be written and stamped, its job finished in each of three ways; and before and between its
   polls it can end, and at any time die.
   */
  lemma ExecutionsCanGoOn(c: Timing, s: System, k: nat, error: Option<string>, output: Option<string>)
    requires LeaseSuffices(c) && Reachable(c, s) && k < |s.execs|
    ensures Enabled(c, s, Crash(k))
    ensures s.execs[k].stage.Submitted? ==> Enabled(c, s, BeginLoop(k)) && Enabled(c, s, Leave(k))
    ensures s.execs[k].stage.Polling? ==> Enabled(c, s, Poll(k)) && Enabled(c, s, Leave(k))
    ensures s.execs[k].stage.Beating? ==> Enabled(c, s, Renew(k))
    ensures s.execs[k].stage.Stamping? ==> Enabled(c, s, Stamp(k))
    ensures s.execs[k].stage.Leaving? ==>
              && Enabled(c, s, FinishStep(k, Call.Finish(Done, error, output)))
              && Enabled(c, s, FinishStep(k, Call.Finish(Failed, error, output)))
              && Enabled(c, s, FinishStep(k, Call.Finish(Cancelled, error, output)))
  {
    var start: System, steps: seq<Step> :| |start.execs| == 0 && Leads(c, start, steps, s);
    RunKeepsInv(c, start, steps, s);
    assert ExecOk(c, s, s.execs[k]);
  }
}
