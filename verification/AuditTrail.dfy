/**
 What the job_events log says about a job's history.

 Only finish, requeue and mark_dead are logged, each with the status its call read. Exactly when
 every requeue finds that status still in place, each job's log is the logged part of a legal
 path through the state machine; a stale finish does no harm, since the status it read can be
 put back into the path.
 */
module AuditTrail {
  import opened Options
  import opened Transitions
  import opened JobDb
  import opened EnqueueService
  import opened Interleaving
  import opened Safety

  datatype Edge = Edge(from: Status, to: Status, logged: bool)

  /** The status moves that write no event: claim, cancel, approve and reject. */
  predicate IsSilent(from: Status, to: Status) {
    || (to == Running && from in {Pending, Approved, Running})
    || (to == Cancelled && IsQueued(from))
    || (to == Cancelling && from == Running)
    || (to in {Approved, Rejected} && from == WaitingApproval)
  }

  /** A walk of legal edges; the edges not logged are silent ones. */
  predicate IsPath(path: seq<Edge>, from: Status, to: Status) {
    if path == [] then from == to
    else
      var last := path[|path| - 1];
      && last.to == to && IsLegal(last.from, last.to) && (last.logged || IsSilent(last.from, last.to))
      && IsPath(path[..|path| - 1], from, last.from)
  }

  function Logged(path: seq<Edge>): seq<(Status, Status)> {
    if path == [] then []
    else
      var last := path[|path| - 1];
      Logged(path[..|path| - 1]) + if last.logged then [(last.from, last.to)] else []
  }

  function LogOf(events: seq<Event>, id: JobId): seq<(Status, Status)> {
    if events == [] then []
    else
      var last := events[|events| - 1];
      LogOf(events[..|events| - 1], id) + if last.job == id then [(last.from, last.to)] else []
  }

  function InitialStatus(s: System, id: JobId): Status {
    if id in s.gated then WaitingApproval else Pending
  }

  /** Some legal history from `first` to `to` logs exactly this. */
  ghost predicate HasPath(first: Status, to: Status, log: seq<(Status, Status)>) {
    exists path :: IsPath(path, first, to) && Logged(path) == log
  }

  ghost predicate HasHistory(s: System, id: JobId)
    requires id < |s.db.jobs|
  {
    HasPath(InitialStatus(s, id), s.db.jobs[id].status, LogOf(s.db.events, id))
  }

  /** The write finds the status its call read, as it does when nothing came in between. */
  predicate IsFresh(s: System, step: Step) {
    step.WriteStep? && WriteHits(s.db.jobs, step.op) ==> s.db.jobs[step.op.id].status == step.op.cur
  }

  /** Every requeue of the run that changes its row finds the status its call read. */
  ghost predicate RequeuesFresh(s: System, steps: seq<Step>)
    decreases |steps|
  {
    steps == []
    || (Enabled(s, steps[0]) && (IsRequeue(steps[0]) ==> IsFresh(s, steps[0]))
        && RequeuesFresh(Apply(s, steps[0]), steps[1..]))
  }

  predicate IsRequeue(step: Step) {
    step.WriteStep? && step.op.call.Requeue?
  }

  /** A call whose read and write are not separated is fresh. */
  lemma UninterruptedCallIsFresh(s: System, id: JobId, call: Call, manual: bool, now: Instant)
    requires Enabled(s, ReadStep(id, call, manual))
    ensures var mid := Apply(s, ReadStep(id, call, manual));
            var write := WriteStep(PendingWrite(id, s.db.jobs[id].status, call), now);
            Enabled(mid, write) && IsFresh(mid, write) && Apply(mid, write).db == AtomicCall(s.db, id, call, now)
  {
  }

  lemma LogOfAppend(events: seq<Event>, e: Event, id: JobId)
    ensures LogOf(events + [e], id) == LogOf(events, id) + if e.job == id then [(e.from, e.to)] else []
  {
    assert (events + [e])[..|events|] == events;
  }

  lemma {:induction false} NoLogYet(events: seq<Event>, id: JobId)
    requires forall k :: 0 <= k < |events| ==> events[k].job != id
    ensures LogOf(events, id) == []
  {
    if events != [] {
      NoLogYet(events[..|events| - 1], id);
    }
  }

  lemma ExtendPath(path: seq<Edge>, from: Status, edge: Edge)
    requires IsPath(path, from, edge.from)
    requires IsLegal(edge.from, edge.to) && (edge.logged || IsSilent(edge.from, edge.to))
    ensures IsPath(path + [edge], from, edge.to)
    ensures Logged(path + [edge]) == Logged(path) + if edge.logged then [(edge.from, edge.to)] else []
  {
    assert (path + [edge])[..|path|] == path;
  }

  // ---- what one step does to one job's status and log

  predicate Hits(s: System, step: Step, id: JobId) {
    step.WriteStep? && step.op.id == id && WriteHits(s.db.jobs, step.op)
  }

  lemma StepLogs(s: System, step: Step, id: JobId)
    requires Enabled(s, step)
    ensures LogOf(Apply(s, step).db.events, id) ==
            LogOf(s.db.events, id) + if Hits(s, step, id) then [(step.op.cur, Target(step.op.call))] else []
  {
    if step.WriteStep? && WriteHits(s.db.jobs, step.op) {
      LogOfAppend(s.db.events, Event(step.op.id, step.op.cur, Target(step.op.call), step.now), id);
    }
  }

  /** A status move that logs nothing is silent. */
  lemma UnloggedMoveIsSilent(s: System, step: Step, id: JobId)
    requires Enabled(s, step) && id < |s.db.jobs| && !Hits(s, step, id)
    ensures var was, became := s.db.jobs[id].status, Apply(s, step).db.jobs[id].status;
            was == became || (IsLegal(was, became) && IsSilent(was, became))
  {
  }

  lemma HitsTarget(s: System, step: Step, id: JobId)
    requires Enabled(s, step) && Hits(s, step, id)
    ensures id < |Apply(s, step).db.jobs| && Apply(s, step).db.jobs[id].status == Target(step.op.call)
  {
  }

  lemma JobsStay(s: System, step: Step, id: JobId)
    requires Enabled(s, step) && GatedInTable(s) && id < |s.db.jobs|
    ensures id < |Apply(s, step).db.jobs| && GatedInTable(Apply(s, step))
    ensures InitialStatus(Apply(s, step), id) == InitialStatus(s, id)
    ensures Hits(s, step, id) ==> Apply(s, step).db.jobs[id].status == Target(step.op.call)
  {
    GatedStaysInTable(s, step);
    if Hits(s, step, id) {
      HitsTarget(s, step, id);
    }
  }

  // ---- fresh requeues: every log is explained

  lemma PathExtends(first: Status, log: seq<(Status, Status)>, edge: Edge)
    requires HasPath(first, edge.from, log)
    requires IsLegal(edge.from, edge.to) && (edge.logged || IsSilent(edge.from, edge.to))
    ensures HasPath(first, edge.to, log + if edge.logged then [(edge.from, edge.to)] else [])
  {
    var path :| IsPath(path, first, edge.from) && Logged(path) == log;
    ExtendPath(path, first, edge);
    assert IsPath(path + [edge], first, edge.to);
  }

  /**
   What a finish with a stale read can rely on: a job that is being cancelled was running under
   the same log, and an owned job that had been pending was pending under the same log.
   */
  ghost predicate Explained(first: Status, st: Status, log: seq<(Status, Status)>) {
    && HasPath(first, st, log)
    && (st == Cancelling ==> HasPath(first, Running, log))
    && (IsOwned(st) && WasPending(first, log) ==> HasPath(first, Pending, log))
    && (st == Pending ==> WasPending(first, log))
    && (st in {WaitingApproval, Approved} ==> !WasPending(first, log))
  }

  /** The job has been pending: it began so, or its log holds what only a claimed job can log. */
  predicate WasPending(first: Status, log: seq<(Status, Status)>) {
    first == Pending || log != []
  }

  lemma SilentMoveExplained(first: Status, was: Status, became: Status, log: seq<(Status, Status)>)
    requires Explained(first, was, log) && IsLegal(was, became) && IsSilent(was, became)
    ensures Explained(first, became, log)
  {
    PathExtends(first, log, Edge(was, became, false));
    assert log + [] == log;
  }

  /** The status a guarded call read is one the job had under its present log. */
  lemma ReadStatusHasPath(first: Status, st: Status, cur: Status, call: Call, log: seq<(Status, Status)>)
    requires Explained(first, st, log) && st in WriteGuard(call) && CallerFinishes(call)
    requires IsLegal(cur, Target(call)) && (call.Requeue? ==> cur == st)
    requires call.Finish? ==> cur in {Running, Cancelling} || (cur == Pending && WasPending(first, log))
    ensures HasPath(first, cur, log)
  {
    if cur == Cancelling && st == Running {
      PathExtends(first, log, Edge(Running, Cancelling, false));
      assert log + [] == log;
    }
  }

  lemma WriteExplained(first: Status, st: Status, cur: Status, call: Call, log: seq<(Status, Status)>)
    requires Explained(first, st, log) && st in WriteGuard(call) && CallerFinishes(call)
    requires IsLegal(cur, Target(call)) && (call.Requeue? ==> cur == st)
    requires call.Finish? ==> cur in {Running, Cancelling} || (cur == Pending && WasPending(first, log))
    ensures Explained(first, Target(call), log + [(cur, Target(call))])
  {
    ReadStatusHasPath(first, st, cur, call, log);
    PathExtends(first, log, Edge(cur, Target(call), true));
  }

  ghost predicate JobExplained(s: System, id: JobId)
    requires id < |s.db.jobs|
  {
    Explained(InitialStatus(s, id), s.db.jobs[id].status, LogOf(s.db.events, id))
  }

  /** A worker's finish read its job as owned or, after a requeue, as pending. */
  ghost predicate FinishesRead(s: System) {
    && (forall op :: op in s.writes && op.call.Finish? ==>
          op.cur in {Running, Cancelling}
          || (op.cur == Pending && WasPending(InitialStatus(s, op.id), LogOf(s.db.events, op.id))))
    && (forall id: JobId :: id in s.claims && id < |s.db.jobs| ==>
          s.db.jobs[id].status !in {WaitingApproval, Approved})
  }

  lemma StepExplains(s: System, step: Step, id: JobId)
    requires WritesOk(s) && GatedInTable(s) && Enabled(s, step) && FinishesRead(s)
    requires IsRequeue(step) ==> IsFresh(s, step)
    requires id < |s.db.jobs| && JobExplained(s, id)
    ensures id < |Apply(s, step).db.jobs| && JobExplained(Apply(s, step), id)
  {
    var was, became := s.db.jobs[id].status, Apply(s, step).db.jobs[id].status;
    var first, log := InitialStatus(s, id), LogOf(s.db.events, id);
    StepLogs(s, step, id);
    JobsStay(s, step, id);
    if Hits(s, step, id) {
      WriteExplained(first, was, step.op.cur, step.op.call, log);
    } else {
      assert log + [] == log;
      UnloggedMoveIsSilent(s, step, id);
      if was != became {
        SilentMoveExplained(first, was, became, log);
      }
    }
  }

  lemma NewJobExplained(s: System, step: Step)
    requires Inv(s) && GatedInTable(s) && Enabled(s, step) && ChangeOf(s, step).Add?
    ensures GatedInTable(Apply(s, step)) && JobExplained(Apply(s, step), |s.db.jobs|)
  {
    var id := |s.db.jobs|;
    NoLogYet(s.db.events, id);
    assert IsPath([], InitialStatus(Apply(s, step), id), ChangeOf(s, step).row.status);
    assert Logged([]) == [];
  }

  lemma ReadFindsOwnedOrPending(s: System, id: JobId, call: Call, manual: bool)
    requires GatedInTable(s) && FinishesRead(s) && Enabled(s, ReadStep(id, call, manual)) && call.Finish?
    requires JobExplained(s, id)
    ensures var cur := s.db.jobs[id].status;
            cur in {Running, Cancelling} || (cur == Pending && WasPending(InitialStatus(s, id), LogOf(s.db.events, id)))
  {
  }

  lemma StepKeepsFinishes(s: System, step: Step)
    requires Inv(s) && GatedInTable(s) && FinishesRead(s) && Enabled(s, step)
    requires forall id: JobId :: id < |s.db.jobs| ==> JobExplained(s, id)
    ensures FinishesRead(Apply(s, step))
  {
    var t := Apply(s, step);
    forall op | op in t.writes && op.call.Finish?
      ensures op.cur in {Running, Cancelling}
              || (op.cur == Pending && WasPending(InitialStatus(t, op.id), LogOf(t.db.events, op.id)))
    {
      if step.ReadStep? && op !in s.writes {
        ReadFindsOwnedOrPending(s, step.id, step.call, step.manual);
      }
      StepLogs(s, step, op.id);
      JobsStay(s, step, op.id);
    }
    ClaimedLeavesApproval(s, step);
  }

  lemma ClaimedRowLeavesApproval(s: System, step: Step)
    requires WritesOk(s) && Enabled(s, step) && ChangeOf(s, step).Put?
    ensures var c := ChangeOf(s, step);
            (c.row.status in {WaitingApproval, Approved} ==>
               s.db.jobs[c.id].status in {WaitingApproval, Approved} && !step.ClaimStep?)
  {
  }

  lemma ClaimsOnlyGrow(s: System, step: Step)
    requires Enabled(s, step)
    ensures Apply(s, step).claims == s.claims
            || (ChangeOf(s, step).Put? && step.ClaimStep?
                && Apply(s, step).claims == s.claims + [ChangeOf(s, step).id])
  {
  }

  lemma ClaimedLeavesApproval(s: System, step: Step)
    requires Inv(s) && FinishesRead(s) && Enabled(s, step)
    ensures var t := Apply(s, step);
            forall id: JobId :: id in t.claims && id < |t.db.jobs| ==>
              t.db.jobs[id].status !in {WaitingApproval, Approved}
  {
    ClaimsOnlyGrow(s, step);
    if ChangeOf(s, step).Put? {
      ClaimedRowLeavesApproval(s, step);
    }
  }

  ghost predicate AllExplained(s: System) {
    GatedInTable(s) && FinishesRead(s) && forall id: JobId :: id < |s.db.jobs| ==> JobExplained(s, id)
  }

  lemma NewIdIsAdded(s: System, step: Step, id: JobId)
    requires Enabled(s, step) && |s.db.jobs| <= id < |Apply(s, step).db.jobs|
    ensures ChangeOf(s, step).Add? && id == |s.db.jobs|
  {
  }

  lemma ExplainedAfter(s: System, step: Step, id: JobId)
    requires Inv(s) && AllExplained(s) && Enabled(s, step) && (IsRequeue(step) ==> IsFresh(s, step))
    ensures id < |Apply(s, step).db.jobs| ==> JobExplained(Apply(s, step), id)
  {
    if id < |s.db.jobs| {
      StepExplains(s, step, id);
    } else if id < |Apply(s, step).db.jobs| {
      NewIdIsAdded(s, step, id);
      NewJobExplained(s, step);
    }
  }

  lemma StepKeepsExplained(s: System, step: Step)
    requires Inv(s) && AllExplained(s) && Enabled(s, step) && (IsRequeue(step) ==> IsFresh(s, step))
    ensures AllExplained(Apply(s, step))
  {
    StepKeepsFinishes(s, step);
    forall id: JobId | id < |Apply(s, step).db.jobs| ensures JobExplained(Apply(s, step), id) {
      ExplainedAfter(s, step, id);
    }
  }

  lemma {:induction false} ExplainedFrom(s: System, steps: seq<Step>, t: System)
    requires Inv(s) && AllExplained(s) && Leads(s, steps, t) && RequeuesFresh(s, steps)
    ensures AllExplained(t)
    decreases |steps|
  {
    if steps != [] {
      StepKeepsExplained(s, steps[0]);
      StepKeepsInv(s, steps[0]);
      ExplainedFrom(Apply(s, steps[0]), steps[1..], t);
    }
  }

  /**
   In every run whose requeues find the status they read, however stale its finishes are, each
   job's log is what a true history logs: a legal path from its first status to its present one
   whose other edges are claims, cancels, approvals and rejections.
   */
  lemma LogIsTheLoggedHistory(start: System, steps: seq<Step>, t: System, id: JobId)
    requires Runs(start, steps, t) && RequeuesFresh(start, steps) && id < |t.db.jobs|
    ensures exists path ::
              IsPath(path, InitialStatus(t, id), t.db.jobs[id].status) && Logged(path) == LogOf(t.db.events, id)
  {
    InitInv(start);
    ExplainedFrom(start, steps, t);
    assert JobExplained(t, id);
  }

  // ---- a stale requeue: no path logs what the job's log holds

  /** failed and dead are entered and left only by logged moves. */
  predicate IsLoggedOnly(st: Status) {
    st in {Failed, Dead}
  }

  predicate EndsIn(log: seq<(Status, Status)>, st: Status) {
    log != [] && log[|log| - 1].1 == st
  }

  predicate LogFixesStatus(st: Status, log: seq<(Status, Status)>) {
    && (IsLoggedOnly(st) ==> EndsIn(log, st))
    && (forall f :: IsLoggedOnly(f) && EndsIn(log, f) ==> st == f)
  }

  lemma PathFixesStatus(path: seq<Edge>, from: Status, to: Status)
    requires IsPath(path, from, to) && !IsLoggedOnly(from)
    ensures LogFixesStatus(to, Logged(path))
  {
    if path != [] {
      PathFixesStatus(path[..|path| - 1], from, path[|path| - 1].from);
    }
  }

  lemma LastLoggedEdge(path: seq<Edge>, from: Status, to: Status) returns (k: nat)
    requires IsPath(path, from, to) && Logged(path) != []
    ensures k < |path| && path[k].logged && IsPath(path[..k], from, path[k].from)
    ensures Logged(path) == Logged(path[..k]) + [(path[k].from, path[k].to)]
  {
    k := |path| - 1;
    if !path[k].logged {
      assert Logged(path) == Logged(path[..k]);
      var shorter := path[..k];
      k := LastLoggedEdge(shorter, from, path[k].from);
      assert shorter[..k] == path[..k];
    }
  }

  /** Some path from `first` has logged this much. */
  ghost predicate Possible(first: Status, log: seq<(Status, Status)>) {
    exists to :: HasPath(first, to, log)
  }

  lemma PossibleBefore(first: Status, log: seq<(Status, Status)>, edge: (Status, Status))
    requires Possible(first, log + [edge])
    ensures HasPath(first, edge.0, log)
  {
    var to: Status, path: seq<Edge> :| IsPath(path, first, to) && Logged(path) == log + [edge];
    var k := LastLoggedEdge(path, first, to);
    assert log + [edge] == Logged(path[..k]) + [(path[k].from, path[k].to)];
    assert (log + [edge])[|log|] == edge && (log + [edge])[..|log|] == log;
    assert (Logged(path[..k]) + [(path[k].from, path[k].to)])[..|log|] == Logged(path[..k]);
  }

  /** A requeue that read another stopped status than the job has logs what cannot have happened. */
  lemma StaleRequeueIsImpossible(first: Status, st: Status, cur: Status, log: seq<(Status, Status)>)
    requires LogFixesStatus(st, log) && !IsLoggedOnly(first)
    requires st in {Failed, Dead, Cancelled} && cur in {Failed, Dead, Cancelled} && st != cur
    ensures !Possible(first, log + [(cur, Pending)])
  {
    if Possible(first, log + [(cur, Pending)]) {
      PossibleBefore(first, log, (cur, Pending));
      var path :| IsPath(path, first, cur) && Logged(path) == log;
      PathFixesStatus(path, first, cur);
    }
  }

  ghost predicate LogsFixStatus(s: System) {
    GatedInTable(s)
    && forall id: JobId :: id < |s.db.jobs| ==> LogFixesStatus(s.db.jobs[id].status, LogOf(s.db.events, id))
  }

  lemma SilentMoveFixesStatus(was: Status, became: Status, log: seq<(Status, Status)>)
    requires LogFixesStatus(was, log) && IsLegal(was, became) && IsSilent(was, became)
    ensures LogFixesStatus(became, log)
  {
  }

  lemma WriteFixesStatus(cur: Status, to: Status, log: seq<(Status, Status)>)
    ensures LogFixesStatus(to, log + [(cur, to)])
  {
  }

  lemma NewStatusIsQueued(s: System, step: Step, id: JobId)
    requires Enabled(s, step) && id >= |s.db.jobs|
    ensures id < |Apply(s, step).db.jobs| ==>
              id == |s.db.jobs| && !IsLoggedOnly(Apply(s, step).db.jobs[id].status) && !Hits(s, step, id)
  {
  }

  lemma MoveFixesStatus(s: System, step: Step, id: JobId)
    requires Inv(s) && LogsFixStatus(s) && Enabled(s, step)
    ensures id < |Apply(s, step).db.jobs| ==>
              LogFixesStatus(Apply(s, step).db.jobs[id].status, LogOf(Apply(s, step).db.events, id))
  {
    StepLogs(s, step, id);
    if id < |s.db.jobs| {
      var was, became, log := s.db.jobs[id].status, Apply(s, step).db.jobs[id].status, LogOf(s.db.events, id);
      JobsStay(s, step, id);
      if Hits(s, step, id) {
        WriteFixesStatus(step.op.cur, became, log);
      } else {
        assert log + [] == log;
        UnloggedMoveIsSilent(s, step, id);
        if was != became {
          SilentMoveFixesStatus(was, became, log);
        }
      }
    } else {
      NoLogYet(s.db.events, id);
      NewStatusIsQueued(s, step, id);
    }
  }

  lemma StepFixesStatus(s: System, step: Step)
    requires Inv(s) && LogsFixStatus(s) && Enabled(s, step)
    ensures LogsFixStatus(Apply(s, step))
  {
    forall id: JobId | id < |Apply(s, step).db.jobs|
      ensures LogFixesStatus(Apply(s, step).db.jobs[id].status, LogOf(Apply(s, step).db.events, id))
    {
      MoveFixesStatus(s, step, id);
    }
    assert GatedInTable(Apply(s, step));
  }

  /** What no path explains, nothing that happens later makes explainable. */
  lemma {:induction false} ImpossibleForever(s: System, steps: seq<Step>, t: System, id: JobId)
    requires Leads(s, steps, t) && GatedInTable(s)
    requires id < |s.db.jobs| && !Possible(InitialStatus(s, id), LogOf(s.db.events, id))
    ensures id < |t.db.jobs| && !HasHistory(t, id)
    decreases |steps|
  {
    if steps != [] {
      var next := Apply(s, steps[0]);
      var log, first := LogOf(s.db.events, id), InitialStatus(s, id);
      StepLogs(s, steps[0], id);
      JobsStay(s, steps[0], id);
      if Hits(s, steps[0], id) {
        var edge := (steps[0].op.cur, Target(steps[0].op.call));
        if Possible(first, log + [edge]) {
          PossibleBefore(first, log, edge);
        }
      } else {
        assert log + [] == log;
      }
      ImpossibleForever(next, steps[1..], t, id);
    }
  }

  lemma StaleRequeueStep(s: System, step: Step)
    requires Inv(s) && LogsFixStatus(s) && Enabled(s, step) && IsRequeue(step) && !IsFresh(s, step)
    ensures var t := Apply(s, step);
            step.op.id < |t.db.jobs| && GatedInTable(t)
            && !Possible(InitialStatus(t, step.op.id), LogOf(t.db.events, step.op.id))
  {
    var id := step.op.id;
    StepLogs(s, step, id);
    JobsStay(s, step, id);
    StaleRequeueIsImpossible(InitialStatus(s, id), s.db.jobs[id].status, step.op.cur, LogOf(s.db.events, id));
  }

  lemma {:induction false} StaleRequeueSpoilsLog(s: System, steps: seq<Step>, t: System)
    requires Inv(s) && LogsFixStatus(s) && Leads(s, steps, t) && !RequeuesFresh(s, steps)
    ensures exists id: JobId :: id < |t.db.jobs| && !HasHistory(t, id)
    decreases |steps|
  {
    var next := Apply(s, steps[0]);
    if IsRequeue(steps[0]) && !IsFresh(s, steps[0]) {
      StaleRequeueStep(s, steps[0]);
      ImpossibleForever(next, steps[1..], t, steps[0].op.id);
    } else {
      StepKeepsInv(s, steps[0]);
      StepFixesStatus(s, steps[0]);
      StaleRequeueSpoilsLog(next, steps[1..], t);
    }
  }

  /**
   The audit log tells the truth exactly when no requeue overwrites a status that its call did
   not read: then, and only then, every job's log is the logged part of a legal history.
   */
  lemma LogsAreHistoriesIffRequeuesFresh(start: System, steps: seq<Step>, t: System)
    requires Runs(start, steps, t)
    ensures RequeuesFresh(start, steps) <==> forall id: JobId :: id < |t.db.jobs| ==> HasHistory(t, id)
  {
    InitInv(start);
    if RequeuesFresh(start, steps) {
      forall id: JobId | id < |t.db.jobs| ensures HasHistory(t, id) {
        LogIsTheLoggedHistory(start, steps, t, id);
      }
    } else {
      StaleRequeueSpoilsLog(start, steps, t);
    }
  }

  // ---- such runs exist

  lemma Cons(s: System, step: Step, rest: seq<Step>, t: System)
    requires Enabled(s, step) && Leads(Apply(s, step), rest, t)
    ensures Leads(s, [step] + rest, t)
    ensures RequeuesFresh(s, [step] + rest) ==> RequeuesFresh(Apply(s, step), rest)
  {
    assert ([step] + rest)[1..] == rest;
  }

  /** The second of two retries writes after the first has written and a cancel has come. */
  lemma LateRetry(s: System, id: JobId, now: Instant) returns (steps: seq<Step>, t: System)
    requires id < |s.db.jobs| && s.db.jobs[id].status == Pending
    requires PendingWrite(id, Failed, Requeue(None, None)) in s.writes
    ensures Leads(s, steps, t) && !RequeuesFresh(s, steps)
  {
    var cancel, write := CancelStep(id, now), WriteStep(PendingWrite(id, Failed, Requeue(None, None)), now);
    var cancelled := Apply(s, cancel);
    t := Apply(cancelled, write);
    Cons(cancelled, write, [], t);
    Cons(s, cancel, [write] + [], t);
    steps := [cancel] + ([write] + []);
  }

  /** From every state with a failed job: two retries read failed, and a cancel comes between their writes. */
  lemma TwoRetriesSpoilTheLog(s: System, id: JobId, now: Instant) returns (steps: seq<Step>, t: System)
    requires id < |s.db.jobs| && s.db.jobs[id].status == Failed
    ensures Leads(s, steps, t) && !RequeuesFresh(s, steps)
  {
    var call := Requeue(None, None);
    var read, write := ReadStep(id, call, true), WriteStep(PendingWrite(id, Failed, call), now);
    var s1 := Apply(s, read);
    var s2 := Apply(s1, read);
    var s3 := Apply(s2, write);
    var rest;
    rest, t := LateRetry(s3, id, now);
    Cons(s2, write, rest, t);
    Cons(s1, read, [write] + rest, t);
    Cons(s, read, [read] + ([write] + rest), t);
    steps := [read] + ([read] + ([write] + rest));
  }

  lemma FailThenRetryTwice(s: System, id: JobId, now: Instant) returns (steps: seq<Step>, t: System)
    requires id == 0 && |s.db.jobs| == 1 && s.db.jobs[0].status == Pending && s.db.jobs[0].nextEligibleAt == None
    ensures Leads(s, steps, t) && !RequeuesFresh(s, steps)
  {
    var call := Finish(Failed, None, None);
    var claim, read := ClaimStep(id, "w", 1, now), ReadStep(id, call, false);
    var write := WriteStep(PendingWrite(id, Running, call), now);
    var s1 := Apply(s, claim);
    var s2 := Apply(s1, read);
    var s3 := Apply(s2, write);
    var rest;
    rest, t := TwoRetriesSpoilTheLog(s3, id, now);
    Cons(s2, write, rest, t);
    Cons(s1, read, [write] + rest, t);
    Cons(s, claim, [read] + ([write] + rest), t);
    steps := [claim] + ([read] + ([write] + rest));
  }

  /** A whole run, from the empty database, after which some job's log is no history at all. */
  lemma StaleRetryLogsNoPath(budget: Budget, req: Request, plan: Plan, now: Instant)
    returns (start: System, steps: seq<Step>, t: System)
    requires budget.maxActiveJobs >= 1 && budget.maxJobsPerDay >= 1
    requires plan.Resolved? && plan.rootExists && !plan.requireConfirm && !req.dryRun
    ensures Runs(start, steps, t) && exists id: JobId :: id < |t.db.jobs| && !HasHistory(t, id)
  {
    start := System(Db([], [], [], map[]), budget, multiset{}, [], 0, {}, {});
    var enqueue := EnqueueStep(req, plan, true, now, now);
    assert CountActive([]) == 0 && CountSince([], now - DAY) == 0;
    var s := Apply(start, enqueue);
    assert s.db.jobs == [NewJob(req, plan, now)];
    var rest;
    rest, t := FailThenRetryTwice(s, 0, now);
    steps := [enqueue] + rest;
    Cons(start, enqueue, rest, t);
    LogsAreHistoriesIffRequeuesFresh(start, steps, t);
  }

  /** The moves that log nothing are those of claim, cancel, approve and reject, and each of them does happen. */
  lemma SilentMovesAreThose(s: System, id: JobId, now: Instant)
    requires id < |s.db.jobs|
    ensures forall to :: IsSilent(s.db.jobs[id].status, to) && to != s.db.jobs[id].status ==>
              || (to == Running && s.db.jobs[id].status in {Pending, Approved})
              || Apply(s, CancelStep(id, now)).db.jobs[id].status == to
              || Apply(s, ApproveStep(id)).db.jobs[id].status == to
              || Apply(s, RejectStep(id, now)).db.jobs[id].status == to
  {
  }
}
