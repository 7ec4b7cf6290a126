/**
 The scheduler tick: fill in the slots missed since the last recorded one, and enqueue the
 slot that is due now, at most once.

 A cron expression is a predicate on minutes; croniter's iterator is the least match after a
 given minute. Minutes are numbered in UTC.
 */
module Scheduler {
  import opened Options
  import opened Counting
  import opened JobDb
  import opened JobStore
  import opened EnqueueService
  import opened IsoTime

  /** MISSED_LOOKBACK, in minutes. */
  const LOOKBACK := 24 * 60

  type Cron = int -> bool

  datatype Schedule = Schedule(id: string, cron: Cron, project: string, role: string, kind: string, enabled: bool)

  function MinuteOf(t: DateTime): int
    requires t.month >= 1
  {
    (Ordinal(t) * 24 + t.hour) * 60 + t.minute
  }

  /** The least match strictly after m, or the limit if there is none before it. */
  function NextMatch(cron: Cron, m: int, limit: int): (next: int)
    ensures m < limit ==> m < next <= limit
    ensures m >= limit ==> next == limit
    ensures forall n :: m < n < next ==> !cron(n)
    ensures next < limit ==> cron(next)
    decreases limit - m
  {
    if m + 1 >= limit then limit
    else if cron(m + 1) then m + 1
    else NextMatch(cron, m + 1, limit)
  }

  lemma {:induction false} SomeGreatest(s: set<int>, x: int)
    requires x in s
    ensures exists m :: m in s && forall k :: k in s ==> k <= m
    decreases |s|
  {
    if y :| y in s && y != x {
      SomeGreatest(s - {x}, y);
      var m :| m in s - {x} && forall k :: k in s - {x} ==> k <= m;
      var top := if x > m then x else m;
      assert forall k :: k in s ==> k == x || k in s - {x};
      assert top in s;
    } else {
      assert forall k :: k in s ==> k <= x;
    }
  }

  lemma SomeElement<T>(s: set<T>) returns (x: T)
    requires s != {}
    ensures x in s
  {
    x :| x in s;
  }

  lemma SomeLastRow(rows: map<int, Run>)
    requires rows != map[]
    ensures exists m :: m in rows && forall k :: k in rows ==> k <= m
  {
    assert rows.Keys != {};
    var x := SomeElement(rows.Keys);
    SomeGreatest(rows.Keys, x);
  }

  /** SELECT MAX(scheduled_for) */
  function LastScheduledFor(rows: map<int, Run>): (last: Option<int>)
    ensures last.None? <==> rows == map[]
    ensures last.Some? ==> last.value in rows && forall k :: k in rows ==> k <= last.value
  {
    if rows == map[] then None
    else
      SomeLastRow(rows);
      var m :| m in rows && forall k :: k in rows ==> k <= m;
      Some(m)
  }

  function Max(a: int, b: int): int {
    if a >= b then a else b
  }

  // ---- what a tick makes of one schedule's rows

  /** Every match between start and limit, both excluded, that has no row yet gets a missed one. */
  function Filled(rows: map<int, Run>, cron: Cron, start: int, limit: int): map<int, Run> {
    map m | m in rows.Keys + (set n | start < n < limit && cron(n)) ::
      if m in rows then rows[m] else Run(Missed, None)
  }

  function FilledSinceLast(rows: map<int, Run>, cron: Cron, now: int): map<int, Run> {
    match LastScheduledFor(rows)
    case None => rows
    case Some(last) => Filled(rows, cron, Max(last, now - LOOKBACK), now)
  }

  /** The rows after a tick whose enqueue, if one was due, gave `job` or failed. */
  function Ticked(rows: map<int, Run>, cron: Cron, now: int, job: Option<JobId>): map<int, Run> {
    var filled := FilledSinceLast(rows, cron, now);
    if cron(now) && now !in filled && job.Some? then filled[now := Run(Enqueued, job)] else filled
  }

  // ---- the store's rows

  /** Every enqueued slot names a job that carries the slot's own key. */
  ghost predicate SlotsHaveJobs(db: Db) {
    forall s: string, t: DateTime ::
      IsWholeMinute(t) && MinuteOf(t) in RowsOf(db.runs, s) && RowsOf(db.runs, s)[MinuteOf(t)].status == Enqueued ==>
        var job := RowsOf(db.runs, s)[MinuteOf(t)].job;
        job.Some? && job.value < |db.jobs| && db.jobs[job.value].idempotencyKey == Some(SlotKey(s, t))
  }

  /** Moving the limit past one match fills that slot, if it has no row. */
  lemma FilledStep(rows: map<int, Run>, cron: Cron, start: int, slot: int, next: int)
    requires start < slot < next && cron(slot) && forall n :: slot < n < next ==> !cron(n)
    ensures var was := Filled(rows, cron, start, slot);
            Filled(rows, cron, start, next) == if slot in was then was else was[slot := Run(Missed, None)]
  {
  }

  lemma FilledNothing(rows: map<int, Run>, cron: Cron, start: int, next: int)
    requires forall n :: start < n < next ==> !cron(n)
    ensures Filled(rows, cron, start, next) == rows
  {
  }

  /** Fill one schedule's missed slots. */
  method MarkMissed(store: Store, sch: Schedule, now: int)
    modifies store`runs
    ensures RowsOf(store.runs, sch.id) == FilledSinceLast(old(RowsOf(store.runs, sch.id)), sch.cron, now)
    ensures forall s :: s != sch.id ==> RowsOf(store.runs, s) == old(RowsOf(store.runs, s))
  {
    var rows := RowsOf(store.runs, sch.id);
    var last := LastScheduledFor(rows);
    if last.Some? {
      var start := Max(last.value, now - LOOKBACK);
      var nxt := NextMatch(sch.cron, start, now);
      if start >= now {
        FilledNothing(rows, sch.cron, start, now);
        return;
      }
      FilledNothing(rows, sch.cron, start, nxt);
      while nxt < now
        invariant start < nxt <= now && (nxt < now ==> sch.cron(nxt))
        invariant RowsOf(store.runs, sch.id) == Filled(rows, sch.cron, start, nxt)
        invariant forall s :: s != sch.id ==> RowsOf(store.runs, s) == old(RowsOf(store.runs, s))
        decreases now - nxt
      {
        var next := NextMatch(sch.cron, nxt, now);
        FilledStep(rows, sch.cron, start, nxt, next);
        var ok := store.RecordScheduleRun(sch.id, nxt, Run(Missed, None));
        nxt := next;
      }
    }
  }

  /** What the attempt to enqueue a slot finds outside the database. */
  datatype Env = Env(promptOk: bool, hash: string, plan: Plan, diskOk: bool, now: Instant, created: Instant)

  function SlotRequest(sch: Schedule, minute: DateTime, hash: string): Request
    requires IsWholeMinute(minute)
  {
    Request(sch.project, sch.role, sch.kind, hash, 0, false, Some(SlotKey(sch.id, minute)))
  }

  /** The slot is free, its prompt can be read, and the enqueue service takes its request. */
  predicate CanEnqueue(db: Db, sch: Schedule, budget: Budget, minute: DateTime, env: Env)
    requires IsWholeMinute(minute)
  {
    && MinuteOf(minute) !in RowsOf(db.runs, sch.id) && env.promptOk
    && Accepts(db.jobs, budget, SlotRequest(sch, minute, env.hash), env.plan, env.diskOk, env.now)
  }

  /** What a successful enqueue of a slot does: its row and its job, and no other row. */
  ghost predicate SlotTaken(before: Db, after: Db, id: string, minute: DateTime, job: JobId)
    requires IsWholeMinute(minute)
  {
    && MinuteOf(minute) !in RowsOf(before.runs, id)
    && RowsOf(after.runs, id) == RowsOf(before.runs, id)[MinuteOf(minute) := Run(Enqueued, Some(job))]
    && (forall s :: s != id ==> RowsOf(after.runs, s) == RowsOf(before.runs, s))
    && before.jobs <= after.jobs && |after.jobs| <= |before.jobs| + 1
    && job < |after.jobs| && after.jobs[job].idempotencyKey == Some(SlotKey(id, minute))
  }

  /**
   Record the due slot and enqueue its job in one transaction. Success leaves both, any
   failure leaves neither, and a slot that has a row already is left alone.
   */
  method EnqueueSlot(store: Store, sch: Schedule, budget: Budget, minute: DateTime, env: Env)
    returns (job: Option<JobId>)
    requires !store.inTransaction && IsWholeMinute(minute)
    modifies store
    ensures !store.inTransaction
    ensures job.Some? <==> CanEnqueue(old(store.Contents()), sch, budget, minute, env)
    ensures job.None? ==> store.Contents() == old(store.Contents())
    ensures job.Some? ==> SlotTaken(old(store.Contents()), store.Contents(), sch.id, minute, job.value)
    ensures |store.jobs| > |old(store.jobs)| ==>
              job == Some(|old(store.jobs)|) && IsSlotJob(store.jobs[job.value], sch, minute, env)
  {
    var slot := MinuteOf(minute);
    store.Begin();
    var isNew := store.RecordScheduleRun(sch.id, slot, Run(Enqueued, None));
    if !isNew || !env.promptOk {
      store.Rollback();
      return None;
    }
    job := EnqueueFor(store, sch, budget, minute, env);
    if job.Some? {
      store.SetScheduleRunJobId(sch.id, slot, job.value);
      store.Commit();
    } else {
      store.Rollback();
    }
  }

  /** The row is the job that this schedule asks for at this minute. */
  predicate IsSlotJob(j: Job, sch: Schedule, minute: DateTime, env: Env)
    requires IsWholeMinute(minute)
  {
    env.plan.Resolved?
    && IsFreshJob(j, sch.role, sch.project, sch.kind, env.hash, 0, Some(sch.id + ":" + IsoFormat(minute)),
                  env.plan.provider, env.plan.requireConfirm, env.created)
  }

  /** enqueue_job for one slot, inside the tick's transaction; None stands for an exception. */
  method EnqueueFor(store: Store, sch: Schedule, budget: Budget, minute: DateTime, env: Env)
    returns (job: Option<JobId>)
    requires store.inTransaction && IsWholeMinute(minute)
    modifies store
    ensures store.inTransaction && store.saved == old(store.saved)
    ensures store.Contents() == old(store.Contents()).(jobs := store.jobs)
    ensures job.Some? <==>
              Accepts(old(store.jobs), budget, SlotRequest(sch, minute, env.hash), env.plan, env.diskOk, env.now)
    ensures old(store.jobs) <= store.jobs && |store.jobs| <= |old(store.jobs)| + 1
    ensures job.Some? ==>
              job.value < |store.jobs| && store.jobs[job.value].idempotencyKey == Some(SlotKey(sch.id, minute))
    ensures |store.jobs| > |old(store.jobs)| ==>
              job == Some(|old(store.jobs)|) && IsSlotJob(store.jobs[job.value], sch, minute, env)
  {
    var req := SlotRequest(sch, minute, env.hash);
    assert ':' in req.key.value;
    ghost var before := store.jobs;
    var out := EnqueueJob(store, budget, req, env.plan, env.diskOk, env.now, env.created);
    if out.Created? {
      CreatedAsRequested(out, before, budget, req, env.plan, env.diskOk, env.now, env.created);
      assert store.jobs[..|before|] == before;
      return Some(out.id);
    }
    OtherwiseUnchanged(out, before, budget, req, env.plan, env.diskOk, env.now, env.created);
    job := if out.Existing? then Some(out.id) else None;
  }

  lemma MinuteInjective(t: DateTime, u: DateTime)
    requires IsWholeMinute(t) && IsWholeMinute(u) && MinuteOf(t) == MinuteOf(u)
    ensures t == u
  {
    assert Micros(t) == MinuteOf(t) * 60_000_000 && Micros(u) == MinuteOf(u) * 60_000_000;
    StringOrderIsTimeOrder(t, u);
  }

  lemma FillingKeepsJobs(before: Db, after: Db, id: string, cron: Cron, now: int)
    requires SlotsHaveJobs(before) && after.jobs == before.jobs
    requires RowsOf(after.runs, id) == FilledSinceLast(RowsOf(before.runs, id), cron, now)
    requires forall s :: s != id ==> RowsOf(after.runs, s) == RowsOf(before.runs, s)
    ensures SlotsHaveJobs(after)
  {
    assert forall m :: m in RowsOf(after.runs, id) ==>
        RowsOf(after.runs, id)[m].status == Missed
        || (m in RowsOf(before.runs, id) && RowsOf(after.runs, id)[m] == RowsOf(before.runs, id)[m]);
  }

  lemma EnqueueingKeepsJobs(before: Db, after: Db, id: string, minute: DateTime, job: JobId)
    requires SlotsHaveJobs(before) && IsWholeMinute(minute) && SlotTaken(before, after, id, minute, job)
    ensures SlotsHaveJobs(after)
  {
    forall s: string, t: DateTime |
      IsWholeMinute(t) && MinuteOf(t) in RowsOf(after.runs, s) && RowsOf(after.runs, s)[MinuteOf(t)].status == Enqueued
      ensures var j := RowsOf(after.runs, s)[MinuteOf(t)].job;
              j.Some? && j.value < |after.jobs| && after.jobs[j.value].idempotencyKey == Some(SlotKey(s, t))
    {
      if s == id && MinuteOf(t) == MinuteOf(minute) {
        MinuteInjective(t, minute);
      } else {
        assert MinuteOf(t) in RowsOf(before.runs, s);
        assert RowsOf(before.runs, s)[MinuteOf(t)] == RowsOf(after.runs, s)[MinuteOf(t)];
      }
    }
  }

  /** One schedule's share of a tick. */
  method TickOne(store: Store, sch: Schedule, budget: Budget, minute: DateTime, env: Env)
    returns (job: Option<JobId>)
    requires !store.inTransaction && IsWholeMinute(minute)
    requires SlotsHaveJobs(store.Contents())
    modifies store
    ensures !store.inTransaction && SlotsHaveJobs(store.Contents())
    ensures RowsOf(store.runs, sch.id) ==
            if sch.enabled then Ticked(old(RowsOf(store.runs, sch.id)), sch.cron, MinuteOf(minute), job)
            else old(RowsOf(store.runs, sch.id))
    ensures job.Some? <==>
              && sch.enabled && sch.cron(MinuteOf(minute))
              && MinuteOf(minute) !in old(RowsOf(store.runs, sch.id)) && env.promptOk
              && Accepts(old(store.jobs), budget, SlotRequest(sch, minute, env.hash), env.plan, env.diskOk, env.now)
    ensures forall s :: s != sch.id ==> RowsOf(store.runs, s) == old(RowsOf(store.runs, s))
    ensures old(store.jobs) <= store.jobs
    ensures |store.jobs| <= |old(store.jobs)| + if job.Some? then 1 else 0
    ensures |store.jobs| > |old(store.jobs)| ==>
              job == Some(|old(store.jobs)|) && IsSlotJob(store.jobs[job.value], sch, minute, env)
  {
    if !sch.enabled {
      return None;
    }
    ghost var before := store.Contents();
    MarkMissed(store, sch, MinuteOf(minute));
    FillingKeepsJobs(before, store.Contents(), sch.id, sch.cron, MinuteOf(minute));
    if !sch.cron(MinuteOf(minute)) {
      return None;
    }
    ghost var filled := store.Contents();
    job := EnqueueSlot(store, sch, budget, minute, env);
    if job.Some? {
      EnqueueingKeepsJobs(filled, store.Contents(), sch.id, minute, job.value);
    }
  }

  function DidEnqueue(): Option<JobId> -> bool {
    (r: Option<JobId>) => r.Some?
  }

  /** Every row from `first` on is the job of one of the schedules so far, which reports it. */
  ghost predicate AreSlotJobs(jobs: seq<Job>, first: nat, results: seq<Option<JobId>>, schedules: seq<Schedule>,
                              minute: DateTime, envs: seq<Env>)
    requires IsWholeMinute(minute) && |results| <= |schedules| == |envs|
  {
    forall k: nat :: first <= k < |jobs| ==>
      exists i: nat :: i < |results| && results[i] == Some(k) && IsSlotJob(jobs[k], schedules[i], minute, envs[i])
  }

  lemma OneMoreSlotJob(before: seq<Job>, after: seq<Job>, first: nat, results: seq<Option<JobId>>, job: Option<JobId>,
                       schedules: seq<Schedule>, minute: DateTime, envs: seq<Env>)
    requires IsWholeMinute(minute) && |results| < |schedules| == |envs| && first <= |before|
    requires AreSlotJobs(before, first, results, schedules, minute, envs)
    requires before <= after && |after| <= |before| + 1
    requires |after| > |before| ==>
               job == Some(|before|) && IsSlotJob(after[|before|], schedules[|results|], minute, envs[|results|])
    ensures AreSlotJobs(after, first, results + [job], schedules, minute, envs)
  {
    var all := results + [job];
    forall k: nat | first <= k < |after|
      ensures exists i: nat :: i < |all| && all[i] == Some(k) && IsSlotJob(after[k], schedules[i], minute, envs[i])
    {
      if k < |before| {
        var i: nat :| i < |results| && results[i] == Some(k) && IsSlotJob(before[k], schedules[i], minute, envs[i]);
        assert all[i] == Some(k) && after[k] == before[k];
      } else {
        assert all[|results|] == Some(k);
      }
    }
  }

  /** One pass over all schedules; results says which of them enqueued, and as which job. */
  method Tick(store: Store, schedules: seq<Schedule>, budget: Budget, minute: DateTime, envs: seq<Env>)
    returns (enqueued: nat, results: seq<Option<JobId>>)
    requires !store.inTransaction && IsWholeMinute(minute)
    requires SlotsHaveJobs(store.Contents())
    requires forall i, k :: 0 <= i < k < |schedules| ==> schedules[i].id != schedules[k].id
    requires |envs| == |schedules|
    modifies store
    ensures !store.inTransaction && SlotsHaveJobs(store.Contents())
    ensures |results| == |schedules| && enqueued == Count(results, DidEnqueue())
    ensures forall i :: 0 <= i < |schedules| ==>
              RowsOf(store.runs, schedules[i].id) ==
              if schedules[i].enabled then
                Ticked(old(RowsOf(store.runs, schedules[i].id)), schedules[i].cron, MinuteOf(minute), results[i])
              else old(RowsOf(store.runs, schedules[i].id))
    ensures forall i :: 0 <= i < |schedules| && results[i].Some? ==>
              && schedules[i].enabled && schedules[i].cron(MinuteOf(minute))
              && MinuteOf(minute) !in old(RowsOf(store.runs, schedules[i].id))
    ensures old(store.jobs) <= store.jobs && |store.jobs| <= |old(store.jobs)| + enqueued
    ensures AreSlotJobs(store.jobs, |old(store.jobs)|, results, schedules, minute, envs)
  {
    enqueued, results := 0, [];
    for i := 0 to |schedules|
      invariant !store.inTransaction && SlotsHaveJobs(store.Contents())
      invariant |results| == i && enqueued == Count(results, DidEnqueue())
      invariant forall k :: 0 <= k < i ==>
                  RowsOf(store.runs, schedules[k].id) ==
                  if schedules[k].enabled then
                    Ticked(old(RowsOf(store.runs, schedules[k].id)), schedules[k].cron, MinuteOf(minute), results[k])
                  else old(RowsOf(store.runs, schedules[k].id))
      invariant forall k :: 0 <= k < i && results[k].Some? ==>
                  && schedules[k].enabled && schedules[k].cron(MinuteOf(minute))
                  && MinuteOf(minute) !in old(RowsOf(store.runs, schedules[k].id))
      invariant forall k :: i <= k < |schedules| ==>
                  RowsOf(store.runs, schedules[k].id) == old(RowsOf(store.runs, schedules[k].id))
      invariant old(store.jobs) <= store.jobs && |store.jobs| <= |old(store.jobs)| + enqueued
      invariant AreSlotJobs(store.jobs, |old(store.jobs)|, results, schedules, minute, envs)
    {
      ghost var before := store.jobs;
      var job := TickOne(store, schedules[i], budget, minute, envs[i]);
      OneMoreSlotJob(before, store.jobs, |old(store.jobs)|, results, job, schedules, minute, envs);
      CountAppend(results, job, DidEnqueue());
      results := results + [job];
      if job.Some? {
        enqueued := enqueued + 1;
      }
    }
  }

  /** Different slots, of whatever schedules, are enqueued as different jobs. */
  lemma SlotsNeverShareJobs(db: Db, s: string, m: DateTime, t: string, n: DateTime)
    requires SlotsHaveJobs(db) && IsWholeMinute(m) && IsWholeMinute(n)
    requires MinuteOf(m) in RowsOf(db.runs, s) && RowsOf(db.runs, s)[MinuteOf(m)].status == Enqueued
    requires MinuteOf(n) in RowsOf(db.runs, t) && RowsOf(db.runs, t)[MinuteOf(n)].status == Enqueued
    requires RowsOf(db.runs, s)[MinuteOf(m)].job == RowsOf(db.runs, t)[MinuteOf(n)].job
    ensures s == t && m == n
  {
    SlotKeyInjective(s, m, t, n);
  }
}
