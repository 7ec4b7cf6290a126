/**
 Several workers tick at once: their ticks interleave statement by statement, a late one may mark
 a slot missed before the slot's own tick records it, and other callers change jobs meanwhile.
 Whatever the order, a slot keeps its first row, and with it at most one job.
 */
module ScheduleRaces {
  import opened Options
  import opened JobDb
  import opened IsoTime
  import opened Scheduler
  import opened Interleaving

  datatype Statement =
    | RecordMissed(schedule: string, slot: int)                              // INSERT, or rejected
    | EnqueueTxn(schedule: string, minute: DateTime, job: JobId, after: Db)  // one committed transaction
    | OnJobs(jobs: seq<Job>)                                                 // any other statement on jobs

  predicate KeepsKeys(before: seq<Job>, after: seq<Job>) {
    |before| <= |after|
    && forall k :: 0 <= k < |before| ==> after[k].idempotencyKey == before[k].idempotencyKey
  }

  ghost predicate Possible(db: Db, stmt: Statement) {
    match stmt
    case RecordMissed(_, _) => true
    case EnqueueTxn(schedule, minute, job, after) =>
      IsWholeMinute(minute) && SlotTaken(db, after, schedule, minute, job)
    case OnJobs(jobs) => KeepsKeys(db.jobs, jobs)
  }

  function Done(db: Db, stmt: Statement): Db {
    match stmt
    case RecordMissed(schedule, slot) =>
      var rows := RowsOf(db.runs, schedule);
      if slot in rows then db else db.(runs := db.runs[schedule := rows[slot := Run(Missed, None)]])
    case EnqueueTxn(_, _, _, after) => after
    case OnJobs(jobs) => db.(jobs := jobs)
  }

  ghost predicate Happens(db: Db, stmts: seq<Statement>, t: Db)
    decreases |stmts|
  {
    if stmts == [] then db == t
    else Possible(db, stmts[0]) && Happens(Done(db, stmts[0]), stmts[1..], t)
  }

  lemma MissedKeepsJobs(before: Db, schedule: string, slot: int)
    requires SlotsHaveJobs(before)
    ensures SlotsHaveJobs(Done(before, RecordMissed(schedule, slot)))
  {
    var after := Done(before, RecordMissed(schedule, slot));
    assert forall s: string, m :: m in RowsOf(after.runs, s) ==>
        RowsOf(after.runs, s)[m].status == RunStatus.Missed
        || (m in RowsOf(before.runs, s) && RowsOf(after.runs, s)[m] == RowsOf(before.runs, s)[m]);
  }

  lemma StatementKeepsJobs(db: Db, stmt: Statement)
    requires SlotsHaveJobs(db) && Possible(db, stmt)
    ensures SlotsHaveJobs(Done(db, stmt))
  {
    match stmt
    case RecordMissed(schedule, slot) => MissedKeepsJobs(db, schedule, slot);
    case EnqueueTxn(schedule, minute, job, after) => EnqueueingKeepsJobs(db, after, schedule, minute, job);
    case OnJobs(_) =>
  }

  /** A slot's first row stays. */
  lemma {:induction false} RowsNeverChange(db: Db, stmts: seq<Statement>, t: Db, schedule: string, slot: int)
    requires Happens(db, stmts, t) && slot in RowsOf(db.runs, schedule)
    ensures slot in RowsOf(t.runs, schedule) && RowsOf(t.runs, schedule)[slot] == RowsOf(db.runs, schedule)[slot]
    decreases |stmts|
  {
    if stmts != [] {
      RowsNeverChange(Done(db, stmts[0]), stmts[1..], t, schedule, slot);
    }
  }

  lemma {:induction false} RunKeepsJobs(db: Db, stmts: seq<Statement>, t: Db)
    requires SlotsHaveJobs(db) && Happens(db, stmts, t)
    ensures SlotsHaveJobs(t)
    decreases |stmts|
  {
    if stmts != [] {
      StatementKeepsJobs(db, stmts[0]);
      RunKeepsJobs(Done(db, stmts[0]), stmts[1..], t);
    }
  }

  /**
   However the statements of any number of ticks interleave: an enqueued slot names one job, which
   carries the slot's key, no other job carries it, and no other slot names it.
   */
  lemma OneJobPerSlot(db: Db, stmts: seq<Statement>, t: Db, schedule: string, minute: DateTime)
    requires SlotsHaveJobs(db) && Happens(db, stmts, t) && KeysUnique(t.jobs) && IsWholeMinute(minute)
    requires MinuteOf(minute) in RowsOf(t.runs, schedule)
    requires RowsOf(t.runs, schedule)[MinuteOf(minute)].status == Enqueued
    ensures var job := RowsOf(t.runs, schedule)[MinuteOf(minute)].job;
            && job.Some?
            && job.value < |t.jobs| && t.jobs[job.value].idempotencyKey == Some(SlotKey(schedule, minute))
            && (forall k: nat | k < |t.jobs| :: t.jobs[k].idempotencyKey == Some(SlotKey(schedule, minute)) ==>
                  k == job.value)
            && (forall s: string, m: DateTime ::
                  (IsWholeMinute(m) && MinuteOf(m) in RowsOf(t.runs, s)
                   && RowsOf(t.runs, s)[MinuteOf(m)] == Run(Enqueued, job)) ==>
                    s == schedule && m == minute)
  {
    RunKeepsJobs(db, stmts, t);
    var row := RowsOf(t.runs, schedule)[MinuteOf(minute)];
    forall k: nat | k < |t.jobs| && t.jobs[k].idempotencyKey == Some(SlotKey(schedule, minute))
      ensures k == row.job.value
    {
      if k != row.job.value {
        SameKeySameJob(t.jobs, k, row.job.value);
      }
    }
    forall s: string, m: DateTime |
      IsWholeMinute(m) && MinuteOf(m) in RowsOf(t.runs, s) && RowsOf(t.runs, s)[MinuteOf(m)] == Run(Enqueued, row.job)
      ensures s == schedule && m == minute
    {
      SlotsNeverShareJobs(t, s, m, schedule, minute);
    }
  }

  lemma SameKeySameJob(jobs: seq<Job>, i: nat, k: nat)
    requires KeysUnique(jobs) && i < |jobs| && k < |jobs| && jobs[i].idempotencyKey.Some?
    ensures jobs[i].idempotencyKey == jobs[k].idempotencyKey ==> i == k
  {
  }
}
