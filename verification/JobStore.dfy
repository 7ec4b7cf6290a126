/** The store: a connection whose methods change rows in place, one SQL statement at a time. */
module JobStore {
  import opened Options
  import opened Transitions
  import opened JobDb

  class Store {
    var jobs: seq<Job>
    var events: seq<Event>
    var attempts: seq<Attempt>
    var runs: map<string, map<int, Run>>
    var inTransaction: bool
    var saved: Db  // the tables as BEGIN found them; meaningful while inTransaction

    function Contents(): Db
      reads this
    {
      Db(jobs, events, attempts, runs)
    }

    constructor ()
      ensures Contents() == Db([], [], [], map[]) && !inTransaction
    {
      jobs, events, attempts, runs, inTransaction := [], [], [], map[], false;
      saved := Db([], [], [], map[]);
    }

    // ---- transactions

    method Begin()
      requires !inTransaction
      modifies this
      ensures inTransaction && saved == old(Contents()) && Contents() == old(Contents())
    {
      saved := Contents();
      inTransaction := true;
    }

    method Commit()
      requires inTransaction
      modifies this
      ensures !inTransaction && Contents() == old(Contents())
    {
      inTransaction := false;
    }

    method Rollback()
      requires inTransaction
      modifies this
      ensures !inTransaction && Contents() == old(saved)
    {
      jobs, events, attempts, runs := saved.jobs, saved.events, saved.attempts, saved.runs;
      inTransaction := false;
    }

    // ---- claiming and leases

    /** One UPDATE ... RETURNING: take the first claimable row, or report that there is none. */
    method ClaimJob(worker: string, lease: int, now: Instant) returns (claimed: Option<JobId>)
      modifies this`jobs
      ensures claimed.None? <==> forall k :: 0 <= k < |old(jobs)| ==> !Claimable(old(jobs)[k], now)
      ensures claimed.None? ==> jobs == old(jobs)
      ensures claimed.Some? ==>
                && IsNextClaim(old(jobs), claimed.value, now)
                && jobs == old(jobs)[claimed.value := ClaimedRow(old(jobs)[claimed.value], worker, lease, now)]
      ensures claimed.Some? ==>
                var was, row := old(jobs)[claimed.value], jobs[claimed.value];
                && (if was.status == Running then was.leaseUntil.Some? && was.leaseUntil.value < now
                    else was.status in {Pending, Approved}
                         && (was.nextEligibleAt.Some? ==> was.nextEligibleAt.value <= now))
                && row.status == Running && row.workerId == Some(worker) && row.leaseUntil == Some(now + lease)
                && row.heartbeatAt == Some(now) && row.attempts == was.attempts + 1
                && row.startedAt == Some(if was.startedAt.Some? then was.startedAt.value else now)
                && row.provider == was.provider && row.role == was.role && row.maxRetries == was.maxRetries
      ensures forall k :: 0 <= k < |old(jobs)| && old(jobs)[k].status in {Pending, Approved}
                          && old(jobs)[k].nextEligibleAt.None? ==>
                && claimed.Some?
                && old(jobs)[k].priority <= old(jobs)[claimed.value].priority
                && (old(jobs)[k].priority == old(jobs)[claimed.value].priority ==>
                      old(jobs)[claimed.value].createdAt <= old(jobs)[k].createdAt)
      ensures forall k :: 0 <= k < |old(jobs)| && old(jobs)[k].status == Running
                          && old(jobs)[k].leaseUntil.Some? && old(jobs)[k].leaseUntil.value < now ==>
                && claimed.Some? && old(jobs)[k].priority <= old(jobs)[claimed.value].priority
    {
      if k: nat :| k < |jobs| && Claimable(jobs[k], now) {
        SomeNextClaim(jobs, k, now);
        var best: nat :| best < |jobs| && IsNextClaim(jobs, best, now);
        jobs := jobs[best := ClaimedRow(jobs[best], worker, lease, now)];
        claimed := Some(best);
      } else {
        claimed := None;
      }
    }

    method RenewLease(id: JobId, worker: string, lease: int, now: Instant)
      modifies this`jobs
      ensures jobs == if id < |old(jobs)| then old(jobs)[id := RenewedRow(old(jobs)[id], worker, lease, now)]
                      else old(jobs)
      ensures id < |old(jobs)| ==>
                var was := old(jobs)[id];
                jobs[id] == if was.workerId == Some(worker) && (was.status == Running || was.status == Cancelling)
                            then was.(leaseUntil := Some(now + lease), heartbeatAt := Some(now)) else was
    {
      if id < |jobs| && jobs[id].workerId == Some(worker) && jobs[id].status in {Running, Cancelling} {
        jobs := jobs[id := jobs[id].(leaseUntil := Some(now + lease), heartbeatAt := Some(now))];
      }
    }

    // ---- the guarded mutators: a read, a legality check, then a guarded UPDATE

    /** The read and the check; false stands for IllegalTransitionError. */
    method CheckTransition(id: JobId, target: Status) returns (ok: bool, cur: Status)
      ensures ok <==> id < |jobs| && (jobs[id].status == target || IsLegal(jobs[id].status, target))
      ensures ok ==> cur == jobs[id].status
    {
      if id >= |jobs| {
        return false, target;
      }
      cur := jobs[id].status;
      ok := cur == target || IsLegal(cur, target);
    }

    method RecordJobEvent(id: JobId, from: Status, to: Status, now: Instant)
      modifies this`events
      ensures events == old(events) + [Event(id, from, to, now)]
    {
      events := events + [Event(id, from, to, now)];
    }

    method FinishUpdate(id: JobId, cur: Status, target: Status, error: Option<string>,
                        output: Option<string>, now: Instant)
      modifies this`jobs, this`events
      ensures Contents() == Write(old(Contents()), PendingWrite(id, cur, Finish(target, error, output)), now)
      ensures if id < |old(jobs)| && old(jobs)[id].status in {Running, Cancelling} then
                && jobs == old(jobs)[id := jobs[id]] && jobs[id].status == target && jobs[id].errorType == error
                && jobs[id].outputPath == output && jobs[id].finishedAt == Some(now)
                && jobs[id].workerId == None && jobs[id].leaseUntil == None
                && events == old(events) + [Event(id, cur, target, now)]
              else jobs == old(jobs) && events == old(events)
    {
      if id < |jobs| && jobs[id].status in {Running, Cancelling} {
        jobs := jobs[id := jobs[id].(status := target, errorType := error, outputPath := output,
                                     finishedAt := Some(now), workerId := None, leaseUntil := None)];
        RecordJobEvent(id, cur, target, now);
      }
    }

    method RequeueUpdate(id: JobId, cur: Status, provider: Option<string>,
                         eligibleAt: Option<Instant>, now: Instant)
      modifies this`jobs, this`events
      ensures Contents() == Write(old(Contents()), PendingWrite(id, cur, Requeue(provider, eligibleAt)), now)
      ensures if id < |old(jobs)| && old(jobs)[id].status in {Failed, Dead, Cancelled} then
                && jobs == old(jobs)[id := jobs[id]] && jobs[id].status == Pending && jobs[id].errorType == None
                && jobs[id].finishedAt == None && jobs[id].workerId == None && jobs[id].leaseUntil == None
                && jobs[id].nextEligibleAt == eligibleAt
                && jobs[id].provider == (if provider.Some? then provider.value else old(jobs)[id].provider)
                && events == old(events) + [Event(id, cur, Pending, now)]
              else jobs == old(jobs) && events == old(events)
    {
      if id < |jobs| && jobs[id].status in {Failed, Dead, Cancelled} {
        var row := jobs[id].(status := Pending, errorType := None, finishedAt := None,
                             workerId := None, leaseUntil := None, nextEligibleAt := eligibleAt);
        if provider.Some? {
          row := row.(provider := provider.value);
        }
        jobs := jobs[id := row];
        RecordJobEvent(id, cur, Pending, now);
      }
    }

    method MarkDeadUpdate(id: JobId, cur: Status, now: Instant)
      modifies this`jobs, this`events
      ensures Contents() == Write(old(Contents()), PendingWrite(id, cur, JobDb.MarkDead), now)
      ensures if id < |old(jobs)| && old(jobs)[id].status == Failed then
                && jobs == old(jobs)[id := old(jobs)[id].(status := Dead)]
                && events == old(events) + [Event(id, cur, Dead, now)]
              else jobs == old(jobs) && events == old(events)
    {
      if id < |jobs| && jobs[id].status == Failed {
        jobs := jobs[id := jobs[id].(status := Dead)];
        RecordJobEvent(id, cur, Dead, now);
      }
    }

    method FinishJob(id: JobId, target: Status, error: Option<string>, output: Option<string>, now: Instant)
      returns (ok: bool)
      modifies this`jobs, this`events
      ensures ok <==> !ReadVerdict(old(jobs), id, Finish(target, error, output)).Illegal?
      ensures Contents() == AtomicCall(old(Contents()), id, Finish(target, error, output), now)
      ensures ok && old(jobs)[id].status != target && old(jobs)[id].status in {Running, Cancelling} ==>
                && jobs[id].status == target && jobs[id].errorType == error && jobs[id].outputPath == output
                && jobs[id].finishedAt == Some(now) && jobs[id].workerId == None && jobs[id].leaseUntil == None
                && jobs[id].attempts == old(jobs)[id].attempts && jobs[id].provider == old(jobs)[id].provider
                && events == old(events) + [Event(id, old(jobs)[id].status, target, now)]
      ensures !(ok && old(jobs)[id].status != target && old(jobs)[id].status in {Running, Cancelling}) ==>
                jobs == old(jobs) && events == old(events)
      ensures ok <==> id < |old(jobs)| && (old(jobs)[id].status == target || IsLegal(old(jobs)[id].status, target))
    {
      var cur;
      ok, cur := CheckTransition(id, target);
      if ok && cur != target {
        FinishUpdate(id, cur, target, error, output, now);
      }
    }

    method RequeueJob(id: JobId, provider: Option<string>, eligibleAt: Option<Instant>, now: Instant)
      returns (ok: bool)
      modifies this`jobs, this`events
      ensures ok <==> !ReadVerdict(old(jobs), id, Requeue(provider, eligibleAt)).Illegal?
      ensures Contents() == AtomicCall(old(Contents()), id, Requeue(provider, eligibleAt), now)
      ensures ok <==> id < |old(jobs)| && old(jobs)[id].status in {Pending, Failed, Dead, Cancelled}
      ensures ok && old(jobs)[id].status != Pending ==>
                && jobs[id].status == Pending && jobs[id].errorType == None && jobs[id].finishedAt == None
                && jobs[id].workerId == None && jobs[id].leaseUntil == None && jobs[id].nextEligibleAt == eligibleAt
                && jobs[id].provider == (if provider.Some? then provider.value else old(jobs)[id].provider)
                && jobs[id].attempts == old(jobs)[id].attempts && jobs[id].outputPath == old(jobs)[id].outputPath
                && events == old(events) + [Event(id, old(jobs)[id].status, Pending, now)]
      ensures !ok || old(jobs)[id].status == Pending ==> jobs == old(jobs) && events == old(events)
    {
      var cur;
      ok, cur := CheckTransition(id, Pending);
      if ok && cur != Pending {
        RequeueUpdate(id, cur, provider, eligibleAt, now);
      }
    }

    method MarkDead(id: JobId, now: Instant) returns (ok: bool)
      modifies this`jobs, this`events
      ensures ok <==> !ReadVerdict(old(jobs), id, JobDb.MarkDead).Illegal?
      ensures Contents() == AtomicCall(old(Contents()), id, JobDb.MarkDead, now)
      ensures ok <==> id < |old(jobs)| && old(jobs)[id].status in {Failed, Dead}
      ensures ok && old(jobs)[id].status == Failed ==>
                && jobs[id] == old(jobs)[id].(status := Dead)
                && events == old(events) + [Event(id, Failed, Dead, now)]
      ensures !ok || old(jobs)[id].status == Dead ==> jobs == old(jobs) && events == old(events)
    {
      var cur;
      ok, cur := CheckTransition(id, Dead);
      if ok && cur != Dead {
        MarkDeadUpdate(id, cur, now);
      }
    }

    // ---- cancel, approve, reject

    method RequestCancel(id: JobId, now: Instant) returns (r: Option<Status>)
      modifies this`jobs
      ensures r == if id < |jobs| then Some(jobs[id].status) else None
      ensures jobs == if id < |old(jobs)| then old(jobs)[id := CancelledRow(old(jobs)[id], now)] else old(jobs)
      ensures id < |old(jobs)| && old(jobs)[id].status in {Pending, WaitingApproval, Approved} ==>
                && jobs[id].status == Cancelled && jobs[id].finishedAt == Some(now)
                && jobs[id].workerId == None && jobs[id].leaseUntil == None
      ensures id < |old(jobs)| && old(jobs)[id].status == Running ==>
                jobs[id] == old(jobs)[id].(status := Cancelling)
      ensures id < |old(jobs)| && old(jobs)[id].status in {Cancelling, Done, Failed, Dead, Cancelled, Rejected} ==>
                jobs == old(jobs)
    {
      if id >= |jobs| {
        return None;
      }
      var status := jobs[id].status;
      if status in {Pending, WaitingApproval, Approved} {
        jobs := jobs[id := jobs[id].(status := Cancelled, finishedAt := Some(now),
                                     workerId := None, leaseUntil := None)];
        return Some(Cancelled);
      }
      if status == Running {
        jobs := jobs[id := jobs[id].(status := Cancelling)];
        return Some(Cancelling);
      }
      return Some(status);
    }

    method ApproveJob(id: JobId) returns (r: Option<Status>)
      modifies this`jobs
      ensures r == if id < |jobs| then Some(jobs[id].status) else None
      ensures jobs == if id < |old(jobs)| then old(jobs)[id := ApprovedRow(old(jobs)[id])] else old(jobs)
      ensures id < |old(jobs)| ==>
                jobs[id] == old(jobs)[id].(status := if old(jobs)[id].status == WaitingApproval then Approved
                                                     else old(jobs)[id].status)
    {
      if id < |jobs| && jobs[id].status == WaitingApproval {
        jobs := jobs[id := jobs[id].(status := Approved)];
      }
      r := if id < |jobs| then Some(jobs[id].status) else None;
    }

    method RejectJob(id: JobId, now: Instant) returns (r: Option<Status>)
      modifies this`jobs
      ensures r == if id < |jobs| then Some(jobs[id].status) else None
      ensures jobs == if id < |old(jobs)| then old(jobs)[id := RejectedRow(old(jobs)[id], now)] else old(jobs)
      ensures id < |old(jobs)| ==>
                if old(jobs)[id].status == WaitingApproval
                then jobs[id] == old(jobs)[id].(status := Rejected, finishedAt := Some(now))
                else jobs[id] == old(jobs)[id]
    {
      if id < |jobs| && jobs[id].status == WaitingApproval {
        jobs := jobs[id := jobs[id].(status := Rejected, finishedAt := Some(now))];
      }
      r := if id < |jobs| then Some(jobs[id].status) else None;
    }

    // ---- inserts

    /** INSERT INTO jobs; false stands for the IntegrityError of the unique key index. */
    method InsertJob(row: Job) returns (ok: bool)
      modifies this`jobs
      ensures ok <==> !KeyTaken(old(jobs), row.idempotencyKey)
      ensures ok <==> (row.idempotencyKey.Some? ==>
                         forall k :: 0 <= k < |old(jobs)| ==> old(jobs)[k].idempotencyKey != row.idempotencyKey)
      ensures jobs == if ok then old(jobs) + [row] else old(jobs)
    {
      ok := !KeyTaken(jobs, row.idempotencyKey);
      if ok {
        jobs := jobs + [row];
      }
    }

    method RecordAttempt(attempt: Attempt)
      modifies this`attempts
      ensures attempts == old(attempts) + [attempt]
    {
      attempts := attempts + [attempt];
    }

    // ---- schedule runs

    /** INSERT INTO schedule_runs; false stands for the unique index rejecting the row. */
    method RecordScheduleRun(schedule: string, minute: int, run: Run) returns (ok: bool)
      modifies this`runs
      ensures ok <==> minute !in RowsOf(old(runs), schedule)
      ensures runs == if ok then old(runs)[schedule := RowsOf(old(runs), schedule)[minute := run]] else old(runs)
    {
      ok := minute !in RowsOf(runs, schedule);
      if ok {
        runs := runs[schedule := RowsOf(runs, schedule)[minute := run]];
      }
    }

    method SetScheduleRunJobId(schedule: string, minute: int, job: JobId)
      modifies this`runs
      ensures var rows := RowsOf(old(runs), schedule);
              runs == if minute in rows
                      then old(runs)[schedule := rows[minute := rows[minute].(job := Some(job))]]
                      else old(runs)
    {
      if minute in RowsOf(runs, schedule) {
        runs := runs[schedule := RowsOf(runs, schedule)[minute := RowsOf(runs, schedule)[minute].(job := Some(job))]];
      }
    }
  }
}
