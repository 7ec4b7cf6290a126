/** Which slots of one schedule are recorded over a whole run of ticks, and as what. */
module SchedulerRuns {
  import opened Options
  import opened JobDb
  import opened Scheduler

  /** A tick at a minute, and the job that its enqueue, if one was due, gave. */
  datatype TickAt = TickAt(minute: int, job: Option<JobId>)

  function RowsAfter(cron: Cron, ticks: seq<TickAt>): map<int, Run> {
    if ticks == [] then map[]
    else
      var last := ticks[|ticks| - 1];
      Ticked(RowsAfter(cron, ticks[..|ticks| - 1]), cron, last.minute, last.job)
  }

  predicate InOrder(ticks: seq<TickAt>) {
    forall i, k :: 0 <= i < k < |ticks| ==> ticks[i].minute <= ticks[k].minute
  }

  /** Some tick at m enqueued the slot's job. */
  ghost predicate Succeeded(cron: Cron, ticks: seq<TickAt>, m: int) {
    cron(m) && exists i :: 0 <= i < |ticks| && ticks[i].minute == m && ticks[i].job.Some?
  }

  /** Some earlier slot was enqueued before. */
  ghost predicate StartedBefore(cron: Cron, ticks: seq<TickAt>, m: int) {
    exists i :: 0 <= i < |ticks| && ticks[i].minute < m && ticks[i].job.Some? && cron(ticks[i].minute)
  }

  /** Tick i is the first one later than m. */
  predicate IsFirstAfter(ticks: seq<TickAt>, m: int, i: int) {
    0 <= i < |ticks| && m < ticks[i].minute && forall k :: 0 <= k < i ==> ticks[k].minute <= m
  }

  /** The first tick after m came within the look-back. */
  ghost predicate NoticedInTime(ticks: seq<TickAt>, m: int) {
    exists i :: IsFirstAfter(ticks, m, i) && ticks[i].minute - m < 24 * 60
  }

  /** A matching slot that no tick enqueued, after the schedule had started. */
  ghost predicate WasDue(cron: Cron, ticks: seq<TickAt>, m: int) {
    cron(m) && !Succeeded(cron, ticks, m) && StartedBefore(cron, ticks, m)
  }

  ghost predicate Exact(cron: Cron, ticks: seq<TickAt>, m: int) {
    var rows := RowsAfter(cron, ticks);
    && (m in rows && rows[m].status == Enqueued <==> Succeeded(cron, ticks, m))
    && (m in rows && rows[m].status == Missed <==> WasDue(cron, ticks, m) && NoticedInTime(ticks, m))
  }

  lemma Unnoticed(ticks: seq<TickAt>, t: TickAt, m: int)
    requires InOrder(ticks + [t])
    ensures NoticedInTime(ticks, m) ==> NoticedInTime(ticks + [t], m)
    ensures NoticedInTime(ticks + [t], m) && !NoticedInTime(ticks, m) ==>
              t.minute - LOOKBACK < m < t.minute && forall k :: 0 <= k < |ticks| ==> ticks[k].minute <= m
    ensures !NoticedInTime(ticks + [t], m) && m < t.minute ==> m <= t.minute - LOOKBACK
  {
    var all := ticks + [t];
    assert forall k :: 0 <= k < |ticks| ==> all[k] == ticks[k];
    if NoticedInTime(ticks, m) {
      var i :| IsFirstAfter(ticks, m, i) && ticks[i].minute - m < LOOKBACK;
      assert IsFirstAfter(all, m, i);
    } else if NoticedInTime(all, m) {
      var i :| IsFirstAfter(all, m, i) && all[i].minute - m < LOOKBACK;
      if i < |ticks| {
        assert IsFirstAfter(ticks, m, i);
      }
    } else if m < t.minute {
      FirstAfterExists(all, m, |ticks|);
      var i :| IsFirstAfter(all, m, i);
      assert all[i].minute <= t.minute;
    }
  }

  lemma {:induction false} FirstAfterExists(ticks: seq<TickAt>, m: int, late: nat)
    requires late < |ticks| && m < ticks[late].minute
    ensures exists i :: IsFirstAfter(ticks, m, i)
    decreases late
  {
    if k: nat :| k < late && m < ticks[k].minute {
      FirstAfterExists(ticks, m, k);
    } else {
      assert IsFirstAfter(ticks, m, late);
    }
  }

  /** Recorded rows lie at or before the last tick, and exist exactly once the schedule has started. */
  ghost predicate RowsBounded(cron: Cron, ticks: seq<TickAt>) {
    var rows := RowsAfter(cron, ticks);
    && (forall m :: m in rows ==> exists i :: 0 <= i < |ticks| && m <= ticks[i].minute)
    && (rows != map[] <==> exists i :: 0 <= i < |ticks| && ticks[i].job.Some? && cron(ticks[i].minute))
  }

  lemma SucceededStep(cron: Cron, ticks: seq<TickAt>, t: TickAt, m: int)
    ensures Succeeded(cron, ticks + [t], m) <==> Succeeded(cron, ticks, m) || (m == t.minute && t.job.Some? && cron(m))
    ensures StartedBefore(cron, ticks + [t], m) <==>
            StartedBefore(cron, ticks, m) || (t.minute < m && t.job.Some? && cron(t.minute))
  {
    var all := ticks + [t];
    assert all[|ticks|] == t;
    assert forall i :: 0 <= i < |ticks| ==> all[i] == ticks[i];
  }

  ghost predicate Recorded(cron: Cron, ticks: seq<TickAt>) {
    RowsBounded(cron, ticks) && forall m :: Exact(cron, ticks, m)
  }

  lemma RowsStep(cron: Cron, ticks: seq<TickAt>, t: TickAt)
    ensures RowsAfter(cron, ticks + [t]) == Ticked(RowsAfter(cron, ticks), cron, t.minute, t.job)
  {
    assert (ticks + [t])[..|ticks|] == ticks;
  }

  /** A row stays what it was. */
  lemma KeepsRow(cron: Cron, ticks: seq<TickAt>, t: TickAt, m: int)
    requires InOrder(ticks + [t]) && Recorded(cron, ticks) && m in RowsAfter(cron, ticks)
    ensures Exact(cron, ticks + [t], m)
  {
    RowsStep(cron, ticks, t);
    assert Exact(cron, ticks, m);
    SucceededStep(cron, ticks, t, m);
    Unnoticed(ticks, t, m);
    if NoticedInTime(ticks, m) {
      var i :| IsFirstAfter(ticks, m, i);
      assert (ticks + [t])[i].minute <= (ticks + [t])[|ticks|].minute;
    }
  }

  lemma StartedBeforeLast(cron: Cron, ticks: seq<TickAt>, last: int, m: int)
    requires Recorded(cron, ticks) && last in RowsAfter(cron, ticks) && last < m
    ensures StartedBefore(cron, ticks, m)
  {
    assert Exact(cron, ticks, last);
  }

  /** A slot the tick fills was due and is noticed in time. */
  lemma FillsOnlyDue(cron: Cron, ticks: seq<TickAt>, t: TickAt, m: int)
    requires InOrder(ticks + [t]) && Recorded(cron, ticks) && m !in RowsAfter(cron, ticks)
    requires m in FilledSinceLast(RowsAfter(cron, ticks), cron, t.minute)
    ensures Exact(cron, ticks + [t], m)
  {
    var rows := RowsAfter(cron, ticks);
    RowsStep(cron, ticks, t);
    assert Exact(cron, ticks, m);
    SucceededStep(cron, ticks, t, m);
    Unnoticed(ticks, t, m);
    StartedBeforeLast(cron, ticks, LastScheduledFor(rows).value, m);
  }

  /** A due slot that this tick is the first to notice in time is one it fills. */
  lemma FillsAllDue(cron: Cron, ticks: seq<TickAt>, t: TickAt, m: int)
    requires InOrder(ticks + [t]) && Recorded(cron, ticks) && m !in RowsAfter(cron, ticks)
    requires WasDue(cron, ticks + [t], m) && NoticedInTime(ticks + [t], m)
    ensures m in FilledSinceLast(RowsAfter(cron, ticks), cron, t.minute)
  {
    var rows := RowsAfter(cron, ticks);
    assert Exact(cron, ticks, m);
    SucceededStep(cron, ticks, t, m);
    Unnoticed(ticks, t, m);
    NoticedByLast(ticks, t, m);
    var last := LastScheduledFor(rows).value;
    var i :| 0 <= i < |ticks| && last <= ticks[i].minute;
    assert last != m;
  }

  lemma NoticedByLast(ticks: seq<TickAt>, t: TickAt, m: int)
    requires InOrder(ticks + [t]) && NoticedInTime(ticks + [t], m)
    ensures m < t.minute
  {
    var all := ticks + [t];
    var i :| IsFirstAfter(all, m, i);
    assert all[i].minute <= all[|ticks|].minute;
  }

  lemma StepExactAt(cron: Cron, ticks: seq<TickAt>, t: TickAt, m: int)
    requires InOrder(ticks + [t]) && Recorded(cron, ticks)
    ensures Exact(cron, ticks + [t], m)
  {
    var rows := RowsAfter(cron, ticks);
    if m in rows {
      KeepsRow(cron, ticks, t, m);
    } else if m in FilledSinceLast(rows, cron, t.minute) {
      FillsOnlyDue(cron, ticks, t, m);
    } else {
      RowsStep(cron, ticks, t);
      assert Exact(cron, ticks, m);
      SucceededStep(cron, ticks, t, m);
      if WasDue(cron, ticks + [t], m) && NoticedInTime(ticks + [t], m) {
        FillsAllDue(cron, ticks, t, m);
      }
    }
  }

  lemma StepBounded(cron: Cron, ticks: seq<TickAt>, t: TickAt)
    requires InOrder(ticks + [t]) && Recorded(cron, ticks)
    ensures RowsBounded(cron, ticks + [t])
  {
    var all := ticks + [t];
    RowsStep(cron, ticks, t);
    assert all[|ticks|] == t && forall i :: 0 <= i < |ticks| ==> all[i] == ticks[i];
    var rows, after := RowsAfter(cron, ticks), RowsAfter(cron, all);
    forall m | m in after ensures exists i :: 0 <= i < |all| && m <= all[i].minute {
      if m in rows {
        var i :| 0 <= i < |ticks| && m <= ticks[i].minute;
        assert m <= all[i].minute;
      } else {
        assert m <= all[|ticks|].minute;
      }
    }
    if rows == map[] {
      assert FilledSinceLast(rows, cron, t.minute) == rows;
    } else {
      assert LastScheduledFor(rows).value in after;
    }
  }

  /**
   Exactly which slots are recorded: a slot is enqueued when one of its ticks enqueued it, and
   missed when it matches, was not enqueued, comes after the schedule's first slot, and the
   first tick after it comes less than 24 hours later. No other slot has a row.
   */
  lemma {:induction false} RecordedExactly(cron: Cron, ticks: seq<TickAt>)
    requires InOrder(ticks)
    ensures Recorded(cron, ticks)
  {
    if ticks != [] {
      var n := |ticks| - 1;
      assert ticks == ticks[..n] + [ticks[n]];
      RecordedExactly(cron, ticks[..n]);
      StepBounded(cron, ticks[..n], ticks[n]);
      forall m ensures Exact(cron, ticks, m) {
        StepExactAt(cron, ticks[..n], ticks[n], m);
      }
    }
  }

  predicate SoonAfter(ticks: seq<TickAt>, k: int) {
    0 < k < |ticks| ==> ticks[k].minute - ticks[k - 1].minute < 24 * 60
  }

  lemma NoticedBetweenTicks(ticks: seq<TickAt>, m: int, early: nat)
    requires InOrder(ticks) && forall k :: SoonAfter(ticks, k)
    requires early < |ticks| && ticks[early].minute <= m < ticks[|ticks| - 1].minute
    ensures NoticedInTime(ticks, m)
  {
    FirstAfterExists(ticks, m, |ticks| - 1);
    var i :| IsFirstAfter(ticks, m, i);
    assert SoonAfter(ticks, i);
    assert ticks[0].minute <= ticks[early].minute;
  }

  /**
   While ticks are less than 24 hours apart, every matching slot from the first enqueued one
   up to the latest tick has its row, enqueued or missed and never both.
   */
  lemma CompleteWhileTicking(cron: Cron, ticks: seq<TickAt>, m: int, first: int)
    requires InOrder(ticks) && forall k :: SoonAfter(ticks, k)
    requires Succeeded(cron, ticks, first) && cron(m)
    requires ticks != [] && first <= m < ticks[|ticks| - 1].minute
    ensures m in RowsAfter(cron, ticks)
    ensures RowsAfter(cron, ticks)[m].status == if Succeeded(cron, ticks, m) then Enqueued else Missed
  {
    RecordedExactly(cron, ticks);
    assert Exact(cron, ticks, m);
    var early :| 0 <= early < |ticks| && ticks[early].minute == first && ticks[early].job.Some?;
    NoticedBetweenTicks(ticks, m, early);
    if !Succeeded(cron, ticks, m) {
      assert StartedBefore(cron, ticks, m);
    }
  }

  lemma NoticedLate(ticks: seq<TickAt>, i: nat, k: int)
    requires InOrder(ticks) && 0 < i < |ticks| && !SoonAfter(ticks, i)
    requires IsFirstAfter(ticks, ticks[i - 1].minute, k)
    ensures ticks[k].minute - ticks[i - 1].minute >= LOOKBACK
  {
    assert forall j :: 0 <= j < i ==> ticks[j].minute <= ticks[i - 1].minute;
    assert forall j :: i <= j < |ticks| ==> ticks[i].minute <= ticks[j].minute;
  }

  /** The bound is sharp: a slot whose enqueue failed is lost if the next tick is 24 hours later. */
  lemma LostAfterADay(cron: Cron, ticks: seq<TickAt>, i: nat)
    requires InOrder(ticks) && 0 < i < |ticks| && !SoonAfter(ticks, i)
    requires !Succeeded(cron, ticks, ticks[i - 1].minute)
    ensures ticks[i - 1].minute !in RowsAfter(cron, ticks)
  {
    RecordedExactly(cron, ticks);
    var m := ticks[i - 1].minute;
    assert Exact(cron, ticks, m);
    if k :| IsFirstAfter(ticks, m, k) && ticks[k].minute - m < LOOKBACK {
      NoticedLate(ticks, i, k);
    }
  }
}
