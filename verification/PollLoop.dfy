/**
 The loop that watches a running process: heartbeat, cancel, timeout, sleep.

 The process, the clock and the cancel flag are not part of the model: a Poll holds what one
 round of the loop finds. A run is a sequence of polls.
 */
module PollLoop {
  import opened Options
  import opened Arithmetic
  import opened Transitions
  import opened JobDb
  import Leases

  datatype Poll = Poll(
    exited: bool,       // proc.poll() is not None
    checkAt: Instant,   // the clock when the heartbeat is considered
    beatAt: Instant,    // the clock after the heartbeat, if there is one
    cancelled: bool,    // cancel_check()
    lateAt: Instant)    // the clock when the deadline is considered

  datatype Outcome = ProcessDone | ProcessCancelled | ProcessTimedOut

  predicate Stops(p: Poll, deadline: Instant) {
    p.exited || p.cancelled || p.lateAt > deadline
  }

  /** last_beat when poll n begins. */
  function LastBeat(polls: seq<Poll>, start: Instant, interval: int, n: nat): Instant
    requires n <= |polls|
    decreases n, 0
  {
    if n == 0 then start
    else if BeatDue(polls, start, interval, n - 1) then polls[n - 1].beatAt
    else LastBeat(polls, start, interval, n - 1)
  }

  predicate BeatDue(polls: seq<Poll>, start: Instant, interval: int, n: nat)
    requires n < |polls|
    decreases n, 1
  {
    polls[n].checkAt - LastBeat(polls, start, interval, n) >= interval
  }

  /** How many of the first n polls beat. */
  function Beats(polls: seq<Poll>, start: Instant, interval: int, n: nat): nat
    requires n <= |polls|
  {
    if n == 0 then 0
    else Beats(polls, start, interval, n - 1) + if BeatDue(polls, start, interval, n - 1) then 1 else 0
  }

  /**
   The first poll that finds a reason to stop decides: the end of the process before a cancel,
   a cancel before a timeout. `ending` is None when none of the given polls stops. `beats`
   holds the polls that called the heartbeat; the stopping poll still does, unless the process
   has ended.
   */
  method RunWithTerminate(start: Instant, deadline: Instant, interval: int, heartbeat: bool, polls: seq<Poll>)
    returns (ending: Option<Outcome>, last: nat, beats: seq<nat>)
    ensures last <= |polls|
    ensures forall i :: 0 <= i < last ==> !Stops(polls[i], deadline)
    ensures ending.None? <==> last == |polls|
    ensures ending.Some? ==> Stops(polls[last], deadline)
    ensures ending == Some(ProcessDone) <==> last < |polls| && polls[last].exited
    ensures ending == Some(ProcessCancelled) <==> last < |polls| && !polls[last].exited && polls[last].cancelled
    ensures ending == Some(ProcessTimedOut) ==> polls[last].lateAt > deadline
    ensures forall n: nat :: n in beats <==>
              heartbeat && n < |polls| && BeatDue(polls, start, interval, n)
              && (n < last || (n == last && !polls[n].exited))
    ensures forall i, j :: 0 <= i < j < |beats| ==> beats[i] < beats[j]
  {
    var lastBeat := start;
    ending, last, beats := None, 0, [];
    while last < |polls| && !polls[last].exited
      invariant last <= |polls| && ending.None?
      invariant forall i :: 0 <= i < last ==> !Stops(polls[i], deadline)
      invariant heartbeat ==> lastBeat == LastBeat(polls, start, interval, last)
      invariant forall n: nat :: n in beats <==> heartbeat && n < last && BeatDue(polls, start, interval, n)
      invariant forall i, j :: 0 <= i < j < |beats| ==> beats[i] < beats[j]
    {
      var p := polls[last];
      ghost var before := beats;
      if heartbeat && p.checkAt - lastBeat >= interval {
        assert BeatDue(polls, start, interval, last);
        forall i | 0 <= i < |beats| ensures beats[i] < last {
          assert beats[i] in beats;
        }
        beats := beats + [last];
        lastBeat := p.beatAt;
      }
      assert forall n: nat :: n in beats <==>
          n in before || (n == last && heartbeat && BeatDue(polls, start, interval, n));
      if p.cancelled {
        ending := Some(ProcessCancelled);
        return;
      }
      if p.lateAt > deadline {
        ending := Some(ProcessTimedOut);
        return;
      }
      last := last + 1;
    }
    if last < |polls| {
      ending := Some(ProcessDone);
    }
  }

  // ---- timing

  /** The clock never goes back, and one poll follows another within `period`. */
  ghost predicate Steady(polls: seq<Poll>, start: Instant, period: int) {
    && (forall i :: 0 <= i < |polls| ==> polls[i].checkAt <= polls[i].beatAt <= polls[i].lateAt)
    && (forall i, j :: 0 <= i < j < |polls| ==> polls[i].lateAt <= polls[j].checkAt)
    && (forall i, j :: 0 <= i < j < |polls| && j == i + 1 ==> polls[j].checkAt <= polls[i].checkAt + period)
    && (|polls| > 0 ==> start <= polls[0].checkAt <= start + period)
  }

  /** Heartbeats keep their distance: n polls beat at most once per interval. */
  lemma {:induction false} BeatsAreSpaced(polls: seq<Poll>, start: Instant, interval: int, period: int, n: nat)
    requires Steady(polls, start, period) && n <= |polls| && interval >= 0
    ensures Beats(polls, start, interval, n) * interval <= LastBeat(polls, start, interval, n) - start
    ensures n > 0 ==> LastBeat(polls, start, interval, n) <= polls[n - 1].beatAt
  {
    if n > 0 {
      BeatsAreSpaced(polls, start, interval, period, n - 1);
      Distribute(Beats(polls, start, interval, n - 1), 1, interval);
      assert n > 1 ==> polls[n - 2].lateAt <= polls[n - 1].checkAt;
    }
  }

  /** And they come: at no poll is the last one older than the interval and one period. */
  lemma BeatsAreNeverLate(polls: seq<Poll>, start: Instant, interval: int, period: int, n: nat)
    requires Steady(polls, start, period) && n < |polls| && interval >= 1
    ensures polls[n].checkAt - LastBeat(polls, start, interval, n) <= interval - 1 + period
  {
    if n > 0 {
      assert polls[n].checkAt <= polls[n - 1].checkAt + period;
    }
  }

  /** What is timed out was given its whole timeout, and at most one more round. */
  lemma TimeoutIsPrompt(polls: seq<Poll>, start: Instant, deadline: Instant, period: int, n: nat)
    requires Steady(polls, start, period) && n < |polls| && start <= deadline
    requires forall i :: 0 <= i < n ==> !Stops(polls[i], deadline)
    ensures polls[n].checkAt <= deadline + period
  {
    if n > 0 {
      assert polls[n].checkAt <= polls[n - 1].checkAt + period;
    }
  }

  // ---- the loop is one of the executions the lease argument is about

  /** The only execution, between poll n - 1 and poll n. */
  ghost predicate Asleep(c: Leases.Timing, s: Leases.System, polls: seq<Poll>, start: Instant, n: nat)
    requires n <= |polls|
  {
    && |s.execs| == 1 && s.execs[0].id < |s.jobs|
    && s.execs[0].stage == Leases.Polling(LastBeat(polls, start, c.interval, n),
                                          (if n == 0 then start else polls[n - 1].checkAt) + c.period)
    && (if n == 0 then s.now == start else polls[n - 1].checkAt <= s.now <= polls[n - 1].beatAt)
  }

  lemma OneRound(c: Leases.Timing, s: Leases.System, polls: seq<Poll>, start: Instant, n: nat)
    returns (t: Leases.System)
    requires Leases.Sane(c) && Leases.Reachable(c, s) && n < |polls| && Asleep(c, s, polls, start, n)
    requires Steady(polls, start, c.period) && polls[n].beatAt <= polls[n].checkAt + c.renewal
    ensures Leases.Reachable(c, t) && Asleep(c, t, polls, start, n + 1) && |t.jobs| == |s.jobs|
    ensures t.execs[0].worker == s.execs[0].worker && t.execs[0].id == s.execs[0].id
    ensures t.execs[0].leased == if BeatDue(polls, start, c.interval, n) then polls[n].beatAt else s.execs[0].leased
  {
    Leases.ReachOne(c, s, Leases.Tick(polls[n].checkAt));
    var awake := Leases.Apply(c, s, Leases.Tick(polls[n].checkAt));
    Leases.ReachOne(c, awake, Leases.Poll(0));
    t := Leases.Apply(c, awake, Leases.Poll(0));
    if BeatDue(polls, start, c.interval, n) {
      Leases.ReachOne(c, t, Leases.Tick(polls[n].beatAt));
      t := Leases.Apply(c, t, Leases.Tick(polls[n].beatAt));
      Leases.ReachOne(c, t, Leases.Renew(0));
      t := Leases.Apply(c, t, Leases.Renew(0));
      Leases.ReachOne(c, t, Leases.Stamp(0));
      t := Leases.Apply(c, t, Leases.Stamp(0));
    }
  }

  /** Every run of the loop is a run of the lease model, heartbeat for heartbeat. */
  lemma {:induction false} LoopRunsUnderLease(
      c: Leases.Timing, s: Leases.System, polls: seq<Poll>, start: Instant, n: nat)
    returns (t: Leases.System)
    requires Leases.Sane(c) && Leases.Reachable(c, s) && n <= |polls| && Asleep(c, s, polls, start, 0)
    requires Steady(polls, start, c.period)
    requires forall i :: 0 <= i < |polls| ==> polls[i].beatAt <= polls[i].checkAt + c.renewal
    ensures Leases.Reachable(c, t) && Asleep(c, t, polls, start, n)
    ensures t.execs[0].worker == s.execs[0].worker && t.execs[0].id == s.execs[0].id
  {
    t := s;
    if n > 0 {
      t := LoopRunsUnderLease(c, s, polls, start, n - 1);
      t := OneRound(c, t, polls, start, n - 1);
    }
  }

  /** At every poll of the loop the row still belongs to its worker, under a lease that has not run out. */
  lemma LeaseHoldsAtEveryPoll(c: Leases.Timing, s: Leases.System, polls: seq<Poll>, start: Instant, n: nat)
    returns (t: Leases.System)
    requires Leases.LeaseSuffices(c) && Leases.Reachable(c, s) && n < |polls| && Asleep(c, s, polls, start, 0)
    requires Steady(polls, start, c.period)
    requires forall i :: 0 <= i < |polls| ==> polls[i].beatAt <= polls[i].checkAt + c.renewal
    ensures Leases.Reachable(c, t) && Asleep(c, t, polls, start, n)
    ensures s.execs[0].id < |t.jobs|
    ensures t.jobs[s.execs[0].id].workerId == Some(s.execs[0].worker) && IsOwned(t.jobs[s.execs[0].id].status)
    ensures t.jobs[s.execs[0].id].leaseUntil.Some? && polls[n].checkAt <= t.jobs[s.execs[0].id].leaseUntil.value
  {
    t := LoopRunsUnderLease(c, s, polls, start, n);
    var begin: Leases.System, steps: seq<Leases.Step> :| |begin.execs| == 0 && Leases.Leads(c, begin, steps, t);
    Leases.RunKeepsInv(c, begin, steps, t);
    assert Leases.ExecOk(c, t, t.execs[0]);
    Leases.DueBeforeExpiry(c, t.execs[0]);
    assert n > 0 ==> polls[n].checkAt <= polls[n - 1].checkAt + c.period;
  }
}
