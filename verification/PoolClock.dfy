/**
 The thread pool against the clock: how long a claimed job waits for its group's semaphore.

 No heartbeat renews the lease of a job that waits, so this wait is part of the claim-to-loop
 delay of module Leases. It grows with the number of jobs served since the claim, whatever the
 lease.
 */
module PoolClock {
  import opened Options
  import opened Arithmetic
  import opened Counting
  import opened Pool
  import Leases

  /**
   The pool, the clock, and a time for each task: when it was claimed, and from the moment it has
   its permit on, when it got it.
   */
  datatype Timed = Timed(pool: State, now: int, began: seq<int>)

  /** The clock moves on to `at`, and the step happens; an execution lasts at least `run`. */
  datatype Event = Event(at: int, step: Step)

  ghost predicate Happens(providers: Providers, run: int, s: Timed, e: Event) {
    && s.now <= e.at && Pool.Enabled(providers, s.pool, e.step)
    && (e.step.End? ==> e.step.task < |s.began| && e.at - s.began[e.step.task] >= run)
    && (e.step.Acquire? ==> e.step.task < |s.began|)
  }

  ghost function After(providers: Providers, run: int, s: Timed, e: Event): Timed
    requires Happens(providers, run, s, e)
  {
    Timed(Pool.Apply(providers, s.pool, e.step), e.at,
          match e.step
          case Submit(_, _) => s.began + [e.at]
          case Acquire(i) => s.began[i := e.at]
          case _ => s.began)
  }

  ghost predicate Passes(providers: Providers, run: int, s: Timed, events: seq<Event>, t: Timed)
    decreases |events|
  {
    if events == [] then s == t
    else
      && Happens(providers, run, s, events[0])
      && Passes(providers, run, After(providers, run, s, events[0]), events[1..], t)
  }

  // ---- the time a group's permits have been in use since a claim

  function Ended(g: string): Task -> bool {
    (t: Task) => t.phase == Finished && t.group == Some(g)
  }

  /** Task n had no permit yet when the tasks were `before`. */
  predicate Later(before: seq<Task>, n: nat) {
    n < |before| ==> before[n].phase in {Queued, Waiting}
  }

  function Use(t: Task, later: bool, began: int, g: string, run: int, now: int): int {
    if later && Ended(g)(t) then run else if later && Holds(g)(t) then now - began else 0
  }

  /** At least this long: `run` for each later task that ended, and what the later holders have had. */
  function Used(tasks: seq<Task>, began: seq<int>, before: seq<Task>, g: string, run: int, now: int): int
    requires |began| == |tasks|
  {
    if tasks == [] then 0
    else
      var n := |tasks| - 1;
      Used(tasks[..n], began[..n], before, g, run, now) + Use(tasks[n], Later(before, n), began[n], g, run, now)
  }

  /** How many later tasks have ended, and how many have got a permit at all. */
  function EndedSince(tasks: seq<Task>, before: seq<Task>, g: string): nat {
    if tasks == [] then 0
    else
      var n := |tasks| - 1;
      EndedSince(tasks[..n], before, g) + if Later(before, n) && Ended(g)(tasks[n]) then 1 else 0
  }

  function ServedSince(tasks: seq<Task>, before: seq<Task>, g: string): nat {
    if tasks == [] then 0
    else
      var n := |tasks| - 1;
      ServedSince(tasks[..n], before, g)
      + if Later(before, n) && (Ended(g)(tasks[n]) || Holds(g)(tasks[n])) then 1 else 0
  }

  lemma UsedAppend(tasks: seq<Task>, began: seq<int>, x: Task, b: int, before: seq<Task>, g: string, run: int, now: int)
    requires |began| == |tasks|
    ensures Used(tasks + [x], began + [b], before, g, run, now) ==
            Used(tasks, began, before, g, run, now) + Use(x, Later(before, |tasks|), b, g, run, now)
  {
    assert (tasks + [x])[..|tasks|] == tasks && (began + [b])[..|tasks|] == began;
  }

  lemma {:induction false} UsedPut(tasks: seq<Task>, began: seq<int>, i: nat, x: Task, b: int, before: seq<Task>,
                                   g: string, run: int, now: int)
    requires |began| == |tasks| && i < |tasks|
    ensures Used(tasks[i := x], began[i := b], before, g, run, now)
            + Use(tasks[i], Later(before, i), began[i], g, run, now)
            == Used(tasks, began, before, g, run, now) + Use(x, Later(before, i), b, g, run, now)
  {
    var n := |tasks| - 1;
    if i < n {
      UsedPut(tasks[..n], began[..n], i, x, b, before, g, run, now);
      assert tasks[i := x][..n] == tasks[..n][i := x] && began[i := b][..n] == began[..n][i := b];
    } else {
      assert tasks[i := x][..n] == tasks[..n] && began[i := b][..n] == began[..n];
    }
  }

  /** While the clock moves by d, each holder uses at most d more. */
  lemma {:induction false} UsedLater(tasks: seq<Task>, began: seq<int>, before: seq<Task>,
                                     g: string, run: int, now: int, d: nat)
    requires |began| == |tasks|
    ensures Used(tasks, began, before, g, run, now + d)
            <= Used(tasks, began, before, g, run, now) + Count(tasks, Holds(g)) * d
  {
    if tasks != [] {
      var n := |tasks| - 1;
      UsedLater(tasks[..n], began[..n], before, g, run, now, d);
      Distribute(Count(tasks[..n], Holds(g)), if Holds(g)(tasks[n]) then 1 else 0, d);
    }
  }

  lemma {:induction false} UsedAtLeast(tasks: seq<Task>, began: seq<int>, before: seq<Task>,
                                       g: string, run: int, now: int)
    requires |began| == |tasks| && forall k :: 0 <= k < |began| ==> began[k] <= now
    ensures Used(tasks, began, before, g, run, now) >= EndedSince(tasks, before, g) * run
  {
    if tasks != [] {
      var n := |tasks| - 1;
      UsedAtLeast(tasks[..n], began[..n], before, g, run, now);
      Distribute(EndedSince(tasks[..n], before, g), if Later(before, n) && Ended(g)(tasks[n]) then 1 else 0, run);
    }
  }

  /** Whoever was served has ended or is holding a permit. */
  lemma {:induction false} ServedEndedOrHold(tasks: seq<Task>, before: seq<Task>, g: string)
    ensures ServedSince(tasks, before, g) <= EndedSince(tasks, before, g) + Count(tasks, Holds(g))
  {
    if tasks != [] {
      ServedEndedOrHold(tasks[..|tasks| - 1], before, g);
    }
  }

  lemma {:induction false} NothingUsedYet(tasks: seq<Task>, began: seq<int>, before: seq<Task>,
                                          g: string, run: int, now: int)
    requires |began| == |tasks| && tasks <= before
    ensures Used(tasks, began, before, g, run, now) == 0
  {
    if tasks != [] {
      NothingUsedYet(tasks[..|tasks| - 1], began[..|tasks| - 1], before, g, run, now);
    }
  }

  // ---- a group of limit L uses at most L permits at a time

  ghost predicate WithinLimit(limits: map<string, int>, before: seq<Task>, g: string, run: int,
                              claimed: int, s: Timed) {
    && g in limits && |s.began| == |s.pool.tasks| && claimed <= s.now
    && (forall k :: 0 <= k < |s.began| ==> s.began[k] <= s.now)
    && Used(s.pool.tasks, s.began, before, g, run, s.now) <= Capacity(limits[g], s.now - claimed)
  }

  /** What `limit` permits can give in that time. */
  function Capacity(limit: int, time: int): int {
    limit * time
  }

  lemma TimePasses(limits: map<string, int>, before: seq<Task>, g: string, run: int, claimed: int, s: Timed, at: int)
    requires WithinLimit(limits, before, g, run, claimed, s) && s.now <= at
    requires Count(s.pool.tasks, Holds(g)) <= limits[g]
    ensures WithinLimit(limits, before, g, run, claimed, s.(now := at))
  {
    var d := at - s.now;
    UsedLater(s.pool.tasks, s.began, before, g, run, s.now, d);
    MulMonotone(d, Count(s.pool.tasks, Holds(g)), limits[g]);
    Distribute(s.now - claimed, d, limits[g]);
  }

  lemma MoveUsesNothing(s: Timed, i: nat, x: Task, b: int, before: seq<Task>, g: string, run: int)
    requires |s.began| == |s.pool.tasks| && i < |s.began|
    requires Use(x, Later(before, i), b, g, run, s.now)
             <= Use(s.pool.tasks[i], Later(before, i), s.began[i], g, run, s.now)
    ensures Used(s.pool.tasks[i := x], s.began[i := b], before, g, run, s.now)
            <= Used(s.pool.tasks, s.began, before, g, run, s.now)
  {
    UsedPut(s.pool.tasks, s.began, i, x, b, before, g, run, s.now);
  }

  /** A step uses nothing by itself, and an execution that ends has had its `run`. */
  lemma StepUsesNothing(providers: Providers, before: seq<Task>, g: string, run: int, s: Timed, e: Event)
    requires |s.began| == |s.pool.tasks| && Happens(providers, run, s, e) && e.at == s.now
    ensures var t := After(providers, run, s, e);
            |t.began| == |t.pool.tasks|
            && Used(t.pool.tasks, t.began, before, g, run, s.now)
               <= Used(s.pool.tasks, s.began, before, g, run, s.now)
  {
    match e.step
    case Submit(provider, group) =>
      UsedAppend(s.pool.tasks, s.began, Task(provider, group, Queued), e.at, before, g, run, s.now);
    case Start(i) =>
      assert s.began[i := s.began[i]] == s.began;
      MoveUsesNothing(s, i, s.pool.tasks[i].(phase := Waiting), s.began[i], before, g, run);
    case Acquire(i) => MoveUsesNothing(s, i, s.pool.tasks[i].(phase := Executing), e.at, before, g, run);
    case End(i) =>
      assert s.began[i := s.began[i]] == s.began;
      MoveUsesNothing(s, i, s.pool.tasks[i].(phase := Finished), s.began[i], before, g, run);
    case _ =>
  }

  lemma StepStaysWithin(providers: Providers, limits: map<string, int>, before: seq<Task>, g: string, run: int,
                        claimed: int, s: Timed, e: Event)
    requires WithinLimit(limits, before, g, run, claimed, s) && Happens(providers, run, s, e) && e.at == s.now
    ensures WithinLimit(limits, before, g, run, claimed, After(providers, run, s, e))
  {
    StepUsesNothing(providers, before, g, run, s, e);
  }

  lemma HoldersWithinLimit(limits: map<string, int>, s: State, g: string)
    requires PermitsOk(limits, s) && g in limits && s.permits[g] >= 0
    ensures Count(s.tasks, Holds(g)) <= limits[g]
  {
  }

  ghost predicate PoolOk(providers: Providers, limits: map<string, int>, s: State) {
    Pool.Inv(providers, limits, s) && forall g :: g in s.permits ==> s.permits[g] >= 0
  }

  lemma StepKeepsPermitsNonNegative(providers: Providers, s: State, step: Step)
    requires Pool.Enabled(providers, s, step) && forall g :: g in s.permits ==> s.permits[g] >= 0
    ensures forall g :: g in Pool.Apply(providers, s, step).permits ==> Pool.Apply(providers, s, step).permits[g] >= 0
  {
  }

  lemma StepKeepsPool(providers: Providers, limits: map<string, int>, s: State, step: Step)
    requires PoolOk(providers, limits, s) && Pool.Enabled(providers, s, step)
    ensures PoolOk(providers, limits, Pool.Apply(providers, s, step))
  {
    StepKeepsPermits(providers, limits, s, step);
    StepKeepsTasks(providers, limits, s, step);
    StepKeepsPermitsNonNegative(providers, s, step);
  }

  lemma {:induction false} RunKeepsPool(providers: Providers, limits: map<string, int>, run: int,
                                        s: Timed, events: seq<Event>, t: Timed)
    requires PoolOk(providers, limits, s.pool) && TimesOk(s) && Passes(providers, run, s, events, t)
    ensures PoolOk(providers, limits, t.pool) && TimesOk(t)
    decreases |events|
  {
    if events != [] {
      StepKeepsPool(providers, limits, s.pool, events[0].step);
      RunKeepsPool(providers, limits, run, After(providers, run, s, events[0]), events[1..], t);
    }
  }

  predicate TimesOk(s: Timed) {
    |s.began| == |s.pool.tasks| && forall k :: 0 <= k < |s.began| ==> s.began[k] <= s.now
  }

  lemma EventStaysWithin(providers: Providers, limits: map<string, int>, before: seq<Task>, g: string, run: int,
                         claimed: int, s: Timed, e: Event)
    requires WithinLimit(limits, before, g, run, claimed, s) && PoolOk(providers, limits, s.pool)
    requires Happens(providers, run, s, e)
    ensures WithinLimit(limits, before, g, run, claimed, After(providers, run, s, e))
    ensures PoolOk(providers, limits, After(providers, run, s, e).pool)
  {
    HoldersWithinLimit(limits, s.pool, g);
    TimePasses(limits, before, g, run, claimed, s, e.at);
    StepStaysWithin(providers, limits, before, g, run, claimed, s.(now := e.at), e);
    StepKeepsPool(providers, limits, s.pool, e.step);
  }

  lemma {:induction false} RunStaysWithin(providers: Providers, limits: map<string, int>, before: seq<Task>, g: string,
                                          run: int, claimed: int, s: Timed, events: seq<Event>, t: Timed)
    requires WithinLimit(limits, before, g, run, claimed, s) && PoolOk(providers, limits, s.pool)
    requires Passes(providers, run, s, events, t)
    ensures WithinLimit(limits, before, g, run, claimed, t) && PoolOk(providers, limits, t.pool)
    decreases |events|
  {
    if events != [] {
      EventStaysWithin(providers, limits, before, g, run, claimed, s, events[0]);
      RunStaysWithin(providers, limits, before, g, run, claimed, After(providers, run, s, events[0]), events[1..], t);
    }
  }

  // ---- the wait is at least as long as those served in it take

  ghost predicate Init(providers: Providers, limits: map<string, int>, s: Timed) {
    && AreLimits(providers, limits) && (forall h :: h in limits ==> limits[h] >= 0)
    && Pool.Init(s.pool, limits) && s.began == []
  }

  /** A pass in which task `i` of group g has been claimed at the end of `first` and gets its permit by e. */
  ghost predicate IsWait(providers: Providers, limits: map<string, int>, g: string, run: int, start: Timed,
                         first: seq<Event>, claimed: Timed, rest: seq<Event>, s: Timed, e: Event) {
    && Init(providers, limits, start)
    && Passes(providers, run, start, first, claimed) && Passes(providers, run, claimed, rest, s)
    && Happens(providers, run, s, e) && e.step.Acquire?
    && s.pool.tasks[e.step.task].group == Some(g) && g in limits
    && |claimed.pool.tasks| == e.step.task + 1 && |claimed.began| == e.step.task + 1
    && claimed.began[e.step.task] == claimed.now
  }

  lemma PermitIsFree(providers: Providers, limits: map<string, int>, s: State, step: Step, g: string)
    requires PermitsOk(limits, s) && Pool.Enabled(providers, s, step) && step.Acquire?
    requires s.tasks[step.task].group == Some(g) && g in limits
    ensures Count(s.tasks, Holds(g)) <= limits[g] - 1
  {
  }

  lemma EndedByNow(providers: Providers, limits: map<string, int>, before: seq<Task>, g: string, run: int,
                   claimed: int, s: Timed, e: Event)
    requires WithinLimit(limits, before, g, run, claimed, s) && PoolOk(providers, limits, s.pool) && run >= 0
    requires Happens(providers, run, s, e) && e.step.Acquire? && s.pool.tasks[e.step.task].group == Some(g)
    ensures EndedSince(s.pool.tasks, before, g) * run <= Capacity(limits[g], e.at - claimed)
    ensures Count(s.pool.tasks, Holds(g)) <= limits[g] - 1
  {
    HoldersWithinLimit(limits, s.pool, g);
    TimePasses(limits, before, g, run, claimed, s, e.at);
    UsedAtLeast(s.pool.tasks, s.began, before, g, run, e.at);
    PermitIsFree(providers, limits, s.pool, e.step, g);
  }

  lemma ClaimStartsClock(limits: map<string, int>, g: string, run: int, s: Timed)
    requires g in limits && TimesOk(s)
    ensures WithinLimit(limits, s.pool.tasks, g, run, s.now, s)
  {
    NothingUsedYet(s.pool.tasks, s.began, s.pool.tasks, g, run, s.now);
    assert Capacity(limits[g], s.now - s.now) == 0;
  }

  /** Time enough for `limit` permits to have seen all but limit - 1 of `served` executions end. */
  predicate IsLong(wait: int, served: int, limit: int, run: int) {
    (served - limit + 1) * run <= Capacity(limit, wait)
  }

  lemma EndedFillTheTime(ended: int, holding: int, served: int, limit: int, run: int, wait: int)
    requires ended * run <= Capacity(limit, wait) && holding <= limit - 1 && served <= ended + holding && run >= 0
    ensures IsLong(wait, served, limit, run)
  {
    MulMonotone(run, served - limit + 1, ended);
  }

  /**
   When a job of a group with limit L gets its permit after n others that were served since it was
   claimed, at least n - L + 1 of those have ended, and the group has had time for them: with
   executions of at least `run` each, L times its wait is at least (n - L + 1) * run.
   */
  lemma PermitComesLate(providers: Providers, limits: map<string, int>, g: string, run: int, start: Timed,
                        first: seq<Event>, claimed: Timed, rest: seq<Event>, s: Timed, e: Event)
    requires IsWait(providers, limits, g, run, start, first, claimed, rest, s, e) && run >= 0
    ensures IsLong(e.at - claimed.now, ServedSince(s.pool.tasks, claimed.pool.tasks, g), limits[g], run)
  {
    ClaimedIsWithin(providers, limits, g, run, start, first, claimed, rest, s);
    ServedByNow(providers, limits, claimed.pool.tasks, g, run, claimed.now, s, e);
  }

  lemma ClaimedIsWithin(providers: Providers, limits: map<string, int>, g: string, run: int, start: Timed,
                        first: seq<Event>, claimed: Timed, rest: seq<Event>, s: Timed)
    requires Init(providers, limits, start) && g in limits
    requires Passes(providers, run, start, first, claimed) && Passes(providers, run, claimed, rest, s)
    ensures WithinLimit(limits, claimed.pool.tasks, g, run, claimed.now, s) && PoolOk(providers, limits, s.pool)
  {
    Pool.InitInv(providers, limits, start.pool);
    RunKeepsPool(providers, limits, run, start, first, claimed);
    ClaimStartsClock(limits, g, run, claimed);
    RunStaysWithin(providers, limits, claimed.pool.tasks, g, run, claimed.now, claimed, rest, s);
  }

  lemma ServedByNow(providers: Providers, limits: map<string, int>, before: seq<Task>, g: string, run: int,
                    claimed: int, s: Timed, e: Event)
    requires WithinLimit(limits, before, g, run, claimed, s) && PoolOk(providers, limits, s.pool) && run >= 0
    requires Happens(providers, run, s, e) && e.step.Acquire? && s.pool.tasks[e.step.task].group == Some(g)
    ensures IsLong(e.at - claimed, ServedSince(s.pool.tasks, before, g), limits[g], run)
  {
    EndedByNow(providers, limits, before, g, run, claimed, s, e);
    ServedEndedOrHold(s.pool.tasks, before, g);
    EndedFillTheTime(EndedSince(s.pool.tasks, before, g), Count(s.pool.tasks, Holds(g)),
                     ServedSince(s.pool.tasks, before, g), limits[g], run, e.at - claimed);
  }

  // ---- and it can be as long as you like

  lemma {:induction false} PassesThen(providers: Providers, run: int, s: Timed, events: seq<Event>, t: Timed, e: Event)
    requires Passes(providers, run, s, events, t) && Happens(providers, run, t, e)
    ensures Passes(providers, run, s, events + [e], After(providers, run, t, e))
    decreases |events|
  {
    if events == [] {
      assert Passes(providers, run, After(providers, run, t, e), [], After(providers, run, t, e));
      assert (events + [e])[1..] == [];
    } else {
      assert (events + [e])[1..] == events[1..] + [e];
      PassesThen(providers, run, After(providers, run, s, events[0]), events[1..], t, e);
    }
  }

  /** The first `done` of n tasks of the group are finished, the others still queued since `claimed`. */
  ghost predicate IsQueue(limits: map<string, int>, provider: string, g: string, claimed: int,
                          n: nat, done: nat, s: Timed) {
    && s.pool.permits == limits && s.pool.workers >= 1 && s.pool.main == Claiming
    && |s.pool.tasks| == n && |s.began| == n && done <= n
    && (forall k: nat :: k < n ==>
          s.pool.tasks[k] == Task(provider, Some(g), if k < done then Finished else Queued))
    && (forall k: nat :: done <= k < n ==> s.began[k] == claimed)
  }

  lemma {:induction false} SubmitMany(providers: Providers, limits: map<string, int>, provider: string, g: string,
                                      run: int, start: Timed, n: nat)
    returns (events: seq<Event>, t: Timed)
    requires Pool.Init(start.pool, limits) && start.began == [] && IsGroupOf(providers, provider, Some(g))
    ensures Passes(providers, run, start, events, t) && t.now == start.now
    ensures IsQueue(limits, provider, g, start.now, n, 0, t)
  {
    if n == 0 {
      events, t := [], start;
    } else {
      var s;
      events, s := SubmitMany(providers, limits, provider, g, run, start, n - 1);
      var e := Event(s.now, Submit(provider, Some(g)));
      PassesThen(providers, run, start, events, s, e);
      events, t := events + [e], After(providers, run, s, e);
    }
  }

  /** The next of the queue starts at once. */
  lemma StartNext(providers: Providers, limits: map<string, int>, provider: string, g: string, run: int,
                  claimed: int, n: nat, done: nat, s: Timed)
    returns (start: Event, acquire: Event)
    requires IsQueue(limits, provider, g, claimed, n, done, s) && done < n && g in limits && limits[g] >= 1
    ensures start == Event(s.now, Start(done)) && Happens(providers, run, s, start)
    ensures acquire == Event(s.now, Acquire(done)) && Happens(providers, run, After(providers, run, s, start), acquire)
  {
    CountZero(s.pool.tasks, IsBusy());
    start, acquire := Event(s.now, Start(done)), Event(s.now, Acquire(done));
  }

  lemma ServeNext(providers: Providers, limits: map<string, int>, provider: string, g: string, run: nat,
                  claimed: int, n: nat, done: nat, s: Timed)
    returns (events: seq<Event>, t: Timed)
    requires IsQueue(limits, provider, g, claimed, n, done, s) && done < n && g in limits && limits[g] >= 1
    ensures Passes(providers, run, s, events, t) && t.now == s.now + run
    ensures IsQueue(limits, provider, g, claimed, n, done + 1, t)
  {
    var start, acquire := StartNext(providers, limits, provider, g, run, claimed, n, done, s);
    var s1 := After(providers, run, s, start);
    var s2 := After(providers, run, s1, acquire);
    var end := Event(s.now + run, End(done));
    t := After(providers, run, s2, end);
    assert t.pool.permits == limits;
    assert Passes(providers, run, s, [], s);
    PassesThen(providers, run, s, [], s, start);
    PassesThen(providers, run, s, [] + [start], s1, acquire);
    PassesThen(providers, run, s, [] + [start] + [acquire], s2, end);
    events := [] + [start] + [acquire] + [end];
  }

  lemma {:induction false} PassesConcat(providers: Providers, run: int, s: Timed, xs: seq<Event>, m: Timed,
                                        ys: seq<Event>, t: Timed)
    requires Passes(providers, run, s, xs, m) && Passes(providers, run, m, ys, t)
    ensures Passes(providers, run, s, xs + ys, t)
    decreases |xs|
  {
    if xs == [] {
      assert xs + ys == ys;
    } else {
      assert (xs + ys)[1..] == xs[1..] + ys;
      PassesConcat(providers, run, After(providers, run, s, xs[0]), xs[1..], m, ys, t);
    }
  }

  lemma {:induction false} ServeMany(providers: Providers, limits: map<string, int>, provider: string, g: string,
                                     run: nat, n: nat, s: Timed, k: nat)
    returns (events: seq<Event>, t: Timed)
    requires IsQueue(limits, provider, g, s.now, n, 0, s) && k <= n && g in limits && limits[g] >= 1
    ensures Passes(providers, run, s, events, t) && t.now == s.now + k * run
    ensures IsQueue(limits, provider, g, s.now, n, k, t)
  {
    if k == 0 {
      events, t := [], s;
    } else {
      var mid, more;
      events, mid := ServeMany(providers, limits, provider, g, run, n, s, k - 1);
      more, t := ServeNext(providers, limits, provider, g, run, s.now, n, k - 1, mid);
      PassesConcat(providers, run, s, events, mid, more, t);
      events := events + more;
      Distribute(k - 1, 1, run);
    }
  }

  /** Some task of the group, claimed at the very start, gets its permit more than `bound` later. */
  ghost predicate WaitsLongerThan(providers: Providers, limits: map<string, int>, g: string, run: int, workers: nat,
                                  now: int, bound: int) {
    exists first, claimed, rest, s, e ::
      && IsWait(providers, limits, g, run, Timed(State(limits, workers, [], {}, Claiming), now, []),
                first, claimed, rest, s, e)
      && claimed.now == now && e.at > now + bound
  }

  /**
   For every configuration, every group that lets jobs in, every number of threads and every
   bound: a pass that claims enough jobs of the group at once makes the last of them wait longer.
   */
  lemma EveryBoundIsExceeded(providers: Providers, limits: map<string, int>, g: string, run: nat, workers: nat,
                             now: int, bound: nat)
    requires AreLimits(providers, limits) && (forall h :: h in limits ==> limits[h] >= 0)
    requires g in limits && limits[g] >= 1 && run >= 1 && workers >= 1
    ensures WaitsLongerThan(providers, limits, g, run, workers, now, bound)
  {
    var i: nat :| i < |providers| && KeyAt(providers, i) == g;
    var provider, n := providers[i].0, bound + 2;
    var start := Timed(State(limits, workers, [], {}, Claiming), now, []);
    var first, claimed := SubmitMany(providers, limits, provider, g, run, start, n);
    var served, ready := ServeMany(providers, limits, provider, g, run, n, claimed, n - 1);
    var begin, acquire := StartNext(providers, limits, provider, g, run, now, n, n - 1, ready);
    var s := After(providers, run, ready, begin);
    PassesThen(providers, run, claimed, served, ready, begin);
    MulMonotone(n - 1, 1, run);
    assert IsWait(providers, limits, g, run, start, first, claimed, served + [begin], s, acquire);
  }

  /** No wait of the group, in any pass, is longer than that. */
  ghost predicate WaitsWithin(providers: Providers, limits: map<string, int>, g: string, run: int, bound: int) {
    forall workers: nat, now: int :: !WaitsLongerThan(providers, limits, g, run, workers, now, bound)
  }

  /** So no timing under which a lease suffices allows for every wait. */
  lemma NoLeaseCoversEveryQueue(providers: Providers, limits: map<string, int>, g: string, run: nat, c: Leases.Timing)
    requires AreLimits(providers, limits) && (forall h :: h in limits ==> limits[h] >= 0)
    requires g in limits && limits[g] >= 1 && run >= 1
    ensures Leases.LeaseSuffices(c) ==> !WaitsWithin(providers, limits, g, run, c.toLoop)
  {
    if c.toLoop >= 0 {
      EveryBoundIsExceeded(providers, limits, g, run, 1, 0, c.toLoop);
    }
  }
}
