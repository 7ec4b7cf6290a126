/**
 The parallel pass: a pool of threads that share one semaphore per concurrency group.

 The main thread claims jobs and submits them; a pool thread takes the oldest submitted task,
 waits for its group's semaphore if it has one, executes, and releases. Each of these is a
 step, and steps come in any order.
 */
module Pool {
  import opened Options
  import opened Counting

  datatype Provider = Provider(maxConcurrency: int, concurrencyGroup: Option<string>)

  /** An explicit non-empty group is shared; otherwise the provider is its own group. */
  function GroupKey(name: string, p: Provider): string {
    if p.concurrencyGroup.Some? && p.concurrencyGroup.value != "" then p.concurrencyGroup.value else name
  }

  // ---- limits

  /** The items of the configuration's provider map, in its order. */
  type Providers = seq<(string, Provider)>

  function KeyAt(providers: Providers, i: nat): string
    requires i < |providers|
  {
    GroupKey(providers[i].0, providers[i].1)
  }

  /** Each group's limit is the least max_concurrency among its members. */
  ghost predicate AreLimits(providers: Providers, limits: map<string, int>) {
    && (forall i: nat :: i < |providers| ==>
          KeyAt(providers, i) in limits && limits[KeyAt(providers, i)] <= providers[i].1.maxConcurrency)
    && (forall g :: g in limits ==>
          exists i: nat :: i < |providers| && KeyAt(providers, i) == g && limits[g] == providers[i].1.maxConcurrency)
  }

  method BuildGroupLimits(providers: Providers) returns (groupLimit: map<string, int>)
    ensures AreLimits(providers, groupLimit)
  {
    groupLimit := map[];
    for n := 0 to |providers|
      invariant forall i: nat :: i < n ==>
                  KeyAt(providers, i) in groupLimit && groupLimit[KeyAt(providers, i)] <= providers[i].1.maxConcurrency
      invariant forall g :: g in groupLimit ==>
                  exists i: nat :: i < n && KeyAt(providers, i) == g && groupLimit[g] == providers[i].1.maxConcurrency
    {
      var key, most := KeyAt(providers, n), providers[n].1.maxConcurrency;
      ghost var was := groupLimit;
      var least := if key in groupLimit && groupLimit[key] < most then groupLimit[key] else most;
      groupLimit := groupLimit[key := least];
      forall g | g in groupLimit
        ensures exists i: nat :: i < n + 1 && KeyAt(providers, i) == g && groupLimit[g] == providers[i].1.maxConcurrency
      {
        if g in was && groupLimit[g] == was[g] {
          var i: nat :| i < n && KeyAt(providers, i) == g && was[g] == providers[i].1.maxConcurrency;
        }
      }
    }
  }

  lemma LimitsAreUnique(providers: Providers, a: map<string, int>, b: map<string, int>)
    requires AreLimits(providers, a) && AreLimits(providers, b)
    ensures a == b
  {
    forall g | g in a ensures g in b && b[g] <= a[g] {
      var i: nat :| i < |providers| && KeyAt(providers, i) == g && a[g] == providers[i].1.maxConcurrency;
    }
    forall g | g in b ensures g in a && a[g] <= b[g] {
      var i: nat :| i < |providers| && KeyAt(providers, i) == g && b[g] == providers[i].1.maxConcurrency;
    }
  }

  // ---- the same, in terms of the providers' own fields

  /** The provider names this group. */
  predicate Names(p: Provider, g: string) {
    p.concurrencyGroup == Some(g) && g != ""
  }

  predicate NamesNone(p: Provider) {
    p.concurrencyGroup.None? || p.concurrencyGroup == Some("")
  }

  /** Whoever names a group is limited under it, by no more than its own max_concurrency. */
  lemma NamedGroupIsLimited(providers: Providers, limits: map<string, int>, i: nat, g: string)
    requires AreLimits(providers, limits) && i < |providers| && Names(providers[i].1, g)
    ensures g in limits && limits[g] <= providers[i].1.maxConcurrency
  {
    assert KeyAt(providers, i) == g;
  }

  /** Whoever names none is limited under its own name. */
  lemma OwnGroupIsLimited(providers: Providers, limits: map<string, int>, i: nat)
    requires AreLimits(providers, limits) && i < |providers| && NamesNone(providers[i].1)
    ensures providers[i].0 in limits && limits[providers[i].0] <= providers[i].1.maxConcurrency
  {
    assert KeyAt(providers, i) == providers[i].0;
  }

  /** And every limit is that of a provider which names the group, or whose own group it is. */
  lemma LimitIsAMembers(providers: Providers, limits: map<string, int>, g: string) returns (i: nat)
    requires AreLimits(providers, limits) && g in limits
    ensures i < |providers| && limits[g] == providers[i].1.maxConcurrency
    ensures Names(providers[i].1, g) || (NamesNone(providers[i].1) && providers[i].0 == g)
  {
    i :| i < |providers| && KeyAt(providers, i) == g && limits[g] == providers[i].1.maxConcurrency;
  }

  // ---- the pool's state

  datatype Phase = Queued | Waiting | Executing | Finished

  /** A submitted job: its provider, and the semaphore its thread will acquire, if any. */
  datatype Task = Task(provider: string, group: Option<string>, phase: Phase)

  datatype Main = Claiming | AwaitingAny | Exited

  datatype State = State(
    permits: map<string, int>,
    workers: nat,
    tasks: seq<Task>,
    futures: set<nat>,
    main: Main)

  function IsBusy(): Task -> bool {
    (t: Task) => t.phase == Waiting || t.phase == Executing
  }

  function Holds(g: string): Task -> bool {
    (t: Task) => t.phase == Executing && t.group == Some(g)
  }

  function Runs(provider: string): Task -> bool {
    (t: Task) => t.phase == Executing && t.provider == provider
  }

  /** The semaphore _worker looks up: none for a provider that the configuration lacks. */
  ghost predicate IsGroupOf(providers: Providers, provider: string, group: Option<string>) {
    match group
    case Some(g) => exists i: nat :: i < |providers| && providers[i].0 == provider && KeyAt(providers, i) == g
    case None => forall i: nat :: i < |providers| ==> providers[i].0 != provider
  }

  ghost predicate Init(s: State, limits: map<string, int>) {
    s == State(limits, s.workers, [], {}, Claiming) && s.workers >= 1
  }

  datatype Step =
    | Submit(provider: string, group: Option<string>)
    | NothingToClaim
    | Wake
    | Start(task: nat)
    | Acquire(task: nat)
    | End(task: nat)

  predicate IsThreadStep(step: Step) {
    step.Start? || step.Acquire? || step.End?
  }

  ghost predicate Enabled(providers: Providers, s: State, step: Step) {
    match step
    case Submit(provider, group) => s.main == Claiming && IsGroupOf(providers, provider, group)
    case NothingToClaim => s.main == Claiming
    case Wake =>
      s.main == AwaitingAny && exists i: nat :: i < |s.tasks| && i in s.futures && s.tasks[i].phase == Finished
    case Start(i) =>
      && i < |s.tasks| && s.tasks[i].phase == Queued
      && (forall k: nat :: k < i ==> s.tasks[k].phase != Queued)
      && Count(s.tasks, IsBusy()) < s.workers
    case Acquire(i) =>
      && i < |s.tasks| && s.tasks[i].phase == Waiting
      && (s.tasks[i].group.Some? ==> s.tasks[i].group.value in s.permits && s.permits[s.tasks[i].group.value] > 0)
    case End(i) => i < |s.tasks| && s.tasks[i].phase == Executing
  }

  function Move(s: State, i: nat, phase: Phase): State
    requires i < |s.tasks|
  {
    s.(tasks := s.tasks[i := s.tasks[i].(phase := phase)])
  }

  function AddPermits(permits: map<string, int>, group: Option<string>, n: int): map<string, int> {
    if group.Some? && group.value in permits then permits[group.value := permits[group.value] + n] else permits
  }

  ghost function Apply(providers: Providers, s: State, step: Step): State
    requires Enabled(providers, s, step)
  {
    match step
    case Submit(provider, group) =>
      s.(tasks := s.tasks + [Task(provider, group, Queued)], futures := s.futures + {|s.tasks|})
    case NothingToClaim => s.(main := if s.futures == {} then Exited else AwaitingAny)
    case Wake =>
      s.(main := Claiming,
         futures := set i: nat | i in s.futures && !(i < |s.tasks| && s.tasks[i].phase == Finished))
    case Start(i) => Move(s, i, Waiting)
    case Acquire(i) => Move(s, i, Executing).(permits := AddPermits(s.permits, s.tasks[i].group, -1))
    case End(i) => Move(s, i, Finished).(permits := AddPermits(s.permits, s.tasks[i].group, 1))
  }

  ghost predicate Leads(providers: Providers, s: State, steps: seq<Step>, t: State)
    decreases |steps|
  {
    if steps == [] then s == t
    else Enabled(providers, s, steps[0]) && Leads(providers, Apply(providers, s, steps[0]), steps[1..], t)
  }

  // ---- invariants

  ghost predicate PermitsOk(limits: map<string, int>, s: State) {
    && s.permits.Keys == limits.Keys
    && forall g :: g in limits ==> s.permits[g] + Count(s.tasks, Holds(g)) == limits[g]
  }

  ghost predicate TasksOk(providers: Providers, s: State) {
    && (forall i :: 0 <= i < |s.tasks| ==> IsGroupOf(providers, s.tasks[i].provider, s.tasks[i].group))
    && (forall i: nat :: i in s.futures ==> i < |s.tasks|)
    && (forall i: nat :: i < |s.tasks| && s.tasks[i].phase != Finished ==> i in s.futures)
    && (s.main == Exited ==> s.futures == {}) && (s.main == AwaitingAny ==> s.futures != {})
    && Count(s.tasks, IsBusy()) <= s.workers && s.workers >= 1
  }

  ghost predicate Inv(providers: Providers, limits: map<string, int>, s: State) {
    AreLimits(providers, limits) && PermitsOk(limits, s) && TasksOk(providers, s)
  }

  lemma StepKeepsPermits(providers: Providers, limits: map<string, int>, s: State, step: Step)
    requires Inv(providers, limits, s) && Enabled(providers, s, step)
    ensures PermitsOk(limits, Apply(providers, s, step))
  {
    var t := Apply(providers, s, step);
    forall g | g in limits ensures t.permits[g] + Count(t.tasks, Holds(g)) == limits[g] {
      match step
      case Submit(provider, group) => CountAppend(s.tasks, Task(provider, group, Queued), Holds(g));
      case Start(i) => CountPut(s.tasks, i, s.tasks[i].(phase := Waiting), Holds(g));
      case Acquire(i) => CountPut(s.tasks, i, s.tasks[i].(phase := Executing), Holds(g));
      case End(i) => CountPut(s.tasks, i, s.tasks[i].(phase := Finished), Holds(g));
      case _ =>
    }
  }

  lemma StepKeepsTasks(providers: Providers, limits: map<string, int>, s: State, step: Step)
    requires Inv(providers, limits, s) && Enabled(providers, s, step)
    ensures TasksOk(providers, Apply(providers, s, step))
  {
    match step
    case Submit(provider, group) => CountAppend(s.tasks, Task(provider, group, Queued), IsBusy());
    case Start(i) => CountPut(s.tasks, i, s.tasks[i].(phase := Waiting), IsBusy());
    case Acquire(i) => CountPut(s.tasks, i, s.tasks[i].(phase := Executing), IsBusy());
    case End(i) => CountPut(s.tasks, i, s.tasks[i].(phase := Finished), IsBusy());
    case _ =>
  }

  lemma {:induction false} RunKeepsInv(providers: Providers, limits: map<string, int>,
                                       s: State, steps: seq<Step>, t: State)
    requires Inv(providers, limits, s) && Leads(providers, s, steps, t)
    ensures Inv(providers, limits, t)
    decreases |steps|
  {
    if steps != [] {
      StepKeepsPermits(providers, limits, s, steps[0]);
      StepKeepsTasks(providers, limits, s, steps[0]);
      RunKeepsInv(providers, limits, Apply(providers, s, steps[0]), steps[1..], t);
    }
  }

  lemma InitInv(providers: Providers, limits: map<string, int>, s: State)
    requires AreLimits(providers, limits) && Init(s, limits)
    ensures Inv(providers, limits, s)
  {
  }

  // ---- what holds in every reachable state

  ghost predicate Reachable(providers: Providers, limits: map<string, int>, s: State) {
    AreLimits(providers, limits) && exists start, steps :: Init(start, limits) && Leads(providers, start, steps, s)
  }

  lemma ReachableInv(providers: Providers, limits: map<string, int>, s: State)
    requires Reachable(providers, limits, s)
    ensures Inv(providers, limits, s)
  {
    var start, steps :| Init(start, limits) && Leads(providers, start, steps, s);
    InitInv(providers, limits, start);
    RunKeepsInv(providers, limits, start, steps, s);
  }

  /** Permits and holders of a group always add up to its limit. */
  lemma PermitsPlusHolders(providers: Providers, limits: map<string, int>, s: State, g: string)
    requires Reachable(providers, limits, s) && g in limits
    ensures g in s.permits && s.permits[g] + Count(s.tasks, Holds(g)) == limits[g]
  {
    ReachableInv(providers, limits, s);
  }

  ghost predicate DistinctNames(providers: Providers) {
    forall i: nat, k: nat :: i < k < |providers| ==> providers[i].0 != providers[k].0
  }

  /** Permits never go below zero where they began at zero or above. */
  lemma PermitsNonNegative(providers: Providers, limits: map<string, int>, start: State, steps: seq<Step>, s: State)
    requires AreLimits(providers, limits) && forall g :: g in limits ==> limits[g] >= 0
    requires forall g :: g in start.permits ==> start.permits[g] >= 0
    requires Leads(providers, start, steps, s)
    ensures forall g :: g in s.permits ==> s.permits[g] >= 0
    decreases |steps|
  {
    if steps != [] {
      PermitsNonNegative(providers, limits, Apply(providers, start, steps[0]), steps[1..], s);
    }
  }

  /** A provider never runs more jobs at once than its own max_concurrency. */
  lemma ProviderWithinItsLimit(providers: Providers, limits: map<string, int>, s: State, k: nat)
    requires Reachable(providers, limits, s) && DistinctNames(providers)
    requires forall g :: g in limits ==> limits[g] >= 0
    requires k < |providers|
    ensures Count(s.tasks, Runs(providers[k].0)) <= providers[k].1.maxConcurrency
  {
    ReachableInv(providers, limits, s);
    var name, g := providers[k].0, KeyAt(providers, k);
    var start, steps :| Init(start, limits) && Leads(providers, start, steps, s);
    PermitsNonNegative(providers, limits, start, steps, s);
    forall i | 0 <= i < |s.tasks| && Runs(name)(s.tasks[i]) ensures Holds(g)(s.tasks[i]) {
      assert IsGroupOf(providers, s.tasks[i].provider, s.tasks[i].group);
    }
    CountLeq(s.tasks, Runs(name), Holds(g));
  }

  /** The task executes on a provider that names the group. */
  ghost predicate RunsInGroup(providers: Providers, g: string, t: Task) {
    t.phase == Executing && exists i: nat :: i < |providers| && providers[i].0 == t.provider && Names(providers[i].1, g)
  }

  ghost function InGroup(providers: Providers, g: string): Task -> bool {
    (t: Task) => RunsInGroup(providers, g, t)
  }

  /** Providers that name one group never run more jobs at once, all together, than any one of them allows. */
  lemma GroupWithinEveryMember(providers: Providers, limits: map<string, int>, s: State, g: string, k: nat)
    requires Reachable(providers, limits, s) && DistinctNames(providers)
    requires forall h :: h in limits ==> limits[h] >= 0
    requires k < |providers| && Names(providers[k].1, g)
    ensures Count(s.tasks, InGroup(providers, g)) <= providers[k].1.maxConcurrency
  {
    ReachableInv(providers, limits, s);
    NamedGroupIsLimited(providers, limits, k, g);
    var start, steps :| Init(start, limits) && Leads(providers, start, steps, s);
    PermitsNonNegative(providers, limits, start, steps, s);
    forall i | 0 <= i < |s.tasks| && InGroup(providers, g)(s.tasks[i]) ensures Holds(g)(s.tasks[i]) {
      assert IsGroupOf(providers, s.tasks[i].provider, s.tasks[i].group);
      MemberHolds(providers, s.tasks[i], g);
    }
    CountLeq(s.tasks, InGroup(providers, g), Holds(g));
  }

  lemma MemberHolds(providers: Providers, t: Task, g: string)
    requires DistinctNames(providers) && IsGroupOf(providers, t.provider, t.group) && RunsInGroup(providers, g, t)
    ensures t.group == Some(g)
  {
    var i: nat :| i < |providers| && providers[i].0 == t.provider && Names(providers[i].1, g);
    assert KeyAt(providers, i) == g;
  }

  /** No more threads are in use than the pool has. */
  lemma ThreadsWithinPool(providers: Providers, limits: map<string, int>, s: State)
    requires Reachable(providers, limits, s)
    ensures |set i | 0 <= i < |s.tasks| && (s.tasks[i].phase == Waiting || s.tasks[i].phase == Executing)| <= s.workers
  {
    ReachableInv(providers, limits, s);
    CountIsSize(s.tasks, IsBusy());
    assert (set i | 0 <= i < |s.tasks| && (s.tasks[i].phase == Waiting || s.tasks[i].phase == Executing))
        == Where(s.tasks, IsBusy());
  }

  // ---- progress

  ghost predicate CanStep(providers: Providers, s: State) {
    exists step :: IsThreadStep(step) && Enabled(providers, s, step)
  }

  predicate AllFinished(s: State) {
    forall i :: 0 <= i < |s.tasks| ==> s.tasks[i].phase == Finished
  }

  lemma {:induction false} FirstQueued(tasks: seq<Task>, i: nat) returns (k: nat)
    requires i < |tasks| && tasks[i].phase == Queued
    ensures k < |tasks| && tasks[k].phase == Queued && forall j: nat :: j < k ==> tasks[j].phase != Queued
    decreases i
  {
    if j: nat :| j < i && tasks[j].phase == Queued {
      k := FirstQueued(tasks, j);
    } else {
      k := i;
    }
  }

  /** With every limit at least one, some thread can step as long as any task is unfinished. */
  lemma NeverDeadlocks(providers: Providers, limits: map<string, int>, s: State)
    requires Reachable(providers, limits, s) && forall g :: g in limits ==> limits[g] >= 1
    ensures AllFinished(s) || CanStep(providers, s)
  {
    ReachableInv(providers, limits, s);
    if i: nat :| i < |s.tasks| && s.tasks[i].phase == Executing {
      assert Enabled(providers, s, End(i));
    } else if i: nat :| i < |s.tasks| && s.tasks[i].phase == Waiting {
      NobodyHolds(s);
      assert IsGroupOf(providers, s.tasks[i].provider, s.tasks[i].group);
      assert Enabled(providers, s, Acquire(i));
    } else if i: nat :| i < |s.tasks| && s.tasks[i].phase == Queued {
      CountZero(s.tasks, IsBusy());
      var k := FirstQueued(s.tasks, i);
      assert Enabled(providers, s, Start(k));
    }
  }

  lemma NobodyHolds(s: State)
    requires forall i: nat :: i < |s.tasks| ==> s.tasks[i].phase != Executing
    ensures forall g :: Count(s.tasks, Holds(g)) == 0
  {
    forall g ensures Count(s.tasks, Holds(g)) == 0 {
      CountZero(s.tasks, Holds(g));
    }
  }

  function Work(): Task -> nat {
    (t: Task) => match t.phase case Queued => 3 case Waiting => 2 case Executing => 1 case Finished => 0
  }

  /** Threads alone cannot go on forever: each of their steps uses up one unit of work. */
  lemma {:induction false} ThreadsUseUpWork(providers: Providers, s: State, steps: seq<Step>, t: State)
    requires Leads(providers, s, steps, t) && forall k :: 0 <= k < |steps| ==> IsThreadStep(steps[k])
    ensures |t.tasks| == |s.tasks| && |steps| + Sum(t.tasks, Work()) == Sum(s.tasks, Work())
    decreases |steps|
  {
    if steps != [] {
      var next := Apply(providers, s, steps[0]);
      assert IsThreadStep(steps[0]);
      var i := steps[0].task;
      SumPut(s.tasks, i, next.tasks[i], Work());
      ThreadsUseUpWork(providers, next, steps[1..], t);
    }
  }

  /** So after the last claim every schedule of the threads ends, and ends with all tasks finished. */
  lemma PassDrains(providers: Providers, limits: map<string, int>, s: State, steps: seq<Step>, t: State)
    requires Reachable(providers, limits, s) && forall g :: g in limits ==> limits[g] >= 1
    requires Leads(providers, s, steps, t) && forall k :: 0 <= k < |steps| ==> IsThreadStep(steps[k])
    ensures |steps| <= Sum(s.tasks, Work())
    ensures CanStep(providers, t) || AllFinished(t)
  {
    ThreadsUseUpWork(providers, s, steps, t);
    var start, before :| Init(start, limits) && Leads(providers, start, before, s);
    LeadsConcat(providers, start, before, s, steps, t);
    NeverDeadlocks(providers, limits, t);
  }

  lemma {:induction false} LeadsConcat(providers: Providers, s: State, xs: seq<Step>, m: State, ys: seq<Step>, t: State)
    requires Leads(providers, s, xs, m) && Leads(providers, m, ys, t)
    ensures Leads(providers, s, xs + ys, t)
    decreases |xs|
  {
    if xs == [] {
      assert xs + ys == ys;
    } else {
      assert (xs + ys)[1..] == xs[1..] + ys;
      LeadsConcat(providers, Apply(providers, s, xs[0]), xs[1..], m, ys, t);
    }
  }

  /** When the main thread has left its loop, no submitted job is still unfinished. */
  lemma ExitsWithAllFinished(providers: Providers, limits: map<string, int>, s: State)
    requires Reachable(providers, limits, s) && s.main == Exited
    ensures AllFinished(s)
  {
    ReachableInv(providers, limits, s);
  }

  // ---- the whole pass: threads and the main thread

  function IsSubmit(): Step -> bool {
    (step: Step) => step.Submit?
  }

  /** What the pass still has to do: work, futures to be collected twice over, and one last claim. */
  function Effort(s: State): nat {
    Sum(s.tasks, Work()) + 2 * |s.futures| + if s.main == Claiming then 1 else 0
  }

  /** Collecting drops at least one future. */
  lemma WakeDropsFutures(s: State, providers: Providers)
    requires Enabled(providers, s, Wake)
    ensures |Apply(providers, s, Wake).futures| < |s.futures|
  {
    var i: nat :| i < |s.tasks| && i in s.futures && s.tasks[i].phase == Finished;
    var left := Apply(providers, s, Wake).futures;
    assert left <= s.futures - {i};
    SubsetIsSmaller(left, s.futures - {i});
  }

  lemma {:induction false} SubsetIsSmaller(a: set<nat>, b: set<nat>)
    requires a <= b
    ensures |a| <= |b|
    decreases |a|
  {
    if x :| x in a {
      SubsetIsSmaller(a - {x}, b - {x});
    }
  }

  /** Every step but a submission takes effort off; a submission adds five. */
  lemma StepTakesEffort(providers: Providers, limits: map<string, int>, s: State, step: Step)
    requires Inv(providers, limits, s) && Enabled(providers, s, step)
    ensures Effort(Apply(providers, s, step)) + 1 <= Effort(s) + if step.Submit? then 6 else 0
  {
    var t := Apply(providers, s, step);
    match step
    case Submit(provider, group) => SumAppend(s.tasks, Task(provider, group, Queued), Work());
    case Start(i) => SumPut(s.tasks, i, t.tasks[i], Work());
    case Acquire(i) => SumPut(s.tasks, i, t.tasks[i], Work());
    case End(i) => SumPut(s.tasks, i, t.tasks[i], Work());
    case Wake => WakeDropsFutures(s, providers);
    case NothingToClaim =>
  }

  lemma {:induction false} StepsTakeEffort(providers: Providers, limits: map<string, int>,
                                           s: State, steps: seq<Step>, t: State)
    requires Inv(providers, limits, s) && Leads(providers, s, steps, t)
    ensures |steps| + Effort(t) <= Effort(s) + 6 * Count(steps, IsSubmit())
    decreases |steps|
  {
    if steps != [] {
      var next := Apply(providers, s, steps[0]);
      StepTakesEffort(providers, limits, s, steps[0]);
      StepKeepsPermits(providers, limits, s, steps[0]);
      StepKeepsTasks(providers, limits, s, steps[0]);
      StepsTakeEffort(providers, limits, next, steps[1..], t);
      CountFirst(steps, IsSubmit());
    }
  }

  /** Nothing is left to happen but further submissions. */
  ghost predicate AtRest(providers: Providers, s: State) {
    forall step :: Enabled(providers, s, step) ==> step.Submit?
  }

  lemma FinishedWakes(providers: Providers, s: State)
    requires TasksOk(providers, s) && AllFinished(s) && s.main == AwaitingAny
    ensures Enabled(providers, s, Wake)
  {
    var i :| i in s.futures;
    assert s.tasks[i].phase == Finished;
  }

  /** The main thread waits only while it has futures to wait for. */
  lemma RestIsExit(providers: Providers, limits: map<string, int>, s: State)
    requires Reachable(providers, limits, s) && forall g :: g in limits ==> limits[g] >= 1
    requires AtRest(providers, s)
    ensures s.main == Exited && AllFinished(s)
  {
    ReachableInv(providers, limits, s);
    NeverDeadlocks(providers, limits, s);
    assert !Enabled(providers, s, NothingToClaim);
    if s.main == AwaitingAny {
      FinishedWakes(providers, s);
    }
  }

  /**
   A pass that claims finitely many jobs ends, in whatever order things happen: n claims allow
   at most 6n + 1 steps, and when nothing but a claim could follow, the main thread has left
   its loop with every job finished.
   */
  lemma PassEnds(providers: Providers, limits: map<string, int>, start: State, steps: seq<Step>, s: State)
    requires AreLimits(providers, limits) && forall g :: g in limits ==> limits[g] >= 1
    requires Init(start, limits) && Leads(providers, start, steps, s)
    ensures |steps| <= 6 * Count(steps, IsSubmit()) + 1
    ensures AtRest(providers, s) ==> s.main == Exited && AllFinished(s)
  {
    InitInv(providers, limits, start);
    StepsTakeEffort(providers, limits, start, steps, s);
    if AtRest(providers, s) {
      RestIsExit(providers, limits, s);
    }
  }

  // ---- limits below one

  /**
   A group whose limit is zero or less stops the pool: a reachable state with an unfinished job
   in which no thread and not even the main thread can do anything.
   */
  lemma ZeroLimitDeadlocks(providers: Providers, limits: map<string, int>, g: string) returns (s: State)
    requires AreLimits(providers, limits) && g in limits && limits[g] <= 0
    ensures Reachable(providers, limits, s) && !AllFinished(s)
    ensures forall step :: !Enabled(providers, s, step)
  {
    var k: nat :| k < |providers| && KeyAt(providers, k) == g && limits[g] == providers[k].1.maxConcurrency;
    var start := State(limits, 1, [], {}, Claiming);
    var submit := Submit(providers[k].0, Some(g));
    var task := Task(providers[k].0, Some(g), Queued);
    var s1 := State(limits, 1, [task], {0}, Claiming);
    var s2 := State(limits, 1, [task], {0}, AwaitingAny);
    s := State(limits, 1, [task.(phase := Waiting)], {0}, AwaitingAny);
    ClaimAndWait(providers, start, submit, s1, s2, s);
    assert s.tasks[0].phase == Waiting;
  }

  lemma ClaimAndWait(providers: Providers, start: State, submit: Step, s1: State, s2: State, s: State)
    requires |s1.tasks| == 1 && s1.tasks[0].phase == Queued && s1.futures == {0} && s1.main == Claiming
    requires Enabled(providers, start, submit) && Apply(providers, start, submit) == s1
    requires s2 == s1.(main := AwaitingAny) && s1.workers == 1
    requires s == s2.(tasks := [s2.tasks[0].(phase := Waiting)])
    ensures Leads(providers, start, [submit, NothingToClaim, Start(0)], s)
  {
    var task := s1.tasks[0];
    assert Apply(providers, s1, NothingToClaim) == s2 by {
      assert 0 in s1.futures;
    }
    CountZero([task], IsBusy());
    assert Enabled(providers, s2, Start(0)) && Apply(providers, s2, Start(0)) == s;
    assert Leads(providers, s2, [Start(0)], s);
    assert [NothingToClaim, Start(0)][1..] == [Start(0)];
    assert Leads(providers, s1, [NothingToClaim, Start(0)], s);
    assert [submit, NothingToClaim, Start(0)][1..] == [NothingToClaim, Start(0)];
    assert Leads(providers, start, [submit, NothingToClaim, Start(0)], s);
  }

  /** Exactly the configurations whose limits are all at least one never deadlock. */
  lemma DeadlockFreeIffLimitsPositive(providers: Providers, limits: map<string, int>)
    requires AreLimits(providers, limits)
    ensures (forall g :: g in limits ==> limits[g] >= 1)
            <==> forall s :: Reachable(providers, limits, s) ==> AllFinished(s) || CanStep(providers, s)
  {
    if forall g :: g in limits ==> limits[g] >= 1 {
      forall s | Reachable(providers, limits, s) ensures AllFinished(s) || CanStep(providers, s) {
        NeverDeadlocks(providers, limits, s);
      }
    } else {
      var g :| g in limits && limits[g] <= 0;
      var s := ZeroLimitDeadlocks(providers, limits, g);
    }
  }
}
