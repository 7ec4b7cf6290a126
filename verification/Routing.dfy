/** Cooldown-aware choice of a provider: a cyclic scan that starts after the one that failed. */
module Routing {
  import opened Options
  import opened JobDb
  import opened JobStore

  datatype Cooldown = Cooldown(allowedFails: nat, windowSeconds: int)

  const SECOND: int := 1_000_000

  predicate IsCooling(attempts: seq<Attempt>, cooldown: Cooldown, now: Instant, provider: string) {
    RecentFailures(attempts, provider, now - cooldown.windowSeconds * SECOND) >= cooldown.allowedFails
  }

  function Cooling(attempts: seq<Attempt>, cooldown: Cooldown, now: Instant): string -> bool {
    provider => IsCooling(attempts, cooldown, now, provider)
  }

  /** The index of the first occurrence, or -1: list.index with its ValueError handled. */
  function IndexOf(providers: seq<string>, name: string): (i: int)
    ensures -1 <= i < |providers|
    ensures i >= 0 ==> providers[i] == name && name !in providers[..i]
    ensures i == -1 ==> name !in providers
  {
    if name in providers then
      if providers[0] == name then 0 else 1 + IndexOf(providers[1..], name)
    else -1
  }

  function StartIndex(providers: seq<string>, failed: Option<string>): int {
    if failed.None? then -1 else IndexOf(providers, failed.value)
  }

  /** The index looked at after `offset` others. */
  function ScanIndex(start: int, n: nat, offset: nat): nat
    requires n > 0 && start >= -1
  {
    (start + 1 + offset) % n
  }

  /** The provider looked at after `offset` others. */
  function Candidate(providers: seq<string>, start: int, offset: nat): string
    requires providers != [] && start >= -1
  {
    providers[ScanIndex(start, |providers|, offset)]
  }

  /** The routing rule: the first candidate that is not cooling, else the primary. */
  function Choice(providers: seq<string>, start: int, cooling: string -> bool, offset: nat): string
    requires providers != [] && start >= -1 && offset <= |providers|
    decreases |providers| - offset
  {
    if offset == |providers| then providers[0]
    else if !cooling(Candidate(providers, start, offset)) then Candidate(providers, start, offset)
    else Choice(providers, start, cooling, offset + 1)
  }

  /** Fewer failed or timed-out attempts in the last windowSeconds than the cooldown allows. */
  predicate IsBelow(attempts: seq<Attempt>, cooldown: Cooldown, now: Instant, provider: string) {
    RecentFailures(attempts, provider, now - cooldown.windowSeconds * 1_000_000) < cooldown.allowedFails
  }

  lemma BelowIsChosen(providers: seq<string>, failed: Option<string>, attempts: seq<Attempt>,
                      cooldown: Cooldown, now: Instant)
    requires providers != []
    ensures var provider := Choice(providers, StartIndex(providers, failed), Cooling(attempts, cooldown, now), 0);
            && ((exists p :: p in providers && IsBelow(attempts, cooldown, now, p)) ==>
                  provider in providers && IsBelow(attempts, cooldown, now, provider))
            && (failed.None? && IsBelow(attempts, cooldown, now, providers[0]) ==> provider == providers[0])
  {
    if p :| p in providers && IsBelow(attempts, cooldown, now, p) {
      HealthyIsChosen(providers, StartIndex(providers, failed), Cooling(attempts, cooldown, now), p);
    }
    if IsBelow(attempts, cooldown, now, providers[0]) {
      PrimaryFirst(providers, Cooling(attempts, cooldown, now));
    }
  }

  method SelectProvider(providers: seq<string>, failed: Option<string>, cooldown: Cooldown,
                        store: Store, now: Instant) returns (provider: string)
    requires providers != []
    ensures provider == Choice(providers, StartIndex(providers, failed),
                               Cooling(store.attempts, cooldown, now), 0)
    ensures |providers| > 1 && (exists p :: p in providers && IsBelow(store.attempts, cooldown, now, p)) ==>
              provider in providers && IsBelow(store.attempts, cooldown, now, provider)
    ensures failed.None? && IsBelow(store.attempts, cooldown, now, providers[0]) ==> provider == providers[0]
  {
    BelowIsChosen(providers, failed, store.attempts, cooldown, now);
    if |providers| == 1 && failed.None? {
      assert forall c :: Choice(providers, -1, c, 1) == providers[0];
      return providers[0];
    }
    var startIdx := -1;
    if failed.Some? {
      startIdx := IndexOf(providers, failed.value);
    }
    var n := |providers|;
    for offset := 0 to n
      invariant Choice(providers, startIdx, Cooling(store.attempts, cooldown, now), 0)
             == Choice(providers, startIdx, Cooling(store.attempts, cooldown, now), offset)
    {
      var candidateIdx := (startIdx + 1 + offset) % n;
      var candidate := providers[candidateIdx];
      var failures := RecentFailures(store.attempts, candidate, now - cooldown.windowSeconds * SECOND);
      if failures < cooldown.allowedFails {
        return candidate;
      }
    }
    return providers[0];
  }

  /**
   The choice is the nearest provider after the failed one that is not cooling; when all are
   cooling it is the primary, never nothing.
   */
  lemma {:induction false} ChoiceIsNearestHealthy(providers: seq<string>, start: int, cooling: string -> bool,
                                                  offset: nat)
    requires providers != [] && start >= -1 && offset <= |providers|
    ensures var p := Choice(providers, start, cooling, offset);
            || (exists k :: offset <= k < |providers| && p == Candidate(providers, start, k) && !cooling(p)
                  && forall j :: offset <= j < k ==> cooling(Candidate(providers, start, j)))
            || (p == providers[0] && forall j :: offset <= j < |providers| ==> cooling(Candidate(providers, start, j)))
    decreases |providers| - offset
  {
    if offset < |providers| && cooling(Candidate(providers, start, offset)) {
      ChoiceIsNearestHealthy(providers, start, cooling, offset + 1);
    }
  }

  lemma MulAtLeast(q: int, n: int)
    requires q >= 1 && n >= 0
    ensures q * n >= n
  {
  }

  lemma SmallMultiple(q: int, n: int)
    requires n > 0 && -n < q * n < n
    ensures q == 0
  {
    if q >= 1 {
      MulAtLeast(q, n);
    } else if q <= -1 {
      MulAtLeast(-q, n);
    }
  }

  /** Remainders are unique. */
  lemma UniqueRemainder(a: nat, q: int, r: nat, n: nat)
    requires r < n && a == q * n + r
    ensures a % n == r
  {
    var p := a / n;
    assert (p - q) * n == r - a % n;
    SmallMultiple(p - q, n);
  }

  lemma Wrap(x: nat, n: nat)
    requires x < 2 * n
    ensures x % n == if x < n then x else x - n
  {
    if x < n {
      UniqueRemainder(x, 0, x, n);
    } else {
      UniqueRemainder(x, 1, x - n, n);
    }
  }

  /** The scan looks at every index exactly once, and at the failed provider's own index last. */
  lemma ScanVisitsEachIndexOnce(start: int, n: nat, index: nat)
    requires n > 0 && -1 <= start < n && index < n
    ensures exists k: nat :: k < n && ScanIndex(start, n, k) == index
    ensures forall j: nat, k: nat :: j < n && k < n && ScanIndex(start, n, j) == ScanIndex(start, n, k) ==> j == k
    ensures start >= 0 ==> ScanIndex(start, n, n - 1) == start
  {
    var k: nat := if index >= start + 1 then index - start - 1 else index + n - start - 1;
    Wrap(start + 1 + k, n);
    assert ScanIndex(start, n, k) == index;
    forall j: nat, k: nat | j < n && k < n && ScanIndex(start, n, j) == ScanIndex(start, n, k)
      ensures j == k
    {
      Wrap(start + 1 + j, n);
      Wrap(start + 1 + k, n);
    }
    Wrap(start + n, n);
  }

  // ---- the provider after the one that failed

  /** k places further round a circle of n, from place i. */
  function InTurn(i: nat, k: nat, n: nat): (place: nat)
    requires i < n
    ensures place < n
  {
    if k == 0 then i
    else
      var last := InTurn(i, k - 1, n);
      if last + 1 == n then 0 else last + 1
  }

  lemma NextRemainder(a: nat, b: nat, n: nat)
    requires n > 0 && b == a + 1
    ensures b % n == if a % n + 1 == n then 0 else a % n + 1
  {
    var q, r := a / n, a % n;
    if r + 1 == n {
      assert b == (q + 1) * n + 0;
      UniqueRemainder(b, q + 1, 0, n);
    } else {
      assert b == q * n + (r + 1);
      UniqueRemainder(b, q, r + 1, n);
    }
  }

  lemma {:induction false} InTurnIsModulo(i: nat, k: nat, n: nat)
    requires i < n
    ensures InTurn(i, k, n) == (i + k) % n
  {
    if k == 0 {
      UniqueRemainder(i, 0, i, n);
    } else {
      InTurnIsModulo(i, k - 1, n);
      NextRemainder(i + (k - 1), i + k, n);
    }
  }

  predicate AreDistinct(providers: seq<string>) {
    forall a, b :: 0 <= a < b < |providers| ==> providers[a] != providers[b]
  }

  /** If the next provider in the circle is not cooling, it is chosen. */
  lemma NextHealthyIsChosen(providers: seq<string>, at: nat, next: nat, cooling: string -> bool)
    requires at < |providers| && AreDistinct(providers) && next == InTurn(at, 1, |providers|)
    requires !cooling(providers[next])
    ensures Choice(providers, StartIndex(providers, Some(providers[at])), cooling, 0) == providers[next]
  {
    assert IndexOf(providers, providers[at]) == at;
    Wrap(at + 1, |providers|);
  }

  /** While some provider is not cooling, one that is not cooling is chosen. */
  lemma HealthyIsChosen(providers: seq<string>, start: int, cooling: string -> bool, p: string)
    requires p in providers && !cooling(p) && -1 <= start < |providers|
    ensures Choice(providers, start, cooling, 0) in providers && !cooling(Choice(providers, start, cooling, 0))
  {
    ChoiceIsNearestHealthy(providers, start, cooling, 0);
    var index: nat :| index < |providers| && providers[index] == p;
    ScanVisitsEachIndexOnce(start, |providers|, index);
    var k: nat :| k < |providers| && ScanIndex(start, |providers|, k) == index;
    assert Candidate(providers, start, k) == p;
  }

  lemma PrimaryFirst(providers: seq<string>, cooling: string -> bool)
    requires providers != [] && !cooling(providers[0])
    ensures Choice(providers, -1, cooling, 0) == providers[0]
  {
    assert ScanIndex(-1, |providers|, 0) == 0;
  }
}
