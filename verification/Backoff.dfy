/** Exponential retry delays. */
module Backoff {
  import opened Arithmetic

  function Pow2(n: nat): nat {
    if n == 0 then 1 else 2 * Pow2(n - 1)
  }

  function Min(a: int, b: int): int {
    if a <= b then a else b
  }

  /** The delay after the attempts-th failed attempt; zero attempts count as one. */
  function ComputeBackoffSeconds(attempts: int, base: int, max: int): int {
    if base <= 0 then 0
    else
      var exp: nat := if attempts - 1 > 0 then attempts - 1 else 0;
      Min(max, base * Pow2(exp))
  }

  /** The delays a job waited when it has failed m times: one after each failure but the last. */
  function TotalDelay(m: nat, base: int, max: int): int {
    if m <= 1 then 0 else TotalDelay(m - 1, base, max) + ComputeBackoffSeconds(m - 1, base, max)
  }

  lemma {:induction false} Pow2Monotone(m: nat, n: nat)
    requires m <= n
    ensures 1 <= Pow2(m) <= Pow2(n)
  {
    if m < n {
      Pow2Monotone(m, n - 1);
    } else if m > 0 {
      Pow2Monotone(m - 1, m - 1);
    }
  }

  /** Waiting never gets shorter, and once it has reached the cap it stays there. */
  lemma DelaysGrowToTheCap(a: int, b: int, base: int, max: int)
    requires a <= b && max > 0
    ensures 0 <= ComputeBackoffSeconds(a, base, max) <= ComputeBackoffSeconds(b, base, max) <= max
    ensures base > 0 && ComputeBackoffSeconds(a, base, max) == max ==> ComputeBackoffSeconds(b, base, max) == max
    ensures base > 0 ==> ComputeBackoffSeconds(a, base, max) > 0
  {
    if base > 0 {
      var e: nat := if a - 1 > 0 then a - 1 else 0;
      var f: nat := if b - 1 > 0 then b - 1 else 0;
      Pow2Monotone(e, f);
      MulMonotone(base, 1, Pow2(e));
      MulMonotone(base, Pow2(e), Pow2(f));
    }
  }

  /** Each delay is twice the one before, until the cap cuts it; the first is base, or the cap. */
  lemma DelaysDouble(a: int, base: int, max: int)
    requires max > 0 && base >= 0
    ensures a >= 1 ==>
              ComputeBackoffSeconds(a + 1, base, max) == Min(max, 2 * ComputeBackoffSeconds(a, base, max))
    ensures a <= 1 ==> ComputeBackoffSeconds(a, base, max) == Min(max, base)
  {
    if a >= 1 {
      var p := Pow2(a - 1);
      assert Pow2(a) == 2 * p;
      assert base * (2 * p) == 2 * (base * p);
    }
  }

  lemma DelayAtMost(a: int, base: int, max: int)
    requires a >= 1 && base >= 0 && max > 0
    ensures 0 <= ComputeBackoffSeconds(a, base, max) <= max
    ensures ComputeBackoffSeconds(a, base, max) <= base * Pow2(a - 1)
  {
    DelaysGrowToTheCap(a, a, base, max);
    Pow2Monotone(0, a - 1);
    MulMonotone(base, 0, Pow2(a - 1));
  }

  lemma SumStep(base: int, p: int)
    ensures base * (2 * p - 1) == base * (p - 1) + base * p
  {
  }

  /** A job that died after m attempts waited at most (m-1) caps, and at most base * (2^(m-1) - 1). */
  lemma {:induction false} TotalDelayBound(m: nat, base: int, max: int)
    requires m >= 1 && base >= 0 && max > 0
    ensures 0 <= TotalDelay(m, base, max)
    ensures TotalDelay(m, base, max) <= (m - 1) * max
    ensures TotalDelay(m, base, max) <= base * (Pow2(m - 1) - 1)
  {
    if m == 1 {
      assert base * (Pow2(0) - 1) == 0;
    } else {
      TotalDelayBound(m - 1, base, max);
      DelayAtMost(m - 1, base, max);
      SumStep(base, Pow2(m - 2));
      assert (m - 1) * max == (m - 2) * max + max;
    }
  }

  /** While no delay has hit the cap, the total is exactly the geometric sum. */
  lemma {:induction false} TotalDelayExact(m: nat, base: int, max: int)
    requires m >= 1 && base > 0 && max > 0
    requires m >= 2 ==> base * Pow2(m - 2) <= max
    ensures TotalDelay(m, base, max) == base * (Pow2(m - 1) - 1)
  {
    if m > 1 {
      var p: int := Pow2(m - 2);
      if m > 2 {
        Pow2Monotone(m - 3, m - 2);
        MulMonotone(base, Pow2(m - 3), p);
      }
      TotalDelayExact(m - 1, base, max);
      SumStep(base, p);
    }
  }
}
