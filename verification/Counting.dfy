/** Sums and counts over the rows of a table, and how one changed row moves them. */
module Counting {

  function Sum<T>(s: seq<T>, f: T -> nat): nat {
    if s == [] then 0 else Sum(s[..|s| - 1], f) + f(s[|s| - 1])
  }

  function Indicator<T>(p: T -> bool): T -> nat {
    x => if p(x) then 1 else 0
  }

  function Count<T>(s: seq<T>, p: T -> bool): nat {
    Sum(s, Indicator(p))
  }

  lemma SumAppend<T>(s: seq<T>, x: T, f: T -> nat)
    ensures Sum(s + [x], f) == Sum(s, f) + f(x)
  {
    assert (s + [x])[..|s|] == s;
  }

  lemma {:induction false} SumPut<T>(s: seq<T>, i: nat, x: T, f: T -> nat)
    requires i < |s|
    ensures Sum(s[i := x], f) + f(s[i]) == Sum(s, f) + f(x)
  {
    var n := |s| - 1;
    if i == n {
      assert s[i := x][..n] == s[..n];
    } else {
      assert s[i := x][..n] == s[..n][i := x];
      SumPut(s[..n], i, x, f);
    }
  }

  lemma {:induction false} SumLeq<T>(s: seq<T>, t: seq<T>, f: T -> nat, g: T -> nat)
    requires |s| == |t|
    requires forall k :: 0 <= k < |s| ==> f(s[k]) <= g(t[k])
    ensures Sum(s, f) <= Sum(t, g)
  {
    if s != [] {
      var n := |s| - 1;
      assert forall k :: 0 <= k < n ==> s[..n][k] == s[k] && t[..n][k] == t[k];
      SumLeq(s[..n], t[..n], f, g);
    }
  }

  lemma {:induction false} SumLess<T>(s: seq<T>, t: seq<T>, i: nat, f: T -> nat)
    requires i < |s| == |t|
    requires forall k :: 0 <= k < |s| ==> f(s[k]) <= f(t[k])
    requires f(s[i]) < f(t[i])
    ensures Sum(s, f) < Sum(t, f)
  {
    var n := |s| - 1;
    assert forall k :: 0 <= k < n ==> s[..n][k] == s[k] && t[..n][k] == t[k];
    if i == n {
      SumLeq(s[..n], t[..n], f, f);
    } else {
      SumLess(s[..n], t[..n], i, f);
    }
  }

  lemma CountAppend<T>(s: seq<T>, x: T, p: T -> bool)
    ensures Count(s + [x], p) == Count(s, p) + (if p(x) then 1 else 0)
  {
    SumAppend(s, x, Indicator(p));
  }

  lemma CountPut<T>(s: seq<T>, i: nat, x: T, p: T -> bool)
    requires i < |s|
    ensures Count(s[i := x], p) + (if p(s[i]) then 1 else 0) == Count(s, p) + (if p(x) then 1 else 0)
  {
    SumPut(s, i, x, Indicator(p));
  }

  lemma CountLeq<T>(s: seq<T>, p: T -> bool, q: T -> bool)
    requires forall k :: 0 <= k < |s| && p(s[k]) ==> q(s[k])
    ensures Count(s, p) <= Count(s, q)
  {
    SumLeq(s, s, Indicator(p), Indicator(q));
  }

  lemma {:induction false} CountZero<T>(s: seq<T>, p: T -> bool)
    requires forall k :: 0 <= k < |s| ==> !p(s[k])
    ensures Count(s, p) == 0
  {
    if s != [] {
      CountZero(s[..|s| - 1], p);
    }
  }

  lemma CountFirst<T>(s: seq<T>, p: T -> bool)
    requires s != []
    ensures Count(s, p) == Count(s[1..], p) + if p(s[0]) then 1 else 0
  {
    SumFirst(s, Indicator(p));
  }

  lemma {:induction false} SumFirst<T>(s: seq<T>, f: T -> nat)
    requires s != []
    ensures Sum(s, f) == f(s[0]) + Sum(s[1..], f)
  {
    if |s| > 1 {
      var n := |s| - 1;
      SumFirst(s[..n], f);
      assert s[..n][1..] == s[1..][..n - 1];
    }
  }

  lemma {:induction false} CountAtMostAll<T>(s: seq<T>, p: T -> bool)
    ensures Count(s, p) <= |s|
  {
    if s != [] {
      CountAtMostAll(s[..|s| - 1], p);
    }
  }

  function Where<T>(s: seq<T>, p: T -> bool): set<int> {
    set i | 0 <= i < |s| && p(s[i])
  }

  lemma WhereLast<T>(s: seq<T>, p: T -> bool)
    requires s != []
    ensures var n := |s| - 1;
            Where(s, p) == (if p(s[n]) then Where(s[..n], p) + {n} else Where(s[..n], p)) && n !in Where(s[..n], p)
  {
    var n := |s| - 1;
    assert forall i :: 0 <= i < n ==> s[..n][i] == s[i];
  }

  /** A count is the number of indices it counts. */
  lemma {:induction false} CountIsSize<T>(s: seq<T>, p: T -> bool)
    ensures Count(s, p) == |Where(s, p)|
  {
    if s != [] {
      CountIsSize(s[..|s| - 1], p);
      WhereLast(s, p);
    } else {
      assert Where(s, p) == {};
    }
  }
}
