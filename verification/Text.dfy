/** Substring search, counting, splitting and joining, as Python's string methods do them. */
module Text {

  /** m occurs in t at index i. */
  predicate At(t: string, m: string, i: int) {
    0 <= i && i + |m| <= |t| && t[i..i + |m|] == m
  }

  /** str.count: occurrences that do not overlap, counted from the left. */
  function Count(t: string, m: string): nat
    requires m != ""
    decreases |t|
  {
    if t == "" then 0
    else if m <= t then 1 + Count(t[|m|..], m)
    else Count(t[1..], m)
  }

  /** str.find: the first index where m occurs, or -1. */
  function Find(t: string, m: string): int
    requires m != ""
    decreases |t|
  {
    if m <= t then 0
    else if t == "" then -1
    else
      var i := Find(t[1..], m);
      if i < 0 then -1 else i + 1
  }

  ghost predicate Absent(t: string, m: string) {
    forall i :: !At(t, m, i)
  }

  lemma AtShift(t: string, m: string, k: nat, i: int)
    requires k <= |t| && i >= 0
    ensures At(t[k..], m, i) <==> At(t, m, i + k)
  {
    if i + k + |m| <= |t| {
      assert t[k..][i..i + |m|] == t[i + k..i + k + |m|];
    }
  }

  /** A text that does not begin with m has m where its tail has it, one later. */
  lemma OccursInTail(t: string, m: string)
    requires t != "" && !(m <= t)
    ensures forall i :: At(t, m, i) <==> At(t[1..], m, i - 1)
    ensures Absent(t, m) <==> Absent(t[1..], m)
  {
    assert !At(t, m, 0);
    forall i ensures At(t, m, i) <==> At(t[1..], m, i - 1) {
      if i >= 1 {
        AtShift(t, m, 1, i - 1);
      }
    }
    if j :| At(t[1..], m, j) {
      AtShift(t, m, 1, j);
      assert At(t, m, j + 1);
    }
  }

  lemma {:induction false} FindIsFirst(t: string, m: string)
    requires m != ""
    ensures Find(t, m) < 0 <==> Absent(t, m)
    ensures Find(t, m) >= 0 ==> At(t, m, Find(t, m)) && forall i :: i < Find(t, m) ==> !At(t, m, i)
    decreases |t|
  {
    if m <= t {
      assert At(t, m, 0);
    } else if t != "" {
      FindIsFirst(t[1..], m);
      OccursInTail(t, m);
    }
  }

  lemma {:induction false} CountZeroIffAbsent(t: string, m: string)
    requires m != ""
    ensures Count(t, m) == 0 <==> Absent(t, m)
    decreases |t|
  {
    if m <= t {
      assert At(t, m, 0);
    } else if t != "" {
      CountZeroIffAbsent(t[1..], m);
      OccursInTail(t, m);
    }
  }

  lemma CutAt(t: string, m: string, i: nat)
    requires At(t, m, i)
    ensures t == t[..i] + (m + t[i + |m|..])
  {
  }

  lemma TailOfTail(t: string, i: nat)
    requires i + 1 <= |t|
    ensures t[1..][i..] == t[i + 1..]
  {
  }

  lemma {:induction false} CountAfterFind(t: string, m: string)
    requires m != "" && Find(t, m) >= 0
    ensures Find(t, m) + |m| <= |t| && Count(t, m) == 1 + Count(t[Find(t, m) + |m|..], m)
    decreases |t|
  {
    if !(m <= t) {
      CountAfterFind(t[1..], m);
      TailOfTail(t, Find(t[1..], m) + |m|);
    }
  }

  /** The first occurrence cuts the text in two and takes one off the count. */
  lemma FindCuts(t: string, m: string)
    requires m != "" && Find(t, m) >= 0
    ensures var i := Find(t, m);
            && i + |m| <= |t| && t == t[..i] + (m + t[i + |m|..])
            && Count(t, m) == 1 + Count(t[i + |m|..], m)
  {
    FindIsFirst(t, m);
    CutAt(t, m, Find(t, m));
    CountAfterFind(t, m);
  }

  ghost predicate NoneAcross(a: string, b: string, m: string) {
    forall i :: 0 <= i < |a| && |a| < i + |m| ==> !At(a + b, m, i)
  }

  /** Counts add up over a seam that no occurrence crosses. */
  lemma {:induction false} CountConcat(a: string, b: string, m: string)
    requires m != "" && NoneAcross(a, b, m)
    ensures Count(a + b, m) == Count(a, m) + Count(b, m)
    decreases |a|
  {
    if a == "" {
      assert a + b == b;
    } else {
      assert m <= a + b <==> At(a + b, m, 0);
      if |m| <= |a| {
        assert (a + b)[..|m|] == a[..|m|];
      }
      var k := if m <= a then |m| else 1;
      assert (a + b)[k..] == a[k..] + b;
      forall i | 0 <= i < |a[k..]| && |a[k..]| < i + |m| ensures !At(a[k..] + b, m, i) {
        AtShift(a + b, m, k, i);
      }
      CountConcat(a[k..], b, m);
    }
  }

  lemma {:induction false} FindConcat(a: string, b: string, m: string)
    requires m != "" && NoneAcross(a, b, m) && Count(a, m) == 0 && m <= b
    ensures Find(a + b, m) == |a|
    decreases |a|
  {
    if a == "" {
      assert a + b == b;
    } else {
      assert m <= a + b <==> At(a + b, m, 0);
      if |m| <= |a| {
        assert (a + b)[..|m|] == a[..|m|];
      }
      assert (a + b)[1..] == a[1..] + b;
      forall i | 0 <= i < |a[1..]| && |a[1..]| < i + |m| ensures !At(a[1..] + b, m, i) {
        AtShift(a + b, m, 1, i);
      }
      FindConcat(a[1..], b, m);
    }
  }

  lemma CharOfOccurrence(t: string, m: string, i: int, k: nat)
    requires At(t, m, i) && k < |m|
    ensures t[i + k] == m[k] && m[k] in t
  {
    assert t[i..i + |m|][k] == t[i + k];
  }

  lemma AbsentIfShort(t: string, m: string)
    requires |t| < |m|
    ensures Count(t, m) == 0
  {
    CountZeroIffAbsent(t, m);
  }

  lemma AbsentIfCharMissing(t: string, m: string, k: nat)
    requires k < |m| && m[k] !in t
    ensures Count(t, m) == 0
  {
    CountZeroIffAbsent(t, m);
    if i :| At(t, m, i) {
      CharOfOccurrence(t, m, i, k);
    }
  }

  lemma AbsentInPrefix(t: string, m: string, i: nat)
    requires m != "" && i <= |t| && forall k :: k < i ==> !At(t, m, k)
    ensures Count(t[..i], m) == 0
  {
    forall k ensures !At(t[..i], m, k) {
      if 0 <= k && k + |m| <= i {
        assert t[..i][k..k + |m|] == t[k..k + |m|];
        assert !At(t, m, k);
      }
    }
    CountZeroIffAbsent(t[..i], m);
  }

  lemma CutSlices(a: string, m: string, b: string)
    ensures (a + (m + b))[..|a|] == a && (a + (m + b))[|a| + |m|..] == b
  {
  }

  // ---- seams

  /** A marker: on one line, and its first character does not occur in it again. */
  predicate IsMarker(m: string) {
    m != "" && '\n' !in m && m[0] !in m[1..]
  }

  lemma CharAcross(a: string, b: string, m: string, i: int, c: char)
    requires At(a + b, m, i) && 0 <= i < |a| < i + |m| && b != "" && b[0] == c
    ensures c in m[1..]
  {
    assert m[|a| - i] == (a + b)[|a|] == c;
    assert m[1..][|a| - i - 1] == c;
  }

  /** No marker crosses into a text that begins with the same character. */
  lemma NoneAcrossIntoHead(a: string, b: string, m: string)
    requires IsMarker(m) && b != "" && b[0] == m[0]
    ensures NoneAcross(a, b, m)
  {
    forall i | 0 <= i < |a| && |a| < i + |m| ensures !At(a + b, m, i) {
      if At(a + b, m, i) {
        CharAcross(a, b, m, i, m[0]);
      }
    }
  }

  lemma NoneAcrossIntoNewline(a: string, b: string, m: string)
    requires IsMarker(m) && b != "" && b[0] == '\n'
    ensures NoneAcross(a, b, m)
  {
    assert '\n' !in m[1..];
    forall i | 0 <= i < |a| && |a| < i + |m| ensures !At(a + b, m, i) {
      if At(a + b, m, i) {
        CharAcross(a, b, m, i, '\n');
      }
    }
  }

  lemma PrefixOfBoth(a: string, b: string, m: string)
    requires |a| <= |m|
    ensures At(a + b, m, 0) ==> a <= m
  {
    if At(a + b, m, 0) {
      assert (a + b)[..|m|] == m;
      assert (a + b)[..|m|][..|a|] == a;
    }
  }

  /** No marker begins inside another marker, so none crosses out of one. */
  lemma NoneAcrossFromMarker(a: string, b: string, m: string)
    requires IsMarker(m) && IsMarker(a) && a[0] == m[0] && (a == m || !(a <= m))
    ensures NoneAcross(a, b, m)
  {
    forall i | 0 <= i < |a| && |a| < i + |m| ensures !At(a + b, m, i) {
      if i == 0 {
        PrefixOfBoth(a, b, m);
      } else {
        assert a[1..][i - 1] == a[i];
        assert (a + b)[i] == a[i];
      }
    }
  }

  lemma NoneAcrossFromNewline(a: string, b: string, m: string)
    requires IsMarker(m) && a == "\n"
    ensures NoneAcross(a, b, m)
  {
    forall i | 0 <= i < |a| && |a| < i + |m| ensures !At(a + b, m, i) {
      assert (a + b)[0] == '\n';
      assert m[0] in m;
    }
  }

  lemma MarkerInsideMarker(marker: string, m: string, i: int)
    requires IsMarker(marker) && m != "" && m[0] == marker[0] && At(marker, m, i)
    ensures i == 0 && m <= marker
  {
    if i == 0 {
      assert marker[..|m|] == m;
    } else {
      CharOfOccurrence(marker, m, i, 0);
      CharInTail(marker, i);
    }
  }

  lemma CharInTail(s: string, i: int)
    requires 1 <= i < |s|
    ensures s[i] in s[1..]
  {
    assert s[1..][i - 1] == s[i];
  }

  /** A marker occurs once in itself, and not at all in another one with the same first character. */
  lemma CountOfMarker(marker: string, m: string)
    requires IsMarker(marker) && IsMarker(m) && marker[0] == m[0] && (m == marker || !(m <= marker))
    ensures Count(marker, m) == if m == marker then 1 else 0
  {
    if m == marker {
      assert marker[|m|..] == "";
    } else {
      CountZeroIffAbsent(marker, m);
      if i :| At(marker, m, i) {
        MarkerInsideMarker(marker, m, i);
      }
    }
  }

  /** A single occurrence cuts the text into two parts without one. */
  lemma CutOnce(t: string, m: string) returns (a: string, b: string)
    requires m != "" && Count(t, m) == 1
    ensures Find(t, m) == |a| && |a| + |m| <= |t| && a == t[..|a|] && b == t[|a| + |m|..]
    ensures t == a + (m + b) && Count(a, m) == 0 && Count(b, m) == 0
  {
    FindIsFirst(t, m);
    CountZeroIffAbsent(t, m);
    FindCuts(t, m);
    AbsentInPrefix(t, m, Find(t, m));
    a, b := t[..Find(t, m)], t[Find(t, m) + |m|..];
  }

  // ---- lines

  /** s.split("\n") */
  function SplitLines(s: string): (lines: seq<string>)
    ensures |lines| >= 1
  {
    if s == "" then [""]
    else
      var rest := SplitLines(s[1..]);
      if s[0] == '\n' then [""] + rest else [[s[0]] + rest[0]] + rest[1..]
  }

  /** "\n".join(lines) */
  function Join(lines: seq<string>): string
    requires lines != []
  {
    if |lines| == 1 then lines[0] else lines[0] + ("\n" + Join(lines[1..]))
  }

  predicate OneLine(s: string) {
    '\n' !in s
  }

  lemma {:induction false} JoinOfSplit(s: string)
    ensures Join(SplitLines(s)) == s
    ensures forall k :: 0 <= k < |SplitLines(s)| ==> OneLine(SplitLines(s)[k])
  {
    if s != "" {
      JoinOfSplit(s[1..]);
      var rest := SplitLines(s[1..]);
      var lines := SplitLines(s);
      assert s == [s[0]] + s[1..];
      assert OneLine(rest[0]);
      if s[0] == '\n' {
        assert lines[1..] == rest;
      } else {
        assert lines[1..] == rest[1..];
        if |rest| > 1 {
          assert [s[0]] + (rest[0] + ("\n" + Join(rest[1..]))) == ([s[0]] + rest[0]) + ("\n" + Join(rest[1..]));
        }
      }
    }
  }

  function Prepend(c: char, lines: seq<string>): seq<string>
    requires lines != []
  {
    if c == '\n' then [""] + lines else [[c] + lines[0]] + lines[1..]
  }

  lemma SplitStep(c: char, s: string)
    ensures SplitLines([c] + s) == Prepend(c, SplitLines(s))
  {
    assert ([c] + s)[1..] == s;
  }

  lemma PrependConcat(c: char, xs: seq<string>, ys: seq<string>)
    requires xs != []
    ensures Prepend(c, xs + ys) == Prepend(c, xs) + ys
  {
  }

  /** Splitting at a newline splits the text there. */
  lemma {:induction false} SplitConcat(a: string, b: string)
    ensures SplitLines(a + ("\n" + b)) == SplitLines(a) + SplitLines(b)
    decreases |a|
  {
    if a == "" {
      assert a + ("\n" + b) == ['\n'] + b;
      SplitStep('\n', b);
    } else {
      var rest := a[1..] + ("\n" + b);
      assert a + ("\n" + b) == [a[0]] + rest && a == [a[0]] + a[1..];
      SplitConcat(a[1..], b);
      SplitStep(a[0], rest);
      SplitStep(a[0], a[1..]);
      PrependConcat(a[0], SplitLines(a[1..]), SplitLines(b));
    }
  }

  lemma {:induction false} SplitOneLine(s: string)
    requires OneLine(s)
    ensures SplitLines(s) == [s]
    decreases |s|
  {
    if s != "" {
      SplitOneLine(s[1..]);
      assert s == [s[0]] + s[1..];
    }
  }

  lemma {:induction false} SplitOfJoin(lines: seq<string>)
    requires lines != [] && forall k :: 0 <= k < |lines| ==> OneLine(lines[k])
    ensures SplitLines(Join(lines)) == lines
    decreases |lines|
  {
    SplitOneLine(lines[0]);
    if |lines| == 1 {
      assert lines == [lines[0]];
    } else {
      SplitOfJoin(lines[1..]);
      SplitConcat(lines[0], Join(lines[1..]));
      assert lines == [lines[0]] + lines[1..];
    }
  }

  function CountIn(lines: seq<string>, m: string): nat
    requires m != ""
  {
    if lines == [] then 0 else Count(lines[0], m) + CountIn(lines[1..], m)
  }

  /** A marker lies within one line. */
  lemma CountAtNewline(a: string, b: string, m: string)
    requires IsMarker(m)
    ensures Count(a + ("\n" + b), m) == Count(a, m) + Count(b, m)
  {
    NoneAcrossIntoNewline(a, "\n" + b, m);
    CountConcat(a, "\n" + b, m);
    NoneAcrossFromNewline("\n", b, m);
    CountConcat("\n", b, m);
    assert Count("\n", m) == 0 by {
      assert '\n' in "\n" && m != "\n";
    }
  }

  lemma {:induction false} CountJoin(lines: seq<string>, m: string)
    requires IsMarker(m) && lines != []
    ensures Count(Join(lines), m) == CountIn(lines, m)
    decreases |lines|
  {
    if |lines| > 1 {
      CountJoin(lines[1..], m);
      CountAtNewline(lines[0], Join(lines[1..]), m);
    }
  }
}
