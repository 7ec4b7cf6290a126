/**
 Secret redaction: seven regular expressions, substituted one after the other.

 A later substitution cuts the text an earlier one has cleaned, and puts new text in. What is
 left must still match none of the seven.
 */
module Redact {
  import opened Options

  /** A character class: ranges and further characters. */
  datatype Class = Class(upper: bool, lower: bool, digit: bool, others: string)

  predicate In(c: char, chars: Class) {
    || (chars.upper && 'A' <= c <= 'Z')
    || (chars.lower && 'a' <= c <= 'z')
    || (chars.digit && '0' <= c <= '9')
    || c in chars.others
  }

  /** A fixed text, or a class repeated at least min times and, if bounded, at most max times. */
  datatype Item = Text(text: string) | Repeat(chars: Class, min: nat, max: Option<nat>)

  type Pattern = seq<Item>

  function Only(chars: string): Class {
    Class(false, false, false, chars)
  }

  function Alnum(others: string): Class {
    Class(true, true, true, others)
  }

  function OpenAiKey(): Pattern {
    [Text("sk-"), Repeat(Alnum("_-"), 16, None)]
  }

  function CommandCodeKey(): Pattern {
    [Text("user_"), Repeat(Alnum(""), 40, None)]
  }

  function GitHubToken(): Pattern {
    [Text("gh"), Repeat(Only("pousr"), 1, Some(1)), Text("_"), Repeat(Alnum(""), 20, None)]
  }

  function AwsKey(): Pattern {
    [Text("AKIA"), Repeat(Class(true, false, true, ""), 16, Some(16))]
  }

  function PrivateKey(): Pattern {
    [Text("-----BEGIN "), Repeat(Class(true, false, false, " "), 0, None), Text("PRIVATE KEY-----")]
  }

  function SlackToken(): Pattern {
    [Text("xox"), Repeat(Only("baprs"), 1, Some(1)), Text("-"), Repeat(Alnum("-"), 10, None)]
  }

  function Jwt(): Pattern {
    [Text("eyJ"), Repeat(Alnum("_-"), 8, None), Text("."), Repeat(Alnum("_-"), 8, None),
     Text("."), Repeat(Alnum("_-"), 8, None)]
  }

  function Patterns(): seq<Pattern> {
    [OpenAiKey(), CommandCodeKey(), GitHubToken(), AwsKey(), PrivateKey(), SlackToken(), Jwt()]
  }

  const REPL := "***REDACTED***"

  // ---- what a pattern means, and how the matcher finds it

  predicate Allows(item: Item, n: nat)
    requires item.Repeat?
  {
    item.min <= n && (item.max.None? || n <= item.max.value)
  }

  predicate AllIn(s: string, chars: Class) {
    forall i :: 0 <= i < |s| ==> In(s[i], chars)
  }

  /** A piece of the replacement. */
  ghost predicate FromReplacement(s: string) {
    exists i, j :: 0 <= i <= j <= |REPL| && s == REPL[i..j]
  }

  /** The whole of s is in the language of the pattern. */
  predicate Matches(p: Pattern, s: string)
    decreases |p|, 1
  {
    if p == [] then s == ""
    else if p[0].Text? then p[0].text <= s && Matches(p[1..], s[|p[0].text|..])
    else exists n :: 0 <= n <= |s| && MatchesAfter(p, s, n)
  }

  /** The first item takes exactly n characters. */
  predicate MatchesAfter(p: Pattern, s: string, n: nat)
    requires p != [] && p[0].Repeat? && n <= |s|
    decreases |p|, 0
  {
    Allows(p[0], n) && AllIn(s[..n], p[0].chars) && Matches(p[1..], s[n..])
  }

  /** How many leading characters are in the class. */
  function RunLength(chars: Class, s: string): (n: nat)
    ensures n <= |s| && AllIn(s[..n], chars)
    ensures n < |s| ==> !In(s[n], chars)
  {
    if s == "" || !In(s[0], chars) then 0 else 1 + RunLength(chars, s[1..])
  }

  lemma {:induction false} RunIsLongest(chars: Class, s: string, prefix: string)
    requires prefix <= s && AllIn(prefix, chars)
    ensures |prefix| <= RunLength(chars, s)
  {
    if prefix != "" {
      assert In(prefix[0], chars);
      RunIsLongest(chars, s[1..], prefix[1..]);
    }
  }

  /** Greedy matching with backtracking: the length of the match at the start of s, if any. */
  function MatchLength(p: Pattern, s: string): Option<nat>
    decreases |p|, |s| + 1
  {
    if p == [] then Some(0)
    else if p[0].Text? then
      if p[0].text <= s then
        match MatchLength(p[1..], s[|p[0].text|..])
        case Some(rest) => Some(|p[0].text| + rest)
        case None => None
      else None
    else Backtrack(p, s, MostTaken(p[0], s))
  }

  /** How many characters a repetition takes at first. */
  function MostTaken(item: Item, s: string): (n: nat)
    requires item.Repeat?
    ensures n <= |s|
  {
    var run := RunLength(item.chars, s);
    if item.max.Some? && item.max.value < run then item.max.value else run
  }

  /** Let the first item take n characters; if the rest then fails, try one fewer. */
  function Backtrack(p: Pattern, s: string, n: nat): Option<nat>
    requires p != [] && p[0].Repeat? && n <= |s|
    decreases |p|, n
  {
    if n < p[0].min then None
    else
      match MatchLength(p[1..], s[n..])
      case Some(rest) => Some(n + rest)
      case None => if n == 0 then None else Backtrack(p, s, n - 1)
  }

  ghost predicate NoPrefixMatches(p: Pattern, s: string) {
    forall n :: 0 <= n <= |s| ==> !Matches(p, s[..n])
  }

  /** The matcher finds a match exactly when some prefix is in the language, and what it finds is one. */
  lemma {:induction false} MatcherIsExact(p: Pattern, s: string)
    ensures match MatchLength(p, s)
            case Some(n) => n <= |s| && Matches(p, s[..n])
            case None => NoPrefixMatches(p, s)
    decreases |p|, |s| + 1
  {
    if p == [] {
      assert s[..0] == "";
    } else if p[0].Text? {
      TextIsExact(p, s);
    } else {
      var most := MostTaken(p[0], s);
      BacktrackIsExact(p, s, most);
      if MatchLength(p, s).None? {
        forall k: nat, n: nat | most < k <= n <= |s| ensures !MatchesAfter(p, s[..n], k) {
          NoneLonger(p, s, k, n);
        }
      }
    }
  }

  lemma NoneLonger(p: Pattern, s: string, k: nat, n: nat)
    requires p != [] && p[0].Repeat? && MostTaken(p[0], s) < k <= n <= |s|
    ensures !MatchesAfter(p, s[..n], k)
  {
    if AllIn(s[..n][..k], p[0].chars) {
      RunIsLongest(p[0].chars, s, s[..n][..k]);
    }
  }

  lemma SliceTail(s: string, k: nat, n: nat)
    requires k <= n <= |s|
    ensures s[..n][k..] == s[k..][..n - k]
  {
  }

  lemma TextIsExact(p: Pattern, s: string)
    requires p != [] && p[0].Text?
    ensures match MatchLength(p, s)
            case Some(n) => n <= |s| && Matches(p, s[..n])
            case None => NoPrefixMatches(p, s)
    decreases |p|, |s|
  {
    var k := |p[0].text|;
    if p[0].text <= s {
      MatcherIsExact(p[1..], s[k..]);
      forall n | k <= n <= |s| ensures s[..n][k..] == s[k..][..n - k] {
        SliceTail(s, k, n);
      }
    }
  }

  lemma {:induction false} BacktrackIsExact(p: Pattern, s: string, most: nat)
    requires p != [] && p[0].Repeat? && most <= |s| && AllIn(s[..most], p[0].chars)
    requires p[0].max.Some? ==> most <= p[0].max.value
    ensures match Backtrack(p, s, most)
            case Some(n) => n <= |s| && Matches(p, s[..n])
            case None => forall k: nat, n: nat :: k <= most && k <= n <= |s| ==> !MatchesAfter(p, s[..n], k)
    decreases |p|, most
  {
    if most >= p[0].min {
      MatcherIsExact(p[1..], s[most..]);
      match MatchLength(p[1..], s[most..])
      case Some(rest) =>
        var all := s[..most + rest];
        assert all[..most] == s[..most] && all[most..] == s[most..][..rest];
        assert MatchesAfter(p, all, most);
      case None =>
        forall n: nat | most <= n <= |s| ensures !MatchesAfter(p, s[..n], most) {
          assert s[..n][most..] == s[most..][..n - most];
        }
        if most > 0 {
          assert s[..most - 1] == s[..most][..most - 1];
          BacktrackIsExact(p, s, most - 1);
        }
    }
  }

  // ---- substitution

  /** re.sub: replace the leftmost match, go on after it. */
  function Sub(p: Pattern, text: string): string {
    if text == "" then ""
    else
      var m := MatchLength(p, text);
      if m.Some? && 0 < m.value <= |text| then REPL + Sub(p, text[m.value..])
      else [text[0]] + Sub(p, text[1..])
  }

  function SubAll(patterns: seq<Pattern>, text: string): string {
    if patterns == [] then text
    else Sub(patterns[|patterns| - 1], SubAll(patterns[..|patterns| - 1], text))
  }

  lemma Reassociate(a: string, b: string, c: string)
    ensures (a + b) + c == a + (b + c)
  {
  }

  lemma SubAtMatch(p: Pattern, out: string, text: string, i: nat, n: nat)
    requires i + n <= |text| && MatchLength(p, text[i..]) == Some(n) && n > 0
    ensures out + Sub(p, text[i..]) == (out + REPL) + Sub(p, text[i + n..])
  {
    assert text[i..][n..] == text[i + n..];
    Reassociate(out, REPL, Sub(p, text[i + n..]));
  }

  lemma SubAtOther(p: Pattern, out: string, text: string, i: nat)
    requires i < |text| && !Found(p, text[i..])
    ensures out + Sub(p, text[i..]) == (out + [text[i]]) + Sub(p, text[i + 1..])
  {
    assert text[i..][1..] == text[i + 1..];
    Reassociate(out, [text[i]], Sub(p, text[i + 1..]));
  }

  method Substitute(p: Pattern, text: string) returns (out: string)
    ensures out == Sub(p, text)
  {
    out := "";
    var i := 0;
    while i < |text|
      invariant 0 <= i <= |text|
      invariant out + Sub(p, text[i..]) == Sub(p, text)
    {
      var m := MatchLength(p, text[i..]);
      MatcherIsExact(p, text[i..]);
      if m.Some? && m.value > 0 {
        SubAtMatch(p, out, text, i, m.value);
        out := out + REPL;
        i := i + m.value;
      } else {
        SubAtOther(p, out, text, i);
        out := out + [text[i]];
        i := i + 1;
      }
    }
  }

  /** No substring is in the pattern's language. */
  ghost predicate Clean(p: Pattern, text: string) {
    forall i, j :: 0 <= i <= j <= |text| ==> !Matches(p, text[i..j])
  }

  ghost predicate Secure(patterns: seq<Pattern>, text: string) {
    forall k :: 0 <= k < |patterns| ==> Clean(patterns[k], text)
  }

  // ---- patterns that the replacement cannot feed

  predicate StarFree(item: Item) {
    if item.Text? then '*' !in item.text else !In('*', item.chars)
  }

  predicate IsStarFree(p: Pattern) {
    forall k :: 0 <= k < |p| ==> StarFree(p[k])
  }

  /** No star anywhere, and no match inside the replacement, not even an empty one. */
  ghost predicate Sound(p: Pattern) {
    IsStarFree(p) && Clean(p, REPL)
  }

  lemma {:induction false} MatchHasNoStar(p: Pattern, s: string)
    requires Matches(p, s) && IsStarFree(p)
    ensures '*' !in s
    decreases |p|
  {
    if p != [] {
      assert StarFree(p[0]);
      if p[0].Text? {
        MatchHasNoStar(p[1..], s[|p[0].text|..]);
        assert s == p[0].text + s[|p[0].text|..];
      } else {
        var n :| 0 <= n <= |s| && MatchesAfter(p, s, n);
        MatchHasNoStar(p[1..], s[n..]);
        assert s == s[..n] + s[n..];
      }
    }
  }

  /** A match is never empty and never a piece of the replacement. */
  lemma MatchIsNoReplacement(p: Pattern, s: string)
    requires Sound(p) && Matches(p, s)
    ensures s != "" && '*' !in s && !FromReplacement(s)
  {
    MatchHasNoStar(p, s);
    assert !Matches(p, REPL[0..0]);
  }

  // ---- where a star-free piece of the output comes from

  lemma {:induction false} KeptPrefix(p: Pattern, t: string, m: nat)
    requires m <= |Sub(p, t)| && '*' !in Sub(p, t)[..m]
    ensures m <= |t| && Sub(p, t)[..m] == t[..m]
    decreases |t|
  {
    if m > 0 {
      assert Sub(p, t)[..m][0] != '*';
      assert Sub(p, t) == [t[0]] + Sub(p, t[1..]);
      assert Sub(p, t)[..m] == [t[0]] + Sub(p, t[1..])[..m - 1];
      KeptPrefix(p, t[1..], m - 1);
    }
  }

  ghost predicate IsKept(p: Pattern, t: string, w: string, a: nat) {
    a + |w| <= |t| && t[a..a + |w|] == w && a < |t| && !Found(p, t[a..])
  }

  predicate Found(p: Pattern, t: string) {
    MatchLength(p, t).Some? && 0 < MatchLength(p, t).value <= |t|
  }

  lemma SliceShift(head: string, rest: string, i: nat, j: nat)
    requires |head| <= i <= j <= |head + rest|
    ensures (head + rest)[i..j] == rest[i - |head|..j - |head|]
  {
  }

  ghost predicate IsPiece(p: Pattern, t: string, w: string) {
    FromReplacement(w) || exists a: nat :: IsKept(p, t, w, a)
  }

  lemma PieceFurtherOn(p: Pattern, t: string, n: nat, w: string)
    requires n <= |t| && IsPiece(p, t[n..], w)
    ensures IsPiece(p, t, w)
  {
    KeptFurtherOn(p, t, n, w);
  }

  /** It is a piece of the replacement, or a piece of the input where no match begins. */
  lemma {:induction false} StarFreePiece(p: Pattern, t: string, i: nat, j: nat)
    requires i < j <= |Sub(p, t)| && '*' !in Sub(p, t)[i..j]
    ensures IsPiece(p, t, Sub(p, t)[i..j])
    decreases |t|, 1
  {
    if Found(p, t) {
      var n := MatchLength(p, t).value;
      PieceAfterMatch(p, t, n, Sub(p, t[n..]), i, j);
    } else if i == 0 {
      KeptFromStart(p, t, j);
    } else {
      SliceShift([t[0]], Sub(p, t[1..]), i, j);
      StarFreePiece(p, t[1..], i - 1, j - 1);
      PieceFurtherOn(p, t, 1, Sub(p, t)[i..j]);
    }
  }

  lemma PieceAfterMatch(p: Pattern, t: string, n: nat, rest: string, i: nat, j: nat)
    requires 0 < n <= |t| && rest == Sub(p, t[n..])
    requires i < j <= |REPL + rest| && '*' !in (REPL + rest)[i..j]
    ensures IsPiece(p, t, (REPL + rest)[i..j])
    decreases |t|, 0
  {
    if i >= |REPL| {
      SliceShift(REPL, rest, i, j);
      StarFreePiece(p, t[n..], i - |REPL|, j - |REPL|);
      PieceFurtherOn(p, t, n, (REPL + rest)[i..j]);
    } else {
      InsideReplacement(rest, i, j);
    }
  }

  lemma KeptFromStart(p: Pattern, t: string, j: nat)
    requires 0 < j <= |Sub(p, t)| && !Found(p, t) && '*' !in Sub(p, t)[0..j]
    ensures IsKept(p, t, Sub(p, t)[0..j], 0)
  {
    assert Sub(p, t)[0..j] == Sub(p, t)[..j];
    KeptPrefix(p, t, j);
    assert t[0..] == t;
  }

  lemma KeptFurtherOn(p: Pattern, t: string, n: nat, w: string)
    requires n <= |t|
    ensures (exists a: nat :: IsKept(p, t[n..], w, a)) ==> exists a: nat :: IsKept(p, t, w, a)
  {
    if a: nat :| IsKept(p, t[n..], w, a) {
      assert t[n..][a..a + |w|] == t[n + a..n + a + |w|] && t[n..][a..] == t[n + a..];
      assert IsKept(p, t, w, n + a);
    }
  }

  lemma InsideReplacement(rest: string, i: nat, j: nat)
    requires i < |REPL| && i < j <= |REPL + rest|
    ensures '*' in (REPL + rest)[i..j] || FromReplacement((REPL + rest)[i..j])
  {
    var out := REPL + rest;
    var last := |REPL| - 1;
    if j > last {
      assert out[i..j][last - i] == '*';
    } else {
      assert out[i..j] == REPL[i..j];
    }
  }

  lemma KeptIsNoMatch(p: Pattern, t: string, w: string, a: nat)
    requires Sound(p) && IsKept(p, t, w, a)
    ensures !Matches(p, w)
  {
    NoMatchBegins(p, t[a..], |w|);
    assert t[a..][..|w|] == w;
  }

  /** Substituting a pattern leaves no match of it. */
  lemma SubCleans(p: Pattern, t: string)
    requires Sound(p)
    ensures Clean(p, Sub(p, t))
  {
    var out := Sub(p, t);
    forall i, j | 0 <= i <= j <= |out| ensures !Matches(p, out[i..j]) {
      if Matches(p, out[i..j]) {
        MatchIsNoReplacement(p, out[i..j]);
        StarFreePiece(p, t, i, j);
        var a: nat :| IsKept(p, t, out[i..j], a);
        KeptIsNoMatch(p, t, out[i..j], a);
      }
    }
  }

  lemma NoMatchBegins(p: Pattern, s: string, n: nat)
    requires Sound(p) && !Found(p, s) && n <= |s|
    ensures !Matches(p, s[..n])
  {
    MatcherIsExact(p, s);
    assert s[..0] == "";
    if Matches(p, "") {
      MatchIsNoReplacement(p, "");
    }
  }

  /** It creates no match of another pattern either. */
  lemma SubKeepsClean(p: Pattern, q: Pattern, t: string)
    requires Sound(q) && Clean(q, t)
    ensures Clean(q, Sub(p, t))
  {
    var out := Sub(p, t);
    forall i, j | 0 <= i <= j <= |out| ensures !Matches(q, out[i..j]) {
      if Matches(q, out[i..j]) {
        MatchIsNoReplacement(q, out[i..j]);
        StarFreePiece(p, t, i, j);
      }
    }
  }

  lemma LastSubSecures(patterns: seq<Pattern>, mid: string)
    requires patterns != [] && forall k :: 0 <= k < |patterns| ==> Sound(patterns[k])
    requires Secure(patterns[..|patterns| - 1], mid)
    ensures Secure(patterns, Sub(patterns[|patterns| - 1], mid))
  {
    var n := |patterns| - 1;
    SubCleans(patterns[n], mid);
    forall k | 0 <= k < n ensures Clean(patterns[k], Sub(patterns[n], mid)) {
      assert patterns[..n][k] == patterns[k];
      SubKeepsClean(patterns[n], patterns[k], mid);
    }
  }

  /** After all substitutions no substring of the text matches any of the patterns. */
  lemma {:induction false} NothingLeftToRedact(patterns: seq<Pattern>, text: string)
    requires forall k :: 0 <= k < |patterns| ==> Sound(patterns[k])
    ensures Secure(patterns, SubAll(patterns, text))
  {
    if patterns != [] {
      var n := |patterns| - 1;
      NothingLeftToRedact(patterns[..n], text);
      LastSubSecures(patterns, SubAll(patterns[..n], text));
    }
  }

  lemma CleanTail(p: Pattern, t: string)
    requires Clean(p, t) && t != ""
    ensures Clean(p, t[1..]) && MatchLength(p, t).None?
  {
    forall i, j | 0 <= i <= j <= |t[1..]| ensures !Matches(p, t[1..][i..j]) {
      assert t[1..][i..j] == t[i + 1..j + 1];
    }
    MatcherIsExact(p, t);
    assert forall n :: 0 <= n <= |t| ==> t[0..n] == t[..n];
  }

  lemma {:induction false} CleanIsFixed(p: Pattern, t: string)
    requires Clean(p, t)
    ensures Sub(p, t) == t
    decreases |t|
  {
    if t != "" {
      CleanTail(p, t);
      CleanIsFixed(p, t[1..]);
    }
  }

  lemma {:induction false} SecureIsFixed(patterns: seq<Pattern>, t: string)
    requires Secure(patterns, t)
    ensures SubAll(patterns, t) == t
  {
    if patterns != [] {
      var n := |patterns| - 1;
      SecureIsFixed(patterns[..n], t);
      CleanIsFixed(patterns[n], t);
    }
  }

  /** A text is left alone exactly when it holds no secret. */
  lemma ChangesOnlySecrets(patterns: seq<Pattern>, text: string)
    requires forall k :: 0 <= k < |patterns| ==> Sound(patterns[k])
    ensures SubAll(patterns, text) == text <==> Secure(patterns, text)
  {
    NothingLeftToRedact(patterns, text);
    if Secure(patterns, text) {
      SecureIsFixed(patterns, text);
    }
  }

  /** Redacting twice is redacting once. */
  lemma RedactIdempotent(patterns: seq<Pattern>, text: string)
    requires forall k :: 0 <= k < |patterns| ==> Sound(patterns[k])
    ensures SubAll(patterns, SubAll(patterns, text)) == SubAll(patterns, text)
  {
    NothingLeftToRedact(patterns, text);
    SecureIsFixed(patterns, SubAll(patterns, text));
  }

  // ---- what a substitution keeps

  datatype Piece = Kept(c: char) | Secret(s: string)

  function Original(pieces: seq<Piece>): string {
    if pieces == [] then ""
    else (if pieces[0].Kept? then [pieces[0].c] else pieces[0].s) + Original(pieces[1..])
  }

  function Redacted(pieces: seq<Piece>): string {
    if pieces == [] then ""
    else (if pieces[0].Kept? then [pieces[0].c] else REPL) + Redacted(pieces[1..])
  }

  lemma CutAt(t: string, n: nat)
    requires n <= |t|
    ensures t == t[..n] + t[n..] && (n == 1 ==> t[..n] == [t[0]])
  {
  }

  /** Only matches are replaced; every other character stays, in its place. */
  lemma {:induction false} SubReplacesMatchesOnly(p: Pattern, t: string) returns (pieces: seq<Piece>)
    ensures Original(pieces) == t && Redacted(pieces) == Sub(p, t)
    ensures forall k :: 0 <= k < |pieces| && pieces[k].Secret? ==> Matches(p, pieces[k].s)
    decreases |t|
  {
    if t == "" {
      pieces := [];
    } else {
      MatcherIsExact(p, t);
      var n := if Found(p, t) then MatchLength(p, t).value else 1;
      var rest := SubReplacesMatchesOnly(p, t[n..]);
      pieces := [if Found(p, t) then Secret(t[..n]) else Kept(t[0])] + rest;
      assert pieces[1..] == rest;
      CutAt(t, n);
    }
  }

  // ---- no weaker condition will do

  predicate ReplacementAt(t: string, a: int) {
    0 <= a && a + |REPL| <= |t| && t[a..a + |REPL|] == REPL
  }

  ghost predicate HoldsReplacement(t: string) {
    exists a :: ReplacementAt(t, a)
  }

  lemma ReplacementFurtherOn(head: string, t: string)
    requires HoldsReplacement(t)
    ensures HoldsReplacement(head + t)
  {
    var a :| ReplacementAt(t, a);
    assert (head + t)[|head| + a..|head| + a + |REPL|] == t[a..a + |REPL|];
    assert ReplacementAt(head + t, |head| + a);
  }

  lemma ReplacementFirst(t: string)
    ensures HoldsReplacement(REPL + t)
  {
    assert ReplacementAt(REPL + t, 0);
  }

  /** A substitution changes nothing, or leaves a replacement behind. */
  lemma {:induction false} SubLeavesReplacement(p: Pattern, t: string)
    ensures Sub(p, t) == t || HoldsReplacement(Sub(p, t))
    decreases |t|
  {
    if Found(p, t) {
      ReplacementFirst(Sub(p, t[MatchLength(p, t).value..]));
    } else if t != "" {
      SubLeavesReplacement(p, t[1..]);
      if HoldsReplacement(Sub(p, t[1..])) {
        ReplacementFurtherOn([t[0]], Sub(p, t[1..]));
      }
    }
  }

  lemma {:induction false} SubAllLeavesReplacement(patterns: seq<Pattern>, text: string)
    ensures SubAll(patterns, text) == text || HoldsReplacement(SubAll(patterns, text))
  {
    if patterns != [] {
      var n := |patterns| - 1;
      SubAllLeavesReplacement(patterns[..n], text);
      SubLeavesReplacement(patterns[n], SubAll(patterns[..n], text));
    }
  }

  lemma SliceOfSlice(t: string, a: nat, b: nat, i: nat, j: nat)
    requires a <= b <= |t| && i <= j <= b - a
    ensures t[a..b][i..j] == t[a + i..a + j]
  {
    var piece := t[a..b];
    forall k | 0 <= k < j - i ensures piece[i..j][k] == t[a + i..a + j][k] {
      assert piece[i..j][k] == piece[i + k] == t[a + (i + k)];
    }
    assert |piece[i..j]| == |t[a + i..a + j]|;
  }

  lemma ReplacementSpoils(p: Pattern, t: string, i: nat, j: nat)
    requires i <= j <= |REPL| && Matches(p, REPL[i..j])
    requires t == REPL[i..j] || HoldsReplacement(t)
    ensures !Clean(p, t)
  {
    if t == REPL[i..j] {
      assert t[0..|t|] == t;
    } else {
      var a: nat :| ReplacementAt(t, a);
      SliceOfSlice(t, a, a + |REPL|, i, j);
    }
  }

  lemma UnsoundLeavesMatch(patterns: seq<Pattern>, k: nat) returns (text: string)
    requires k < |patterns| && !Clean(patterns[k], REPL)
    ensures !Secure(patterns, SubAll(patterns, text))
  {
    var i, j :| 0 <= i <= j <= |REPL| && Matches(patterns[k], REPL[i..j]);
    text := REPL[i..j];
    SubAllLeavesReplacement(patterns, text);
    var out := SubAll(patterns, text);
    ReplacementSpoils(patterns[k], out, i, j);
    assert !Secure(patterns, out);
  }

  /** For star-free patterns: every text comes out clean exactly when none matches inside the replacement. */
  lemma NothingLeftIffSound(patterns: seq<Pattern>)
    requires forall k :: 0 <= k < |patterns| ==> IsStarFree(patterns[k])
    ensures (forall text :: Secure(patterns, SubAll(patterns, text)))
            <==> forall k :: 0 <= k < |patterns| ==> Sound(patterns[k])
  {
    if k: nat :| k < |patterns| && !Sound(patterns[k]) {
      var text := UnsoundLeavesMatch(patterns, k);
    } else {
      forall text ensures Secure(patterns, SubAll(patterns, text)) {
        NothingLeftToRedact(patterns, text);
      }
    }
  }

  // ---- the seven patterns

  /** A leading text with a letter that the replacement lacks is enough. */
  lemma ForeignLetterIsSound(p: Pattern, i: nat)
    requires IsStarFree(p) && p != [] && p[0].Text? && i < |p[0].text| && p[0].text[i] !in REPL
    ensures Sound(p)
  {
    forall a, b | 0 <= a <= b <= |REPL| ensures !Matches(p, REPL[a..b]) {
      MatchHoldsLetter(p, i, REPL[a..b]);
      if i < b - a {
        SliceMember(REPL, a, b, i);
      }
    }
  }

  lemma SliceMember(t: string, a: nat, b: nat, k: nat)
    requires a <= b <= |t| && k < b - a
    ensures t[a..b][k] in t
  {
    assert t[a..b][k] == t[a + k];
  }

  lemma MatchHoldsLetter(p: Pattern, i: nat, s: string)
    requires p != [] && p[0].Text? && i < |p[0].text|
    ensures Matches(p, s) ==> i < |s| && s[i] == p[0].text[i]
  {
  }

  lemma OpenAiKeySound()
    ensures Sound(OpenAiKey())
  {
    ForeignLetterIsSound(OpenAiKey(), 0);
  }

  lemma CommandCodeKeySound()
    ensures Sound(CommandCodeKey())
  {
    ForeignLetterIsSound(CommandCodeKey(), 0);
  }

  lemma GitHubTokenSound()
    ensures Sound(GitHubToken())
  {
    ForeignLetterIsSound(GitHubToken(), 0);
  }

  lemma AwsKeySound()
    ensures Sound(AwsKey())
  {
    ForeignLetterIsSound(AwsKey(), 1);
  }

  lemma PrivateKeySound()
    ensures Sound(PrivateKey())
  {
    ForeignLetterIsSound(PrivateKey(), 0);
  }

  lemma SlackTokenSound()
    ensures Sound(SlackToken())
  {
    ForeignLetterIsSound(SlackToken(), 0);
  }

  lemma JwtSound()
    ensures Sound(Jwt())
  {
    ForeignLetterIsSound(Jwt(), 0);
  }

  lemma HerderPatternsAreSound()
    ensures forall k :: 0 <= k < |Patterns()| ==> Sound(Patterns()[k])
  {
    OpenAiKeySound();
    CommandCodeKeySound();
    GitHubTokenSound();
    AwsKeySound();
    PrivateKeySound();
    SlackTokenSound();
    JwtSound();
  }
}
