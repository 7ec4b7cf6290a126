/**
 What the seven patterns recognise, written out letter by letter, and that a whole secret goes:
 the greedy matcher leaves no tail of it behind.
 */
module RedactSecrets {
  import opened Options
  import opened Redact

  // ---- the seven shapes of secrets

  predicate IsUpper(c: char) {
    'A' <= c <= 'Z'
  }

  predicate IsAlnum(c: char) {
    IsUpper(c) || 'a' <= c <= 'z' || '0' <= c <= '9'
  }

  predicate IsKeyChar(c: char) {
    IsAlnum(c) || c == '_' || c == '-'
  }

  predicate AllAlnum(s: string) {
    forall i :: 0 <= i < |s| ==> IsAlnum(s[i])
  }

  predicate AllKeyChars(s: string) {
    forall i :: 0 <= i < |s| ==> IsKeyChar(s[i])
  }

  predicate AllUpperOrDigit(s: string) {
    forall i :: 0 <= i < |s| ==> IsUpper(s[i]) || '0' <= s[i] <= '9'
  }

  predicate AllUpperOrSpace(s: string) {
    forall i :: 0 <= i < |s| ==> IsUpper(s[i]) || s[i] == ' '
  }

  predicate AllAlnumOrDash(s: string) {
    forall i :: 0 <= i < |s| ==> IsAlnum(s[i]) || s[i] == '-'
  }

  predicate IsOpenAiKey(s: string) {
    "sk-" <= s && |s| - 3 >= 16 && AllKeyChars(s[3..])
  }

  predicate IsCommandCodeKey(s: string) {
    "user_" <= s && |s| - 5 >= 40 && AllAlnum(s[5..])
  }

  predicate IsGitHubToken(s: string) {
    |s| >= 24 && s[0] == 'g' && s[1] == 'h' && s[2] in {'p', 'o', 'u', 's', 'r'} && s[3] == '_' && AllAlnum(s[4..])
  }

  predicate IsAwsKey(s: string) {
    |s| == 20 && "AKIA" <= s && AllUpperOrDigit(s[4..])
  }

  predicate IsPrivateKey(s: string) {
    "-----BEGIN " <= s && |s| >= 27 && s[|s| - 16..] == "PRIVATE KEY-----" && AllUpperOrSpace(s[11..|s| - 16])
  }

  predicate IsSlackToken(s: string) {
    |s| >= 15 && s[0] == 'x' && s[1] == 'o' && s[2] == 'x' && s[3] in {'b', 'a', 'p', 'r', 's'} && s[4] == '-'
    && AllAlnumOrDash(s[5..])
  }

  /** Three parts of at least eight characters, with a dot at i and a dot at j between them. */
  predicate IsJwtAt(s: string, i: int, j: int) {
    "eyJ" <= s && 11 <= i && i + 9 <= j && j + 9 <= |s| && s[i] == '.' && s[j] == '.'
    && AllKeyChars(s[3..i]) && AllKeyChars(s[i + 1..j]) && AllKeyChars(s[j + 1..])
  }

  ghost predicate IsJwt(s: string) {
    exists i, j :: IsJwtAt(s, i, j)
  }

  ghost predicate IsSecret(s: string) {
    IsOpenAiKey(s) || IsCommandCodeKey(s) || IsGitHubToken(s) || IsAwsKey(s) || IsPrivateKey(s) || IsSlackToken(s)
    || IsJwt(s)
  }

  // ---- the patterns recognise exactly these

  lemma LastRunLanguage(p: Pattern, s: string)
    requires |p| == 1 && p[0].Repeat?
    ensures Matches(p, s) <==> Allows(p[0], |s|) && AllIn(s, p[0].chars)
  {
    assert s[..|s|] == s && s[|s|..] == "" && p[1..] == [];
    if Allows(p[0], |s|) && AllIn(s, p[0].chars) {
      assert MatchesAfter(p, s, |s|);
    }
    if n :| 0 <= n <= |s| && MatchesAfter(p, s, n) {
      OnlyEmpty(p[1..], s[n..]);
    }
  }

  lemma OnlyEmpty(p: Pattern, s: string)
    requires p == []
    ensures Matches(p, s) <==> s == ""
  {
  }

  lemma LetterLanguage(p: Pattern, s: string)
    requires p != [] && p[0].Repeat? && p[0].min == 1 && p[0].max == Some(1)
    ensures Matches(p, s) <==> s != "" && In(s[0], p[0].chars) && Matches(p[1..], s[1..])
  {
    if s != "" && In(s[0], p[0].chars) && Matches(p[1..], s[1..]) {
      assert MatchesAfter(p, s, 1);
    }
  }

  lemma OpenAiKeyLanguage(s: string)
    ensures Matches(OpenAiKey(), s) <==> IsOpenAiKey(s)
  {
    if "sk-" <= s {
      LastRunLanguage(OpenAiKey()[1..], s[3..]);
    }
  }

  lemma CommandCodeKeyLanguage(s: string)
    ensures Matches(CommandCodeKey(), s) <==> IsCommandCodeKey(s)
  {
    if "user_" <= s {
      LastRunLanguage(CommandCodeKey()[1..], s[5..]);
    }
  }

  lemma AwsKeyLanguage(s: string)
    ensures Matches(AwsKey(), s) <==> IsAwsKey(s)
  {
    if "AKIA" <= s {
      LastRunLanguage(AwsKey()[1..], s[4..]);
    }
  }

  lemma GitHubTail(s: string)
    ensures Matches(GitHubToken()[1..], s) <==>
            |s| >= 22 && s[0] in {'p', 'o', 'u', 's', 'r'} && s[1] == '_' && AllAlnum(s[2..])
  {
    var p := GitHubToken();
    LetterLanguage(p[1..], s);
    if |s| >= 2 && s[1] == '_' {
      assert p[1..][1..][1..] == [Repeat(Alnum(""), 20, None)];
      LastRunLanguage(p[1..][1..][1..], s[1..][1..]);
      assert s[1..][1..] == s[2..];
    }
  }

  lemma GitHubTokenLanguage(s: string)
    ensures Matches(GitHubToken(), s) <==> IsGitHubToken(s)
  {
    if "gh" <= s {
      GitHubTail(s[2..]);
      if |s| >= 4 {
        assert s[2..][2..] == s[4..];
      }
    }
  }

  lemma SlackTail(s: string)
    ensures Matches(SlackToken()[1..], s) <==>
            |s| >= 12 && s[0] in {'b', 'a', 'p', 'r', 's'} && s[1] == '-' && AllAlnumOrDash(s[2..])
  {
    var p := SlackToken();
    LetterLanguage(p[1..], s);
    if |s| >= 2 && s[1] == '-' {
      assert p[1..][1..][1..] == [Repeat(Alnum("-"), 10, None)];
      LastRunLanguage(p[1..][1..][1..], s[1..][1..]);
      assert s[1..][1..] == s[2..];
    }
  }

  lemma SlackTokenLanguage(s: string)
    ensures Matches(SlackToken(), s) <==> IsSlackToken(s)
  {
    if "xox" <= s {
      SlackTail(s[3..]);
      if |s| >= 5 {
        assert s[3..][2..] == s[5..];
      }
    }
  }

  predicate TakesThen(item: Item, q: Pattern, s: string, n: int)
    requires item.Repeat?
  {
    item.min <= n <= |s| && AllIn(s[..n], item.chars) && Matches(q, s[n..])
  }

  /** A repetition without an upper bound, and then the rest of the pattern. */
  lemma RunThenRest(item: Item, q: Pattern, s: string)
    requires item.Repeat? && item.max.None?
    ensures Matches([item] + q, s) <==> exists n :: TakesThen(item, q, s, n)
  {
    var p := [item] + q;
    assert p[1..] == q;
    if n :| TakesThen(item, q, s, n) {
      assert MatchesAfter(p, s, n);
    }
    if n :| 0 <= n <= |s| && MatchesAfter(p, s, n) {
      assert TakesThen(item, q, s, n);
    }
  }

  lemma TextThenRest(t: string, q: Pattern, s: string)
    ensures Matches([Text(t)] + q, s) <==> t <= s && Matches(q, s[|t|..])
  {
    assert ([Text(t)] + q)[1..] == q;
  }

  predicate ClosesAfter(s: string, n: int) {
    0 <= n && n + 16 == |s| && s[n..] == "PRIVATE KEY-----" && AllUpperOrSpace(s[..n])
  }

  lemma PrivateKeyRest(s: string)
    ensures Matches(PrivateKey()[1..], s) <==> ClosesAfter(s, |s| - 16)
  {
    var item, closing := Repeat(Class(true, false, false, " "), 0, None), "PRIVATE KEY-----";
    assert PrivateKey()[1..] == [item] + ([Text(closing)] + []);
    RunThenRest(item, [Text(closing)] + [], s);
    forall n ensures TakesThen(item, [Text(closing)] + [], s, n) <==> ClosesAfter(s, n) {
      ClosingAfter(item, [Text(closing)] + [], s, n);
    }
  }

  lemma ClosingAfter(item: Item, q: Pattern, s: string, n: int)
    requires item == Repeat(Class(true, false, false, " "), 0, None) && q == [Text("PRIVATE KEY-----")] + []
    ensures TakesThen(item, q, s, n) <==> ClosesAfter(s, n)
  {
    if 0 <= n <= |s| {
      TextThenRest("PRIVATE KEY-----", [], s[n..]);
      OnlyEmptyAfter("PRIVATE KEY-----", s[n..]);
      assert AllUpperOrSpace(s[..n]) <==> AllIn(s[..n], item.chars);
    }
  }

  lemma OnlyEmptyAfter(t: string, s: string)
    ensures (t <= s && Matches([], s[|t|..])) <==> s == t
  {
    if t <= s && s[|t|..] == "" {
      assert s == t + s[|t|..];
    }
    if s == t {
      assert s[|t|..] == "";
    }
  }

  lemma PrivateKeyLanguage(s: string)
    ensures Matches(PrivateKey(), s) <==> IsPrivateKey(s)
  {
    assert PrivateKey() == [Text("-----BEGIN ")] + PrivateKey()[1..];
    TextThenRest("-----BEGIN ", PrivateKey()[1..], s);
    if "-----BEGIN " <= s {
      PrivateKeyRest(s[11..]);
      PrivateKeyEnds(s, 11);
    }
  }

  lemma PrivateKeyEnds(s: string, k: nat)
    requires k <= |s|
    ensures ClosesAfter(s[k..], |s| - k - 16) <==>
            |s| >= k + 16 && s[|s| - 16..] == "PRIVATE KEY-----" && AllUpperOrSpace(s[k..|s| - 16])
  {
    if |s| >= k + 16 {
      assert s[k..][|s| - k - 16..] == s[|s| - 16..] && s[k..][..|s| - k - 16] == s[k..|s| - 16];
    }
  }

  // ---- a token's parts, one after the other

  const PART := Repeat(Alnum("_-"), 8, None)

  predicate DotAfter(s: string, n: int) {
    8 <= n < |s| && s[n] == '.' && AllKeyChars(s[..n])
  }

  lemma PartThenDot(q: Pattern, s: string)
    ensures Matches([PART] + ([Text(".")] + q), s) <==> exists n :: DotAfter(s, n) && Matches(q, s[n + 1..])
  {
    RunThenRest(PART, [Text(".")] + q, s);
    forall n ensures TakesThen(PART, [Text(".")] + q, s, n) <==> DotAfter(s, n) && Matches(q, s[n + 1..]) {
      if 0 <= n <= |s| {
        TextThenRest(".", q, s[n..]);
        assert AllKeyChars(s[..n]) <==> AllIn(s[..n], PART.chars);
        if n < |s| {
          assert s[n..][1..] == s[n + 1..];
        }
      }
    }
  }

  lemma LastPart(s: string)
    ensures Matches([PART], s) <==> |s| >= 8 && AllKeyChars(s)
  {
    LastRunLanguage([PART], s);
  }

  predicate IsTwoParts(s: string, n: int) {
    DotAfter(s, n) && |s| - (n + 1) >= 8 && AllKeyChars(s[n + 1..])
  }

  lemma TwoParts(s: string)
    ensures Matches([PART] + ([Text(".")] + [PART]), s) <==> exists n :: IsTwoParts(s, n)
  {
    PartThenDot([PART], s);
    forall n | DotAfter(s, n) ensures Matches([PART], s[n + 1..]) <==> IsTwoParts(s, n) {
      LastPart(s[n + 1..]);
    }
  }

  predicate IsThreeParts(s: string, m: int, n: int) {
    DotAfter(s, m) && IsTwoParts(s[m + 1..], n)
  }

  lemma ThreeParts(q: Pattern, s: string)
    requires q == [PART] + ([Text(".")] + [PART])
    ensures Matches([PART] + ([Text(".")] + q), s) <==> exists m, n :: IsThreeParts(s, m, n)
  {
    PartThenDot(q, s);
    forall m | DotAfter(s, m) ensures Matches(q, s[m + 1..]) <==> exists n :: IsThreeParts(s, m, n) {
      TwoParts(s[m + 1..]);
      var rest := s[m + 1..];
      if n :| IsTwoParts(rest, n) {
        assert IsThreeParts(s, m, n);
      }
    }
  }

  lemma JwtForm(q: Pattern)
    requires q == [PART] + ([Text(".")] + [PART])
    ensures Jwt() == [Text("eyJ")] + ([PART] + ([Text(".")] + q))
  {
  }

  lemma JwtParts(s: string, m: int, n: int)
    requires "eyJ" <= s && IsThreeParts(s[3..], m, n)
    ensures IsJwtAt(s, m + 3, m + n + 4)
  {
    var t := s[3..];
    assert t[..m] == s[3..m + 3] && t[m + 1..] == s[m + 4..];
    assert s[m + 4..][..n] == s[m + 4..m + n + 4] && s[m + 4..][n + 1..] == s[m + n + 5..];
  }

  lemma JwtPartsBack(s: string, i: int, j: int)
    requires IsJwtAt(s, i, j)
    ensures IsThreeParts(s[3..], i - 3, j - i - 1)
  {
    var t := s[3..];
    assert t[..i - 3] == s[3..i] && t[i - 2..] == s[i + 1..];
    assert s[i + 1..][..j - i - 1] == s[i + 1..j] && s[i + 1..][j - i..] == s[j + 1..];
  }

  lemma JwtIsThreeParts(s: string)
    requires "eyJ" <= s
    ensures IsJwt(s) <==> exists m, n :: IsThreeParts(s[3..], m, n)
  {
    if m, n :| IsThreeParts(s[3..], m, n) {
      JwtParts(s, m, n);
    }
    if i, j :| IsJwtAt(s, i, j) {
      JwtPartsBack(s, i, j);
    }
  }

  lemma HeadAndThreeParts(p: Pattern, q1: Pattern, q: Pattern, s: string)
    requires p == [Text("eyJ")] + q1 && q1 == [PART] + ([Text(".")] + q) && q == [PART] + ([Text(".")] + [PART])
    ensures Matches(p, s) <==> IsJwt(s)
  {
    TextThenRest("eyJ", q1, s);
    if "eyJ" <= s {
      ThreeParts(q, s[3..]);
      JwtIsThreeParts(s);
    }
  }

  lemma JwtLanguage(s: string)
    ensures Matches(Jwt(), s) <==> IsJwt(s)
  {
    var q := [PART] + ([Text(".")] + [PART]);
    JwtForm(q);
    HeadAndThreeParts(Jwt(), [PART] + ([Text(".")] + q), q, s);
  }

  lemma SecretsAreMatches(s: string)
    ensures IsSecret(s) <==> exists k :: 0 <= k < 7 && Matches(Patterns()[k], s)
  {
    OpenAiKeyLanguage(s);
    CommandCodeKeyLanguage(s);
    GitHubTokenLanguage(s);
    AwsKeyLanguage(s);
    PrivateKeyLanguage(s);
    SlackTokenLanguage(s);
    JwtLanguage(s);
    var ps := Patterns();
    assert ps[0] == OpenAiKey() && ps[1] == CommandCodeKey() && ps[2] == GitHubToken() && ps[3] == AwsKey();
    assert ps[4] == PrivateKey() && ps[5] == SlackToken() && ps[6] == Jwt();
  }

  // ---- the matcher takes a whole secret

  lemma TakesNothing(s: string)
    ensures MatchLength([], s) == Some(0)
  {
  }

  lemma TakesText(t: string, q: Pattern, s: string, n: nat)
    requires MatchLength(q, s) == Some(n)
    ensures MatchLength([Text(t)] + q, t + s) == Some(|t| + n)
  {
    assert ([Text(t)] + q)[1..] == q && (t + s)[|t|..] == s;
  }

  lemma {:induction false} RunEndsThere(chars: Class, run: string, s: string)
    requires AllIn(run, chars) && (s != "" ==> !In(s[0], chars))
    ensures RunLength(chars, run + s) == |run|
  {
    if run == "" {
      assert run + s == s;
    } else {
      assert In(run[0], chars) && (run + s)[1..] == run[1..] + s;
      RunEndsThere(chars, run[1..], s);
    }
  }

  lemma TakesMost(item: Item, q: Pattern, run: string, s: string, n: nat)
    requires item.Repeat? && |run| >= item.min && MostTaken(item, run + s) == |run|
    requires MatchLength(q, s) == Some(n)
    ensures MatchLength([item] + q, run + s) == Some(|run| + n)
  {
    assert ([item] + q)[1..] == q && (run + s)[|run|..] == s;
  }

  /** A repetition without an upper bound takes all it can, if what follows then matches. */
  lemma TakesRun(item: Item, q: Pattern, run: string, s: string, n: nat)
    requires item.Repeat? && item.max.None? && |run| >= item.min
    requires AllIn(run, item.chars) && (s != "" ==> !In(s[0], item.chars))
    requires MatchLength(q, s) == Some(n)
    ensures MatchLength([item] + q, run + s) == Some(|run| + n)
  {
    RunEndsThere(item.chars, run, s);
    TakesMost(item, q, run, s, n);
  }

  /** A repetition with an upper bound takes that many. */
  lemma TakesBound(item: Item, q: Pattern, run: string, s: string, n: nat)
    requires item.Repeat? && item.max == Some(|run|) && |run| >= item.min
    requires AllIn(run, item.chars) && MatchLength(q, s) == Some(n)
    ensures MatchLength([item] + q, run + s) == Some(|run| + n)
  {
    assert run <= run + s;
    RunIsLongest(item.chars, run + s, run);
    TakesMost(item, q, run, s, n);
  }

  lemma SubAtSecret(p: Pattern, secret: string, rest: string)
    requires secret != "" && MatchLength(p, secret + rest) == Some(|secret|)
    ensures Sub(p, secret + rest) == "***REDACTED***" + Sub(p, rest)
  {
    assert (secret + rest)[|secret|..] == rest;
  }

  /** A fixed head and then characters of a class, as many as there are. */
  lemma HeadAndRunGo(p: Pattern, head: string, item: Item, k: string, rest: string)
    requires head != "" && item.Repeat? && item.max.None? && |k| >= item.min && p == [Text(head)] + [item]
    requires AllIn(k, item.chars) && (rest != "" ==> !In(rest[0], item.chars))
    ensures Sub(p, (head + k) + rest) == "***REDACTED***" + Sub(p, rest)
  {
    RunLengthAtEnd(item, k, rest);
    TakesText(head, [item], k + rest, |k|);
    assert (head + k) + rest == head + (k + rest);
    SubAtSecret(p, head + k, rest);
  }

  /** The key is cut off where its characters end, and all of it goes. */
  lemma OpenAiKeyGoes(k: string, rest: string)
    requires |k| >= 16 && AllKeyChars(k) && (rest != "" ==> !IsKeyChar(rest[0]))
    ensures Sub(OpenAiKey(), ("sk-" + k) + rest) == "***REDACTED***" + Sub(OpenAiKey(), rest)
  {
    HeadAndRunGo(OpenAiKey(), "sk-", Repeat(Alnum("_-"), 16, None), k, rest);
  }

  lemma CommandCodeKeyGoes(k: string, rest: string)
    requires |k| >= 40 && AllAlnum(k) && (rest != "" ==> !IsAlnum(rest[0]))
    ensures Sub(CommandCodeKey(), ("user_" + k) + rest) == "***REDACTED***" + Sub(CommandCodeKey(), rest)
  {
    HeadAndRunGo(CommandCodeKey(), "user_", Repeat(Alnum(""), 40, None), k, rest);
  }

  /** Sixteen characters, whatever follows. */
  lemma AwsKeyGoes(k: string, rest: string)
    requires |k| == 16 && AllUpperOrDigit(k)
    ensures Sub(AwsKey(), ("AKIA" + k) + rest) == "***REDACTED***" + Sub(AwsKey(), rest)
  {
    var item := Repeat(Class(true, false, true, ""), 16, Some(16));
    assert AwsKey() == [Text("AKIA")] + ([item] + []);
    TakesNothing(rest);
    TakesBound(item, [], k, rest, 0);
    TakesText("AKIA", [item] + [], k + rest, 16);
    assert ("AKIA" + k) + rest == "AKIA" + (k + rest);
    SubAtSecret(AwsKey(), "AKIA" + k, rest);
  }

  lemma RunLengthAtEnd(item: Item, k: string, rest: string)
    requires item.Repeat? && item.max.None? && |k| >= item.min
    requires AllIn(k, item.chars) && (rest != "" ==> !In(rest[0], item.chars))
    ensures MatchLength([item], k + rest) == Some(|k|)
  {
    TakesNothing(rest);
    TakesRun(item, [], k, rest, 0);
    assert [item] + [] == [item];
  }

  /** One letter of several. */
  lemma TakesLetter(letters: string, q: Pattern, c: char, s: string, n: nat)
    requires c in letters && MatchLength(q, s) == Some(n)
    ensures MatchLength([Repeat(Only(letters), 1, Some(1))] + q, [c] + s) == Some(1 + n)
  {
    TakesBound(Repeat(Only(letters), 1, Some(1)), q, [c], s, n);
  }

  lemma LetteredLength(p: Pattern, q1: Pattern, q2: Pattern, q3: Pattern, head: string, letters: string, sep: string,
                       s0: string, s1: string, c: char, s2: string, s3: string, n: nat)
    requires p == [Text(head)] + q1 && q1 == [Repeat(Only(letters), 1, Some(1))] + q2 && q2 == [Text(sep)] + q3
    requires s0 == head + s1 && s1 == [c] + s2 && s2 == sep + s3
    requires c in letters && MatchLength(q3, s3) == Some(n)
    ensures MatchLength(p, s0) == Some(|head| + 1 + |sep| + n)
  {
    LetterAndSeparatorLength(q1, q2, q3, letters, sep, s1, c, s2, s3, n);
    TakesText(head, q1, s1, 1 + |sep| + n);
  }

  lemma LetterAndSeparatorLength(q1: Pattern, q2: Pattern, q3: Pattern, letters: string, sep: string,
                                 s1: string, c: char, s2: string, s3: string, n: nat)
    requires q1 == [Repeat(Only(letters), 1, Some(1))] + q2 && q2 == [Text(sep)] + q3
    requires s1 == [c] + s2 && s2 == sep + s3 && c in letters && MatchLength(q3, s3) == Some(n)
    ensures MatchLength(q1, s1) == Some(1 + |sep| + n)
  {
    TakesText(sep, q3, s3, n);
    TakesLetter(letters, q2, c, s2, |sep| + n);
  }

  /** A head, one letter of several, a separator, and a run. */
  lemma LetteredTokenGoes(head: string, letters: string, sep: string, item: Item, p: Pattern,
                          c: char, k: string, rest: string)
    requires head != "" && c in letters && item.Repeat? && item.max.None? && |k| >= item.min
    requires p == [Text(head)] + ([Repeat(Only(letters), 1, Some(1))] + ([Text(sep)] + [item]))
    requires AllIn(k, item.chars) && (rest != "" ==> !In(rest[0], item.chars))
    ensures Sub(p, (head + [c] + sep + k) + rest) == "***REDACTED***" + Sub(p, rest)
  {
    RunLengthAtEnd(item, k, rest);
    LetteredTokenTaken(p, [item], head, letters, sep, c, k, rest, |k|);
    SubAtSecret(p, head + [c] + sep + k, rest);
  }

  lemma LetteredTokenTaken(p: Pattern, q: Pattern, head: string, letters: string, sep: string,
                           c: char, k: string, rest: string, n: nat)
    requires c in letters && p == [Text(head)] + ([Repeat(Only(letters), 1, Some(1))] + ([Text(sep)] + q))
    requires MatchLength(q, k + rest) == Some(n)
    ensures MatchLength(p, (head + [c] + sep + k) + rest) == Some(|head| + 1 + |sep| + n)
  {
    var q2 := [Text(sep)] + q;
    var q1 := [Repeat(Only(letters), 1, Some(1))] + q2;
    var s2 := sep + (k + rest);
    assert (head + [c] + sep + k) + rest == head + ([c] + s2);
    LetteredLength(p, q1, q2, q, head, letters, sep, head + ([c] + s2), [c] + s2, c, s2, k + rest, n);
  }

  lemma GitHubTokenGoes(c: char, k: string, rest: string)
    requires c in {'p', 'o', 'u', 's', 'r'} && |k| >= 20 && AllAlnum(k) && (rest != "" ==> !IsAlnum(rest[0]))
    ensures Sub(GitHubToken(), ("gh" + [c] + "_" + k) + rest) == "***REDACTED***" + Sub(GitHubToken(), rest)
  {
    LetteredTokenGoes("gh", "pousr", "_", Repeat(Alnum(""), 20, None), GitHubToken(), c, k, rest);
  }

  lemma SlackTokenGoes(c: char, k: string, rest: string)
    requires c in {'b', 'a', 'p', 'r', 's'} && |k| >= 10 && AllAlnumOrDash(k)
    requires rest != "" ==> !IsAlnum(rest[0]) && rest[0] != '-'
    ensures Sub(SlackToken(), ("xox" + [c] + "-" + k) + rest) == "***REDACTED***" + Sub(SlackToken(), rest)
  {
    LetteredTokenGoes("xox", "baprs", "-", Repeat(Alnum("-"), 10, None), SlackToken(), c, k, rest);
  }

  lemma PartAndDotLength(q: Pattern, a: string, s: string, n: nat)
    requires |a| >= 8 && AllKeyChars(a) && MatchLength(q, s) == Some(n)
    ensures MatchLength([PART] + ([Text(".")] + q), a + ("." + s)) == Some(|a| + 1 + n)
  {
    TakesText(".", q, s, n);
    TakesRun(PART, [Text(".")] + q, a, "." + s, 1 + n);
  }

  lemma ThreePartsLength(p: Pattern, q1: Pattern, q2: Pattern, q3: Pattern, a: string, b: string,
                         s0: string, s1: string, s2: string, s3: string, n: nat)
    requires p == [Text("eyJ")] + q1 && q1 == [PART] + ([Text(".")] + q2) && q2 == [PART] + ([Text(".")] + q3)
    requires s0 == "eyJ" + s1 && s1 == a + ("." + s2) && s2 == b + ("." + s3)
    requires |a| >= 8 && AllKeyChars(a) && |b| >= 8 && AllKeyChars(b) && MatchLength(q3, s3) == Some(n)
    ensures MatchLength(p, s0) == Some(3 + (|a| + 1 + (|b| + 1 + n)))
  {
    PartAndDotLength(q3, b, s3, n);
    PartAndDotLength(q2, a, s2, |b| + 1 + n);
    TakesText("eyJ", q1, s1, |a| + 1 + (|b| + 1 + n));
  }

  lemma JwtTaken(p: Pattern, q: Pattern, a: string, b: string, c: string, rest: string, n: nat)
    requires p == [Text("eyJ")] + ([PART] + ([Text(".")] + ([PART] + ([Text(".")] + q))))
    requires |a| >= 8 && AllKeyChars(a) && |b| >= 8 && AllKeyChars(b) && MatchLength(q, c + rest) == Some(n)
    ensures MatchLength(p, ("eyJ" + a + "." + b + "." + c) + rest) == Some(3 + (|a| + 1 + (|b| + 1 + n)))
  {
    var q2 := [PART] + ([Text(".")] + q);
    var q1 := [PART] + ([Text(".")] + q2);
    var s2 := b + ("." + (c + rest));
    var s1 := a + ("." + s2);
    assert ("eyJ" + a + "." + b + "." + c) + rest == "eyJ" + s1;
    ThreePartsLength(p, q1, q2, q, a, b, "eyJ" + s1, s1, s2, c + rest, n);
  }

  lemma ThreePartsGo(p: Pattern, q: Pattern, a: string, b: string, c: string, rest: string)
    requires p == [Text("eyJ")] + ([PART] + ([Text(".")] + ([PART] + ([Text(".")] + q)))) && q == [PART]
    requires |a| >= 8 && AllKeyChars(a) && |b| >= 8 && AllKeyChars(b) && |c| >= 8 && AllKeyChars(c)
    requires rest != "" ==> !IsKeyChar(rest[0])
    ensures Sub(p, ("eyJ" + a + "." + b + "." + c) + rest) == "***REDACTED***" + Sub(p, rest)
  {
    RunLengthAtEnd(PART, c, rest);
    JwtTaken(p, q, a, b, c, rest, |c|);
    SubAtSecret(p, "eyJ" + a + "." + b + "." + c, rest);
  }

  lemma JwtGoes(a: string, b: string, c: string, rest: string)
    requires |a| >= 8 && AllKeyChars(a) && |b| >= 8 && AllKeyChars(b) && |c| >= 8 && AllKeyChars(c)
    requires rest != "" ==> !IsKeyChar(rest[0])
    ensures Sub(Jwt(), ("eyJ" + a + "." + b + "." + c) + rest) == "***REDACTED***" + Sub(Jwt(), rest)
  {
    JwtForm([PART] + ([Text(".")] + [PART]));
    ThreePartsGo(Jwt(), [PART], a, b, c, rest);
  }

  /** The closing words can only begin eleven characters before the first dash. */
  lemma ClosingIsUnique(m: string, q: string, rest: string, s: string, k: nat)
    requires AllUpperOrSpace(m) && q == "PRIVATE KEY-----" && s == m + (q + rest)
    requires k + 16 <= |s| && AllUpperOrSpace(s[..k]) && s[k..k + 16] == q
    ensures k == |m|
  {
    assert s[k + 11] == s[k..k + 16][11];
    assert s[|m| + 11] == q[11];
    if k < |m| {
      DashIsNotEarlier(m, q, rest, s, k + 11);
    } else if k > |m| {
      NoDashBefore(s, q, k, |m| + 11);
    }
  }

  lemma NoDashBefore(s: string, q: string, k: nat, i: nat)
    requires q == "PRIVATE KEY-----" && k + 16 <= |s| && AllUpperOrSpace(s[..k]) && s[k..k + 16] == q && i < k + 11
    ensures s[i] != '-'
  {
    if i < k {
      assert s[..k][i] == s[i];
    } else {
      assert s[k..k + 16][i - k] == s[i];
    }
  }

  lemma DashIsNotEarlier(m: string, q: string, rest: string, s: string, i: nat)
    requires AllUpperOrSpace(m) && q == "PRIVATE KEY-----" && s == m + (q + rest) && i < |m| + 11
    ensures s[i] != '-'
  {
    if i < |m| {
      assert s[i] == m[i];
    } else {
      assert s[i] == q[i - |m|];
    }
  }

  lemma PrivateKeyTakesAll(m: string, q: string, rest: string, s: string)
    requires AllUpperOrSpace(m) && q == "PRIVATE KEY-----" && s == m + (q + rest)
    ensures MatchLength(PrivateKey()[1..], s) == Some(|m| + 16)
  {
    var p := PrivateKey()[1..];
    MatcherIsExact(p, s);
    PrivateKeyRest(s[..|m| + 16]);
    assert s[..|m| + 16][|m|..] == q && s[..|m| + 16][..|m|] == m;
    if n :| MatchLength(p, s) == Some(n) {
      PrivateKeyMatchIs(m, q, rest, s, n);
    }
  }

  lemma PrivateKeyMatchIs(m: string, q: string, rest: string, s: string, n: nat)
    requires AllUpperOrSpace(m) && q == "PRIVATE KEY-----" && s == m + (q + rest)
    requires n <= |s| && Matches(PrivateKey()[1..], s[..n])
    ensures n == |m| + 16
  {
    PrivateKeyRest(s[..n]);
    assert s[..n][n - 16..] == s[n - 16..n - 16 + 16] && s[..n][..n - 16] == s[..n - 16];
    ClosingIsUnique(m, q, rest, s, n - 16);
  }

  lemma PrivateKeyGoes(m: string, rest: string)
    requires AllUpperOrSpace(m)
    ensures Sub(PrivateKey(), ("-----BEGIN " + m + "PRIVATE KEY-----") + rest)
            == "***REDACTED***" + Sub(PrivateKey(), rest)
  {
    var s := m + ("PRIVATE KEY-----" + rest);
    PrivateKeyTakesAll(m, "PRIVATE KEY-----", rest, s);
    assert PrivateKey() == [Text("-----BEGIN ")] + PrivateKey()[1..];
    TakesText("-----BEGIN ", PrivateKey()[1..], s, |m| + 16);
    assert ("-----BEGIN " + m + "PRIVATE KEY-----") + rest == "-----BEGIN " + s;
    SubAtSecret(PrivateKey(), "-----BEGIN " + m + "PRIVATE KEY-----", rest);
  }

  // ---- the function itself

  ghost predicate HoldsSecret(text: string) {
    exists i, j :: 0 <= i <= j <= |text| && IsSecret(text[i..j])
  }

  lemma SecureIffNoSecret(text: string)
    ensures Secure(Patterns(), text) <==> !HoldsSecret(text)
  {
    assert |Patterns()| == 7;
    forall i, j | 0 <= i <= j <= |text|
      ensures IsSecret(text[i..j]) <==> exists k :: 0 <= k < 7 && Matches(Patterns()[k], text[i..j])
    {
      SecretsAreMatches(text[i..j]);
    }
  }

  /** Seven substitutions in a row; what comes out holds no secret, and what held none comes out as it went in. */
  method RedactText(input: string) returns (text: string)
    ensures var s1 := Sub(OpenAiKey(), input);
            var s2 := Sub(CommandCodeKey(), s1);
            var s3 := Sub(GitHubToken(), s2);
            var s4 := Sub(AwsKey(), s3);
            var s5 := Sub(PrivateKey(), s4);
            var s6 := Sub(SlackToken(), s5);
            text == Sub(Jwt(), s6)
    ensures !HoldsSecret(text)
    ensures text == input <==> !HoldsSecret(input)
  {
    var patterns := Patterns();
    text := input;
    for k := 0 to |patterns|
      invariant text == SubAll(patterns[..k], input)
    {
      assert patterns[..k + 1][..k] == patterns[..k];
      text := Substitute(patterns[k], text);
    }
    assert patterns[..|patterns|] == patterns;
    HerderPatternsAreSound();
    NothingLeftToRedact(patterns, input);
    ChangesOnlySecrets(patterns, input);
    SecureIffNoSecret(text);
    SecureIffNoSecret(input);
    AllSubstitutions(input, text);
  }

  lemma AllSubstitutions(input: string, text: string)
    requires text == SubAll(Patterns(), input)
    ensures var s1 := Sub(OpenAiKey(), input);
            var s2 := Sub(CommandCodeKey(), s1);
            var s3 := Sub(GitHubToken(), s2);
            var s4 := Sub(AwsKey(), s3);
            var s5 := Sub(PrivateKey(), s4);
            var s6 := Sub(SlackToken(), s5);
            text == Sub(Jwt(), s6)
  {
    var s1 := Sub(OpenAiKey(), input);
    var s2 := Sub(CommandCodeKey(), s1);
    var s3 := Sub(GitHubToken(), s2);
    var s4 := Sub(AwsKey(), s3);
    var s5 := Sub(PrivateKey(), s4);
    var s6 := Sub(SlackToken(), s5);
    SevenSubstitutions(Patterns(), input, s1, s2, s3, s4, s5, s6, Sub(Jwt(), s6));
  }

  lemma SevenSubstitutions(p: seq<Pattern>, s0: string, s1: string, s2: string, s3: string,
                           s4: string, s5: string, s6: string, s7: string)
    requires |p| == 7
    requires s1 == Sub(p[0], s0) && s2 == Sub(p[1], s1) && s3 == Sub(p[2], s2) && s4 == Sub(p[3], s3)
    requires s5 == Sub(p[4], s4) && s6 == Sub(p[5], s5) && s7 == Sub(p[6], s6)
    ensures SubAll(p, s0) == s7
  {
    OneMoreSub(p, 0, s0, s0, s1);
    OneMoreSub(p, 1, s0, s1, s2);
    OneMoreSub(p, 2, s0, s2, s3);
    OneMoreSub(p, 3, s0, s3, s4);
    OneMoreSub(p, 4, s0, s4, s5);
    OneMoreSub(p, 5, s0, s5, s6);
    OneMoreSub(p, 6, s0, s6, s7);
    assert p[..7] == p;
  }

  lemma OneMoreSub(p: seq<Pattern>, k: nat, input: string, mid: string, next: string)
    requires k < |p| && SubAll(p[..k], input) == mid && next == Sub(p[k], mid)
    ensures SubAll(p[..k + 1], input) == next
  {
    assert p[..k + 1][..k] == p[..k];
  }
}
