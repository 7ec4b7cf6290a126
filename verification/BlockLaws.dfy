/** The managed block as a map from agents to lines: what writes keep, change and repeat. */
module BlockLaws {
  import opened Options
  import opened Text
  import opened ManagedBlock

  // ---- reading the map

  function FirstWith(lines: seq<string>, prefix: string): Option<string> {
    if lines == [] then None
    else if prefix <= lines[0] then Some(lines[0])
    else FirstWith(lines[1..], prefix)
  }

  /** The lines that belong to other agents, or to nobody. */
  function Others(lines: seq<string>, prefix: string): seq<string> {
    if lines == [] then []
    else (if prefix <= lines[0] then [] else [lines[0]]) + Others(lines[1..], prefix)
  }

  function BlockLines(st: Style, t: string): seq<string>
    requires HasBlock(st, t)
  {
    SplitLines(SplitBlock(st, t).body)
  }

  function FileLines(st: Style, file: Option<string>): seq<string> {
    if NeedsBlock(st, file) then [] else BlockLines(st, file.value)
  }

  function Lookup(st: Style, file: Option<string>, agent: string): Option<string> {
    FirstWith(FileLines(st, file), Prefix(agent))
  }

  predicate ValidFile(st: Style, file: Option<string>) {
    file.None? || ValidateBlock(st, file.value)
  }

  // ---- lines: replace or insert

  lemma {:induction false} FirstWithConcat(xs: seq<string>, ys: seq<string>, p: string)
    ensures FirstWith(xs + ys, p) == if FirstWith(xs, p).Some? then FirstWith(xs, p) else FirstWith(ys, p)
  {
    if xs == [] {
      assert xs + ys == ys;
    } else {
      assert (xs + ys)[1..] == xs[1..] + ys;
      FirstWithConcat(xs[1..], ys, p);
    }
  }

  lemma {:induction false} OthersConcat(xs: seq<string>, ys: seq<string>, p: string)
    ensures Others(xs + ys, p) == Others(xs, p) + Others(ys, p)
  {
    if xs == [] {
      assert xs + ys == ys;
    } else {
      assert (xs + ys)[1..] == xs[1..] + ys;
      OthersConcat(xs[1..], ys, p);
    }
  }

  lemma {:induction false} FirstWithUnseen(lines: seq<string>, p: string)
    ensures FirstWith(lines, p).None? <==> !Seen(lines, p)
    ensures !Seen(lines, p) ==> Others(lines, p) == lines
  {
    if lines != [] {
      FirstWithUnseen(lines[1..], p);
      assert Seen(lines, p) <==> p <= lines[0] || Seen(lines[1..], p) by {
        if k :| 0 <= k < |lines[1..]| && p <= lines[1..][k] {
          assert p <= lines[k + 1];
        }
        if k :| 0 <= k < |lines| && p <= lines[k] {
          assert k > 0 ==> lines[1..][k - 1] == lines[k];
        }
      }
      assert lines == [lines[0]] + lines[1..];
    }
  }

  lemma {:induction false} ReplacedLaws(lines: seq<string>, p: string, e: string, q: string)
    requires p <= e
    ensures FirstWith(Replaced(lines, p, e), p) == if FirstWith(lines, p).Some? then Some(e) else None
    ensures Others(Replaced(lines, p, e), p) == Others(lines, p)
    ensures !(q <= e) && Incomparable(p, q) ==> FirstWith(Replaced(lines, p, e), q) == FirstWith(lines, q)
  {
    if lines != [] {
      assert Replaced(lines, p, e)[1..] == Replaced(lines[1..], p, e);
      ReplacedLaws(lines[1..], p, e, q);
      BothPrefixes(lines[0], p, q);
    }
  }

  predicate Incomparable(p: string, q: string) {
    !(p <= q) && !(q <= p)
  }

  lemma BothPrefixes(line: string, p: string, q: string)
    ensures p <= line && q <= line ==> !Incomparable(p, q)
  {
    if p <= line && q <= line {
      if |p| <= |q| {
        assert q[..|p|] == line[..|q|][..|p|] == line[..|p|];
      } else {
        assert p[..|q|] == line[..|p|][..|q|] == line[..|q|];
      }
    }
  }

  lemma SeenEntryLaws(lines: seq<string>, p: string, e: string, q: string)
    requires p <= e && Seen(lines, p)
    ensures FirstWith(WithEntry(lines, p, e), p) == Some(e)
    ensures Others(WithEntry(lines, p, e), p) == Others(lines, p)
    ensures !(q <= e) && Incomparable(p, q) ==> FirstWith(WithEntry(lines, p, e), q) == FirstWith(lines, q)
  {
    FirstWithUnseen(lines, p);
    ReplacedLaws(lines, p, e, q);
  }

  lemma NewEntryLaws(lines: seq<string>, p: string, e: string, q: string)
    requires p <= e && !Seen(lines, p)
    ensures FirstWith(WithEntry(lines, p, e), p) == Some(e)
    ensures Others(WithEntry(lines, p, e), p) == Others(lines, p)
    ensures !(q <= e) ==> FirstWith(WithEntry(lines, p, e), q) == FirstWith(lines, q)
  {
    FirstWithUnseen(lines, p);
    var xs, ys := lines[..InsertAt(lines)], lines[InsertAt(lines)..];
    assert lines == xs + ys;
    InsertedLaws(xs, ys, p, e, q);
  }

  /** The agent's own line is the entry; all other lines stay, in their order. */
  lemma EntryLaws(lines: seq<string>, p: string, e: string, q: string)
    requires p <= e
    ensures FirstWith(WithEntry(lines, p, e), p) == Some(e)
    ensures Others(WithEntry(lines, p, e), p) == Others(lines, p)
    ensures Incomparable(p, q) ==> FirstWith(WithEntry(lines, p, e), q) == FirstWith(lines, q)
  {
    BothPrefixes(e, p, q);
    if Seen(lines, p) {
      SeenEntryLaws(lines, p, e, q);
    } else {
      NewEntryLaws(lines, p, e, q);
    }
  }

  lemma InsertedLaws(xs: seq<string>, ys: seq<string>, p: string, e: string, q: string)
    requires p <= e && FirstWith(xs + ys, p).None?
    ensures FirstWith(xs + [e] + ys, p) == Some(e)
    ensures Others(xs + [e] + ys, p) == Others(xs + ys, p)
    ensures !(q <= e) ==> FirstWith(xs + [e] + ys, q) == FirstWith(xs + ys, q)
  {
    FirstWithConcat(xs, ys, p);
    FirstWithConcat(xs, ys, q);
    FirstWithConcat(xs + [e], ys, p);
    FirstWithConcat(xs + [e], ys, q);
    FirstWithConcat(xs, [e], p);
    FirstWithConcat(xs, [e], q);
    OthersConcat(xs, ys, p);
    OthersConcat(xs + [e], ys, p);
    OthersConcat(xs, [e], p);
  }

  /** The new lines are old ones and the entry, which is among them. */
  lemma EntryMembers(lines: seq<string>, p: string, e: string)
    ensures forall k :: 0 <= k < |WithEntry(lines, p, e)| ==>
              WithEntry(lines, p, e)[k] == e || WithEntry(lines, p, e)[k] in lines
    ensures e in WithEntry(lines, p, e)
  {
    var updated := WithEntry(lines, p, e);
    if Seen(lines, p) {
      var k :| 0 <= k < |lines| && p <= lines[k];
      assert updated[k] == e;
    } else {
      assert updated[InsertAt(lines)] == e;
    }
  }

  /** A second time there is nothing to replace or insert. */
  lemma EntryTwice(lines: seq<string>, p: string, e: string)
    requires p <= e
    ensures WithEntry(WithEntry(lines, p, e), p, e) == WithEntry(lines, p, e)
  {
    var updated := WithEntry(lines, p, e);
    EntryMembers(lines, p, e);
    var k :| 0 <= k < |updated| && updated[k] == e;
    assert Seen(updated, p);
    forall i | 0 <= i < |updated| ensures p <= updated[i] ==> updated[i] == e {
      if !Seen(lines, p) {
        var at := InsertAt(lines);
        assert i != at ==> updated[i] == lines[if i < at then i else i - 1];
      }
    }
    assert Replaced(updated, p, e) == updated;
  }

  // ---- names without stars

  lemma StarFreePrefixes(a: string, b: string)
    requires '*' !in a && '*' !in b && a != b
    ensures Incomparable(Prefix(a), Prefix(b))
  {
    StarFreeNotPrefix(a, b);
    StarFreeNotPrefix(b, a);
  }

  lemma StarFreeNotPrefix(a: string, b: string)
    requires '*' !in a && '*' !in b && a != b
    ensures !(Prefix(a) <= Prefix(b))
  {
    var p, q := Prefix(a), Prefix(b);
    PrefixChars(a);
    PrefixChars(b);
    if |a| == |b| {
      var k :| 0 <= k < |a| && a[k] != b[k];
      assert p[k + 4] != q[k + 4];
    } else {
      var k := if |a| < |b| then |a| else |b|;
      assert p[k + 4] != q[k + 4];
    }
  }

  lemma PrefixChars(a: string)
    ensures |Prefix(a)| == |a| + 7 && Prefix(a)[|a| + 4] == '*'
    ensures forall k :: 0 <= k < |a| ==> Prefix(a)[k + 4] == a[k]
  {
  }

  // ---- markers in the new lines

  lemma {:induction false} CountInZero(lines: seq<string>, m: string)
    requires m != ""
    ensures CountIn(lines, m) == 0 <==> forall k :: 0 <= k < |lines| ==> Count(lines[k], m) == 0
  {
    if lines != [] {
      CountInZero(lines[1..], m);
      assert (forall k :: 0 <= k < |lines| ==> Count(lines[k], m) == 0) <==>
          Count(lines[0], m) == 0 && forall k :: 0 <= k < |lines[1..]| ==> Count(lines[1..][k], m) == 0 by {
        assert forall k :: 0 <= k < |lines[1..]| ==> lines[1..][k] == lines[k + 1];
      }
    }
  }

  /** Writing an entry brings in a marker exactly when the entry holds one. */
  lemma MarkerInNewBody(m: string, body: string, p: string, e: string)
    requires IsMarker(m) && Count(body, m) == 0
    ensures WithEntry(SplitLines(body), p, e) != []
    ensures Count(Join(WithEntry(SplitLines(body), p, e)), m) == 0 <==> Count(e, m) == 0
  {
    var lines := SplitLines(body);
    EntryMembers(lines, p, e);
    JoinOfSplit(body);
    CountJoin(lines, m);
    CountInZero(lines, m);
    CountJoin(WithEntry(lines, p, e), m);
    CountInZero(WithEntry(lines, p, e), m);
  }

  lemma FramedCount(text: string, m: string)
    requires IsMarker(m)
    ensures Count(Framed(text), m) == Count(text, m)
  {
    assert text + "\n" == text + ("\n" + "");
    CountAtNewline(text, "", m);
    assert Framed(text) == "" + ("\n" + (text + "\n"));
    CountAtNewline("", text + "\n", m);
  }

  lemma AppendedCount(t: string, m: string)
    requires IsMarker(m)
    ensures Count(t + (Separator(t) + "\n"), m) == Count(t, m)
    ensures Count("\n", m) == 0
  {
    CountAtNewline("", "", m);
    assert "" + ("\n" + "") == "\n" && "\n" + "" == "\n";
    CountAtNewline(t, "", m);
    CountAtNewline(t, "\n", m);
    assert Separator(t) == "" ==> Separator(t) + "\n" == "\n" + "";
  }

  lemma NewBlockIsCleanIff(st: Style, file: Option<string>, text: string)
    requires ValidFile(st, file) && NeedsBlock(st, file)
    ensures CleanParts(st, Appended(file, Framed(text))) <==> MarkerFree(st, text)
  {
    FramedCount(text, st.start);
    FramedCount(text, st.end);
    var t := if file.Some? then file.value else "";
    AppendedCount(t, st.start);
    AppendedCount(t, st.end);
    if file.Some? {
      FindIsFirst(t, st.start);
      CountZeroIffAbsent(t, st.start);
    }
  }

  /** The written file validates exactly when the entry holds no marker. */
  lemma CheatsheetKeepsValidIff(st: Style, file: Option<string>, agent: string, usage: string)
    requires ValidFile(st, file)
    ensures Cheatsheet(st, file, agent, usage).Some?
    ensures ValidFile(st, Cheatsheet(st, file, agent, usage)) <==> MarkerFree(st, BuildLine(agent, usage))
    ensures CleanParts(st, CheatsheetParts(st, file, agent, usage)) <==> MarkerFree(st, BuildLine(agent, usage))
  {
    AssembledIsValidIff(st, CheatsheetParts(st, file, agent, usage));
    if NeedsBlock(st, file) {
      NewBlockIsCleanIff(st, file, BuildLine(agent, usage));
    } else {
      ValidFileIsItsParts(st, file.value);
      var body := SplitBlock(st, file.value).body;
      MarkerInNewBody(st.start, body, Prefix(agent), BuildLine(agent, usage));
      MarkerInNewBody(st.end, body, Prefix(agent), BuildLine(agent, usage));
    }
  }

  // ---- one write, seen through the block

  predicate GoodEntry(st: Style, agent: string, usage: string) {
    OneLine(agent) && OneLine(usage) && MarkerFree(st, BuildLine(agent, usage))
  }

  lemma EntryIsOneLine(agent: string, usage: string)
    ensures OneLine(BuildLine(agent, usage)) <==> OneLine(agent) && OneLine(usage)
    ensures Prefix(agent) <= BuildLine(agent, usage)
  {
    var e := BuildLine(agent, usage);
    assert forall k :: 0 <= k < |agent| ==> e[k + 4] == agent[k];
    assert forall k :: 0 <= k < |usage| ==> e[k + |agent| + 9] == usage[k];
  }

  lemma FramedLines(text: string)
    ensures SplitLines(Framed(text)) == [""] + (SplitLines(text) + [""])
  {
    assert Framed(text) == "" + ("\n" + (text + ("\n" + "")));
    SplitConcat("", text + ("\n" + ""));
    SplitConcat(text, "");
  }

  lemma FramedEntryLines(e: string)
    requires OneLine(e)
    ensures SplitLines(Framed(e)) == ["", e, ""]
  {
    FramedLines(e);
    SplitOneLine(e);
  }

  lemma NewBodyLines(body: string, agent: string, usage: string)
    requires OneLine(agent) && OneLine(usage)
    ensures SplitLines(Join(NewLines(body, agent, usage))) == NewLines(body, agent, usage)
  {
    var lines := SplitLines(body);
    JoinOfSplit(body);
    EntryIsOneLine(agent, usage);
    EntryMembers(lines, Prefix(agent), BuildLine(agent, usage));
    SplitOfJoin(NewLines(body, agent, usage));
  }

  /** The lines a write leaves in the block. */
  function LinesAfter(st: Style, file: Option<string>, agent: string, usage: string): seq<string> {
    if NeedsBlock(st, file) then ["", BuildLine(agent, usage), ""]
    else WithEntry(BlockLines(st, file.value), Prefix(agent), BuildLine(agent, usage))
  }

  lemma BlockAfterWrite(st: Style, file: Option<string>, agent: string, usage: string)
    requires ValidFile(st, file) && MarkerFree(st, BuildLine(agent, usage))
    ensures var after := Cheatsheet(st, file, agent, usage);
            && ValidFile(st, after) && !NeedsBlock(st, after)
            && SplitBlock(st, after.value) == CheatsheetParts(st, file, agent, usage)
  {
    CheatsheetKeepsValidIff(st, file, agent, usage);
    SplitOfAssemble(st, CheatsheetParts(st, file, agent, usage));
  }

  lemma LinesAfterWrite(st: Style, file: Option<string>, agent: string, usage: string)
    requires ValidFile(st, file) && GoodEntry(st, agent, usage)
    ensures var after := Cheatsheet(st, file, agent, usage);
            && ValidFile(st, after) && !NeedsBlock(st, after)
            && BlockLines(st, after.value) == LinesAfter(st, file, agent, usage)
  {
    BlockAfterWrite(st, file, agent, usage);
    if NeedsBlock(st, file) {
      EntryIsOneLine(agent, usage);
      FramedEntryLines(BuildLine(agent, usage));
    } else {
      NewBodyLines(SplitBlock(st, file.value).body, agent, usage);
    }
  }

  /**
   A write sets its own agent's line and no other agent's: not the line an agent with an
   incomparable name is found by, nor any line that is not this agent's.
   */
  lemma WriteUpdatesMap(st: Style, file: Option<string>, agent: string, usage: string, other: string)
    requires ValidFile(st, file) && GoodEntry(st, agent, usage)
    ensures var after := Cheatsheet(st, file, agent, usage);
            && Lookup(st, after, agent) == Some(BuildLine(agent, usage))
            && (Incomparable(Prefix(agent), Prefix(other)) ==> Lookup(st, after, other) == Lookup(st, file, other))
            && (!NeedsBlock(st, file) ==>
                  Others(FileLines(st, after), Prefix(agent)) == Others(FileLines(st, file), Prefix(agent)))
  {
    LinesAfterWrite(st, file, agent, usage);
    EntryIsOneLine(agent, usage);
    var e := BuildLine(agent, usage);
    if NeedsBlock(st, file) {
      NewBlockLookup(e, Prefix(agent), Prefix(other));
    } else {
      EntryLaws(BlockLines(st, file.value), Prefix(agent), e, Prefix(other));
    }
  }

  lemma NewBlockLookup(e: string, p: string, q: string)
    requires p <= e && p != "" && q != ""
    ensures FirstWith(["", e, ""], p) == Some(e)
    ensures Incomparable(p, q) ==> FirstWith(["", e, ""], q) == None
  {
    BothPrefixes(e, p, q);
    FirstWithConcat([""], [e, ""], p);
    FirstWithConcat([""], [e, ""], q);
    FirstWithConcat([e], [""], p);
    FirstWithConcat([e], [""], q);
    assert [""] + [e, ""] == ["", e, ""] && [e] + [""] == [e, ""];
  }

  /** Text outside the markers survives: the parts around the block, or the whole old file. */
  lemma OutsideUntouched(st: Style, file: Option<string>, agent: string, usage: string)
    requires ValidFile(st, file) && MarkerFree(st, BuildLine(agent, usage))
    ensures var after := Cheatsheet(st, file, agent, usage).value;
            && HasBlock(st, after)
            && if NeedsBlock(st, file) then
                 file.Some? ==> file.value <= SplitBlock(st, after).before
               else
                 SplitBlock(st, after).before == SplitBlock(st, file.value).before
                 && SplitBlock(st, after).after == SplitBlock(st, file.value).after
  {
    BlockAfterWrite(st, file, agent, usage);
  }

  // ---- writing twice

  function Pieces(lines: seq<string>): nat {
    if lines == [] then 0 else |SplitLines(lines[0])| + Pieces(lines[1..])
  }

  lemma {:induction false} JoinPieces(lines: seq<string>)
    requires lines != []
    ensures |SplitLines(Join(lines))| == Pieces(lines)
    decreases |lines|
  {
    if |lines| > 1 {
      JoinPieces(lines[1..]);
      SplitConcat(lines[0], Join(lines[1..]));
    } else {
      assert Pieces(lines[1..]) == 0;
    }
  }

  lemma {:induction false} PiecesAtLeast(lines: seq<string>, k: int)
    requires k < |lines|
    ensures Pieces(lines) >= |lines| + if k >= 0 then |SplitLines(lines[k])| - 1 else 0
  {
    if lines != [] {
      PiecesAtLeast(lines[1..], if k > 0 then k - 1 else -1);
    }
  }

  lemma TwoLines(e: string)
    requires !OneLine(e)
    ensures |SplitLines(e)| >= 2
  {
    JoinOfSplit(e);
  }

  /** An entry that spans lines is not found again, and the block grows. */
  lemma SpanningEntryGrows(body: string, p: string, e: string)
    requires !OneLine(e)
    ensures WithEntry(SplitLines(body), p, e) != []
    ensures Join(WithEntry(SplitLines(body), p, e)) != body
  {
    var lines := SplitLines(body);
    var updated := WithEntry(lines, p, e);
    EntryMembers(lines, p, e);
    JoinPieces(updated);
    var k :| 0 <= k < |updated| && updated[k] == e;
    PiecesAtLeast(updated, k);
    TwoLines(e);
  }

  /** Writing the same entry again changes nothing, exactly when the entry is one line. */
  lemma IdempotentIffOneLine(st: Style, file: Option<string>, agent: string, usage: string)
    requires ValidFile(st, file) && MarkerFree(st, BuildLine(agent, usage))
    ensures var once := Cheatsheet(st, file, agent, usage);
            Cheatsheet(st, once, agent, usage) == once <==> OneLine(agent) && OneLine(usage)
  {
    var once := Cheatsheet(st, file, agent, usage);
    BlockAfterWrite(st, file, agent, usage);
    BlockAfterWrite(st, once, agent, usage);
    EntryIsOneLine(agent, usage);
    ValidFileIsItsParts(st, once.value);
    var p, e, body := Prefix(agent), BuildLine(agent, usage), SplitBlock(st, once.value).body;
    if OneLine(e) {
      LinesAfterWrite(st, file, agent, usage);
      if NeedsBlock(st, file) {
        EntryInNewBlockTwice(p, e);
      } else {
        EntryTwice(BlockLines(st, file.value), p, e);
      }
      JoinOfSplit(body);
    } else {
      SpanningEntryGrows(body, p, e);
    }
  }

  lemma EntryInNewBlockTwice(p: string, e: string)
    requires p <= e && p != ""
    ensures WithEntry(["", e, ""], p, e) == ["", e, ""]
  {
    assert p <= ["", e, ""][1];
    assert Replaced(["", e, ""], p, e) == ["", e, ""];
  }

  // ---- the introduction

  lemma {:induction false} PlainLinesLaws(st: Style, lines: seq<string>, agent: string)
    requires forall k :: 0 <= k < |lines| ==> PlainLine(st, lines[k])
    ensures FirstWith(lines, Prefix(agent)) == None
  {
    FirstWithUnseen(lines, Prefix(agent));
    assert Prefix(agent)[0] == '-';
  }

  lemma IntroCounts(st: Style, m: string)
    requires m in {st.start, st.end}
    ensures Count(IntroBody(st), m) == 0
  {
    CountJoin(st.introLines, m);
    CountInZero(st.introLines, m);
    assert forall k :: 0 <= k < |st.introLines| ==> PlainLine(st, st.introLines[k]);
    assert IntroBody(st) == Join(st.introLines) + ("\n" + "");
    CountAtNewline(Join(st.introLines), "", m);
  }

  lemma IntroLinesOf(st: Style, rest: string)
    ensures SplitLines("\n" + (IntroBody(st) + rest)) == [""] + (st.introLines + SplitLines(rest))
  {
    assert forall k :: 0 <= k < |st.introLines| ==> PlainLine(st, st.introLines[k]);
    SplitOfJoin(st.introLines);
    assert "\n" + (IntroBody(st) + rest) == "" + ("\n" + (Join(st.introLines) + ("\n" + rest)));
    SplitConcat("", Join(st.introLines) + ("\n" + rest));
    SplitConcat(Join(st.introLines), rest);
  }

  lemma IntroBodyCount(st: Style, rest: string, m: string)
    requires m in {st.start, st.end}
    ensures Count("\n" + (IntroBody(st) + rest), m) == Count(rest, m)
  {
    var j := Join(st.introLines);
    assert "\n" + (IntroBody(st) + rest) == "" + ("\n" + (j + ("\n" + rest)));
    CountAtNewline("", j + ("\n" + rest), m);
    CountAtNewline(j, rest, m);
    CountJoin(st.introLines, m);
    CountInZero(st.introLines, m);
    assert forall k :: 0 <= k < |st.introLines| ==> PlainLine(st, st.introLines[k]);
  }

  lemma IntroKeepsPartsClean(st: Style, file: Option<string>)
    requires ValidFile(st, file)
    ensures CleanParts(st, IntroParts(st, file))
  {
    if NeedsBlock(st, file) {
      IntroCounts(st, st.start);
      IntroCounts(st, st.end);
      NewBlockIsCleanIff(st, file, IntroBody(st));
    } else {
      ValidFileIsItsParts(st, file.value);
      var body := SplitBlock(st, file.value).body;
      IntroBodyCount(st, body, st.start);
      IntroBodyCount(st, body, st.end);
    }
  }

  lemma IntroLookup(st: Style, lines: seq<string>, agent: string)
    ensures FirstWith([""] + (st.introLines + lines), Prefix(agent)) == FirstWith(lines, Prefix(agent))
  {
    assert forall k :: 0 <= k < |st.introLines| ==> PlainLine(st, st.introLines[k]);
    PlainLinesLaws(st, st.introLines, agent);
    FirstWithConcat(st.introLines, lines, Prefix(agent));
    FirstWithConcat([""], st.introLines + lines, Prefix(agent));
    assert [""][1..] == [];
  }

  lemma IntroBlock(st: Style, file: Option<string>)
    requires ValidFile(st, file)
    ensures var after := Intro(st, file);
            && ValidFile(st, after) && !NeedsBlock(st, after) && SplitBlock(st, after.value) == IntroParts(st, file)
  {
    IntroKeepsPartsClean(st, file);
    AssembledIsValidIff(st, IntroParts(st, file));
    SplitOfAssemble(st, IntroParts(st, file));
  }

  lemma IntroAloneLines(st: Style, agent: string)
    ensures FirstWith(SplitLines(Framed(IntroBody(st))), Prefix(agent)) == None
  {
    assert Framed(IntroBody(st)) == "\n" + (IntroBody(st) + "\n");
    IntroLinesOf(st, "\n");
    SplitConcat("", "");
    assert "" + ("\n" + "") == "\n" && [""] + [""] == ["", ""];
    IntroLookup(st, ["", ""], agent);
    FirstWithConcat([""], [""], Prefix(agent));
  }

  /** The introduction keeps the file valid and every agent's line. */
  lemma IntroKeepsMap(st: Style, file: Option<string>, agent: string)
    requires ValidFile(st, file)
    ensures ValidFile(st, Intro(st, file)) && Intro(st, file).Some?
    ensures Lookup(st, Intro(st, file), agent) == Lookup(st, file, agent)
  {
    IntroBlock(st, file);
    if NeedsBlock(st, file) {
      IntroAloneLines(st, agent);
    } else if Find(SplitBlock(st, file.value).body, st.introMark) < 0 {
      IntroLinesOf(st, SplitBlock(st, file.value).body);
      IntroLookup(st, BlockLines(st, file.value), agent);
    }
  }

  lemma IntroIsFound(st: Style, rest: string)
    ensures Find("\n" + (IntroBody(st) + rest), st.introMark) >= 0
  {
    var body := "\n" + (IntroBody(st) + rest);
    var m := st.introMark;
    assert m <= Join(st.introLines);
    assert m <= IntroBody(st) + rest;
    assert body[1..1 + |m|] == (IntroBody(st) + rest)[..|m|];
    assert At(body, m, 1);
    FindIsFirst(body, m);
  }

  /** Writing the introduction again changes nothing. */
  lemma IntroIdempotent(st: Style, file: Option<string>)
    requires ValidFile(st, file)
    ensures Intro(st, Intro(st, file)) == Intro(st, file)
  {
    IntroBlock(st, file);
    var once := Intro(st, file).value;
    ValidFileIsItsParts(st, once);
    if NeedsBlock(st, file) {
      assert Framed(IntroBody(st)) == "\n" + (IntroBody(st) + "\n");
      IntroIsFound(st, "\n");
    } else if Find(SplitBlock(st, file.value).body, st.introMark) < 0 {
      IntroIsFound(st, SplitBlock(st, file.value).body);
    }
  }

  // ---- any sequence of writes

  datatype BrainWrite = WriteAgent(agent: string, usage: string) | WriteIntro

  function ApplyWrite(st: Style, file: Option<string>, w: BrainWrite): Option<string> {
    match w
    case WriteAgent(agent, usage) => Cheatsheet(st, file, agent, usage)
    case WriteIntro => Intro(st, file)
  }

  function ApplyWrites(st: Style, file: Option<string>, writes: seq<BrainWrite>): Option<string> {
    if writes == [] then file
    else ApplyWrite(st, ApplyWrites(st, file, writes[..|writes| - 1]), writes[|writes| - 1])
  }

  /** The map the writes describe: each agent's last usage. */
  function LastUsage(writes: seq<BrainWrite>, agent: string): Option<string> {
    if writes == [] then None
    else
      var last := writes[|writes| - 1];
      if last.WriteAgent? && last.agent == agent then Some(last.usage)
      else LastUsage(writes[..|writes| - 1], agent)
  }

  predicate GoodWrite(st: Style, w: BrainWrite) {
    w.WriteAgent? ==> GoodEntry(st, w.agent, w.usage) && '*' !in w.agent
  }

  /**
   After any sequence of writes the file is valid, and every agent is found by the usage
   written for it last; agents not written keep the line they had.
   */
  lemma {:induction false} BlockRefinesMap(st: Style, file: Option<string>, writes: seq<BrainWrite>, agent: string)
    requires ValidFile(st, file) && forall k :: 0 <= k < |writes| ==> GoodWrite(st, writes[k])
    requires '*' !in agent
    ensures ValidFile(st, ApplyWrites(st, file, writes))
    ensures Lookup(st, ApplyWrites(st, file, writes), agent) ==
            match LastUsage(writes, agent)
            case Some(usage) => Some(BuildLine(agent, usage))
            case None => Lookup(st, file, agent)
  {
    if writes != [] {
      var n := |writes| - 1;
      BlockRefinesMap(st, file, writes[..n], agent);
      var before := ApplyWrites(st, file, writes[..n]);
      assert GoodWrite(st, writes[n]);
      match writes[n]
      case WriteAgent(name, usage) =>
        WriteUpdatesMap(st, before, name, usage, agent);
        LinesAfterWrite(st, before, name, usage);
        if name != agent {
          StarFreePrefixes(name, agent);
        }
      case WriteIntro =>
        IntroKeepsMap(st, before, agent);
    }
  }

  /** The text before the block, or all of it when there is no block. */
  function Head(st: Style, t: string): string {
    if HasBlock(st, t) then SplitBlock(st, t).before else t
  }

  /** Both parts around the block are the same; a file that had none is now in front of it. */
  predicate OutsideKept(st: Style, file: Option<string>, after: Option<string>) {
    if NeedsBlock(st, file) then file.Some? ==> after.Some? && file.value <= Head(st, after.value)
    else
      && !NeedsBlock(st, after)
      && SplitBlock(st, after.value).before == SplitBlock(st, file.value).before
      && SplitBlock(st, after.value).after == SplitBlock(st, file.value).after
  }

  lemma WriteKeepsOutside(st: Style, file: Option<string>, w: BrainWrite)
    requires ValidFile(st, file) && GoodWrite(st, w)
    ensures OutsideKept(st, file, ApplyWrite(st, file, w))
  {
    match w
    case WriteAgent(agent, usage) => BlockAfterWrite(st, file, agent, usage);
    case WriteIntro => IntroBlock(st, file);
  }

  lemma OutsideKeptIsTransitive(st: Style, a: Option<string>, b: Option<string>, c: Option<string>)
    requires OutsideKept(st, a, b) && OutsideKept(st, b, c)
    ensures OutsideKept(st, a, c)
  {
  }

  /** No sequence of writes touches the text outside the markers. */
  lemma {:induction false} WritesKeepOutside(st: Style, file: Option<string>, writes: seq<BrainWrite>)
    requires ValidFile(st, file) && forall k :: 0 <= k < |writes| ==> GoodWrite(st, writes[k])
    ensures OutsideKept(st, file, ApplyWrites(st, file, writes))
  {
    if writes != [] {
      var n := |writes| - 1;
      var before := ApplyWrites(st, file, writes[..n]);
      WritesKeepOutside(st, file, writes[..n]);
      BlockRefinesMap(st, file, writes[..n], "");
      assert GoodWrite(st, writes[n]);
      WriteKeepsOutside(st, before, writes[n]);
      OutsideKeptIsTransitive(st, file, before, ApplyWrite(st, before, writes[n]));
    }
  }

  // ---- the text itself

  function EntryText(agent: string, usage: string): string {
    "- **" + agent + "**: `" + usage + "`"
  }

  lemma EntryIsSpelled(agent: string, usage: string)
    ensures BuildLine(agent, usage) == EntryText(agent, usage)
  {
  }

  /** A missing file becomes the block with the one entry. */
  lemma NewFileText(st: Style, agent: string, usage: string)
    ensures Cheatsheet(st, None, agent, usage) ==
            Some(st.start + "\n" + EntryText(agent, usage) + "\n" + st.end + "\n")
  {
    EntryIsSpelled(agent, usage);
    var entry := BuildLine(agent, usage);
    assert st.start + "\n" + entry + "\n" + st.end + "\n"
        == "" + (st.start + (("\n" + (entry + "\n")) + (st.end + "\n")));
  }

  lemma FrameIs(head: string, start: string, entry: string, end: string)
    ensures head + start + "\n" + entry + "\n" + end + "\n"
            == head + (start + (("\n" + (entry + "\n")) + (end + "\n")))
  {
  }

  lemma GapIs(t: string, gap: string)
    requires gap == if t == "" || t[|t| - 1] == '\n' then "\n" else "\n\n"
    ensures Separator(t) + "\n" == gap
  {
  }

  /** A file without a block keeps its text; an empty line comes after it, and then the block. */
  lemma AppendedText(st: Style, t: string, agent: string, usage: string, gap: string)
    requires ValidateBlock(st, t) && !HasBlock(st, t)
    requires gap == if t == "" || t[|t| - 1] == '\n' then "\n" else "\n\n"
    ensures Cheatsheet(st, Some(t), agent, usage) ==
            Some((t + gap) + st.start + "\n" + EntryText(agent, usage) + "\n" + st.end + "\n")
  {
    EntryIsSpelled(agent, usage);
    GapIs(t, gap);
    FrameIs(t + gap, st.start, EntryText(agent, usage), st.end);
  }

  /** The markers and the first line of the introduction. */
  lemma HerderTexts()
    ensures Herder().start == "<!-- herder:hands START -->" && Herder().end == "<!-- herder:hands END -->"
    ensures Herder().introMark == "<!-- herder:intro -->" && |Herder().introLines| == 7
  {
  }

  /** A new entry goes right after the last line that is not blank, and the lines around it stay. */
  lemma NewEntryPlace(lines: seq<string>, prefix: string, entry: string) returns (k: nat)
    requires forall i :: 0 <= i < |lines| ==> !(prefix <= lines[i])
    ensures k <= |lines| && WithEntry(lines, prefix, entry) == lines[..k] + [entry] + lines[k..]
    ensures (k > 0 ==> !IsBlank(lines[k - 1])) && forall i :: k <= i < |lines| ==> IsBlank(lines[i])
  {
    LastNonBlank(lines);
    assert !Seen(lines, prefix);
    k := InsertAt(lines);
  }

  lemma {:induction false} LastNonBlank(lines: seq<string>)
    ensures InsertAt(lines) > 0 ==> !IsBlank(lines[InsertAt(lines) - 1])
    ensures forall i :: InsertAt(lines) <= i < |lines| ==> IsBlank(lines[i])
  {
    if lines != [] {
      LastNonBlank(lines[..|lines| - 1]);
    }
  }

  /** Accepted are no markers at all, or one of each with the start not after the end. */
  lemma ValidIffPaired(st: Style, t: string)
    ensures ValidateBlock(st, t) <==>
            || (Count(t, st.start) == 0 && Count(t, st.end) == 0)
            || (Count(t, st.start) == 1 && Count(t, st.end) == 1 && Find(t, st.start) <= Find(t, st.end))
  {
  }

  /** The introduction: its lines, one by one, and a newline after the last. */
  lemma NewIntroText(st: Style)
    ensures Intro(st, None) == Some("" + st.start + "\n" + (Join(st.introLines) + "\n") + "\n" + st.end + "\n")
  {
    FrameIs("", st.start, Join(st.introLines) + "\n", st.end);
  }

  /** A block that lacks the introduction gets it in front of its lines; one that has it is left alone. */
  lemma IntroPlaced(st: Style, t: string, before: string, body: string, rest: string)
    requires ValidateBlock(st, t) && HasBlock(st, t) && SplitBlock(st, t) == Parts(before, body, rest)
    ensures Find(body, st.introMark) >= 0 ==> Intro(st, Some(t)) == Some(t)
    ensures Find(body, st.introMark) < 0 ==>
              Intro(st, Some(t)) ==
              Some(before + (st.start + (("\n" + Join(st.introLines) + "\n" + body) + (st.end + rest))))
  {
    ValidFileIsItsParts(st, t);
    assert "\n" + Join(st.introLines) + "\n" + body == "\n" + ((Join(st.introLines) + "\n") + body);
  }

  /** Python's white space, by code point. */
  lemma SpacesByCodePoint(c: char)
    ensures var n := c as int;
            IsSpace(c) <==>
              || 9 <= n <= 13 || 28 <= n <= 32 || n == 133 || n == 160 || n == 5760 || 8192 <= n <= 8202
              || n == 8232 || n == 8233 || n == 8239 || n == 8287 || n == 12288
  {
  }
}
