/**
 The managed block in a brain file: two markers, and between them one line per agent.

 Seen through Lookup the block is a map from agent names to lines. write_cheatsheet is an
 update of that map, write_intro_block leaves it alone, and neither touches what lies outside
 the markers.
 */
module ManagedBlock {
  import opened Options
  import opened Text

  /** The marker texts and the introduction. */
  datatype Texts = Texts(start: string, end: string, introMark: string, introLines: seq<string>)

  function Herder(): Texts {
    Texts(
      "<!-- herder:hands START -->",
      "<!-- herder:hands END -->",
      "<!-- herder:intro -->",
      ["<!-- herder:intro -->",
       "## Herder — connected hands",
       "",
       "You are the brain. " + "Herder provides hands: " + "specialist agents that",
       "execute tasks " + "on your behalf. " + "Connect a hand: `herder add`.",
       "Enqueue work: " + "`herder enqueue " + "--role <role> --prompt-file <f>`.",
       "Run pending jobs: " + "`herder worker --once`."])
  }

  /** Two markers neither of which can begin inside the other, and an introduction without markers. */
  predicate Proper(st: Texts) {
    && IsMarker(st.start) && IsMarker(st.end) && st.start[0] == st.end[0]
    && !(st.start <= st.end) && !(st.end <= st.start)
    && st.introMark != "" && st.introLines != [] && st.introLines[0] == st.introMark
    && forall k :: 0 <= k < |st.introLines| ==> PlainLine(st, st.introLines[k])
  }

  predicate PlainLine(st: Texts, line: string)
    requires st.start != "" && st.end != ""
  {
    OneLine(line) && MarkerFree(st, line) && (line != "" ==> line[0] != '-')
  }

  predicate MarkerFree(st: Texts, s: string)
    requires st.start != "" && st.end != ""
  {
    Count(s, st.start) == 0 && Count(s, st.end) == 0
  }

  /** A line without '!', or shorter than both markers, holds neither of Herder's markers. */
  lemma HerderMarkerFree(line: string)
    requires '!' !in line || |line| < 25
    ensures Count(line, "<!-- herder:hands START -->") == 0 && Count(line, "<!-- herder:hands END -->") == 0
  {
    var start, end := "<!-- herder:hands START -->", "<!-- herder:hands END -->";
    if '!' !in line {
      AbsentIfCharMissing(line, start, 1);
      AbsentIfCharMissing(line, end, 1);
    } else {
      AbsentIfShort(line, start);
      AbsentIfShort(line, end);
    }
  }

  lemma StartIsMarker()
    ensures IsMarker("<!-- herder:hands START -->")
  {
    assert "<!-- herder:hands START -->"[1..] == "!-- herder:hands START -->";
  }

  lemma EndIsMarker()
    ensures IsMarker("<!-- herder:hands END -->")
  {
    assert "<!-- herder:hands END -->"[1..] == "!-- herder:hands END -->";
  }

  lemma MarkersDiffer()
    ensures !("<!-- herder:hands START -->" <= "<!-- herder:hands END -->")
    ensures !("<!-- herder:hands END -->" <= "<!-- herder:hands START -->")
  {
    assert "<!-- herder:hands START -->"[18] == 'S' && "<!-- herder:hands END -->"[18] == 'E';
  }

  predicate NoBang(s: string) {
    OneLine(s) && '!' !in s
  }

  predicate HarmlessLine(line: string) {
    OneLine(line) && (line != "" ==> line[0] != '-') && ('!' !in line || |line| < 25)
  }

  lemma ConcatIsHarmless(a: string, b: string, c: string)
    requires a != "" && a[0] != '-' && NoBang(a) && NoBang(b) && NoBang(c)
    ensures HarmlessLine(a + b + c)
  {
  }

  lemma HeadingIsHarmless()
    ensures HarmlessLine("<!-- herder:intro -->") && HarmlessLine("## Herder — connected hands")
  {
  }

  lemma BrainLineIsHarmless()
    ensures HarmlessLine("You are the brain. " + "Herder provides hands: " + "specialist agents that")
  {
    ConcatIsHarmless("You are the brain. ", "Herder provides hands: ", "specialist agents that");
  }

  lemma TaskLineIsHarmless()
    ensures HarmlessLine("execute tasks " + "on your behalf. " + "Connect a hand: `herder add`.")
  {
    ConcatIsHarmless("execute tasks ", "on your behalf. ", "Connect a hand: `herder add`.");
  }

  lemma EnqueueLineIsHarmless()
    ensures HarmlessLine("Enqueue work: " + "`herder enqueue " + "--role <role> --prompt-file <f>`.")
  {
    ConcatIsHarmless("Enqueue work: ", "`herder enqueue ", "--role <role> --prompt-file <f>`.");
  }

  lemma RunLineIsHarmless()
    ensures HarmlessLine("Run pending jobs: " + "`herder worker --once`.")
  {
    ConcatIsHarmless("Run pending jobs: ", "`herder worker --once`.", "");
    assert "Run pending jobs: " + "`herder worker --once`." + "" == "Run pending jobs: " + "`herder worker --once`.";
  }

  lemma HerderIsProper()
    ensures Proper(Herder())
  {
    StartIsMarker();
    EndIsMarker();
    MarkersDiffer();
    var lines := Herder().introLines;
    assert forall k :: 0 <= k < |lines| ==> HarmlessLine(lines[k]) by {
      HeadingIsHarmless();
      BrainLineIsHarmless();
      TaskLineIsHarmless();
      EnqueueLineIsHarmless();
      RunLineIsHarmless();
    }
    forall k | 0 <= k < |lines| ensures PlainLine(Herder(), lines[k]) {
      HerderMarkerFree(lines[k]);
    }
  }

  /** What follows holds for every proper choice of texts. */
  type Style = st: Texts | Proper(st) witness (HerderIsProper(); Herder())

  function IntroBody(st: Style): string
  {
    Join(st.introLines) + "\n"
  }

  /** False stands for MalformedCheatsheetError. */
  predicate ValidateBlock(st: Style, content: string) {
    var starts := Count(content, st.start);
    var ends := Count(content, st.end);
    if starts == 0 && ends == 0 then true
    else if starts > 1 || ends > 1 then false
    else if starts == 1 && ends == 0 then false
    else if starts == 0 && ends == 1 then false
    else Find(content, st.end) >= Find(content, st.start)
  }

  function BuildLine(agent: string, usage: string): string {
    Prefix(agent) + (" `" + (usage + "`"))
  }

  function Prefix(agent: string): string {
    "- **" + (agent + "**:")
  }

  predicate IsSpace(c: char) {
    c in " \t\n\r" || '\U{000b}' <= c <= '\U{000c}' || '\U{001c}' <= c <= '\U{001f}'
    || c in {'\U{0085}', '\U{00a0}', '\U{1680}', '\U{2028}', '\U{2029}', '\U{202f}', '\U{205f}', '\U{3000}'}
    || '\U{2000}' <= c <= '\U{200a}'
  }

  /** line.strip() == "" */
  predicate IsBlank(line: string) {
    forall k :: 0 <= k < |line| ==> IsSpace(line[k])
  }

  // ---- the three parts of a file with a block

  datatype Parts = Parts(before: string, body: string, after: string)

  function Assemble(st: Style, p: Parts): string {
    p.before + (st.start + (p.body + (st.end + p.after)))
  }

  predicate HasBlock(st: Style, t: string) {
    Find(t, st.start) >= 0
  }

  /** split(st.start, 1) and then split(st.end, 1); without an end marker the rest is the body. */
  function SplitBlock(st: Style, t: string): Parts
    requires HasBlock(st, t)
  {
    FindCuts(t, st.start);
    var i := Find(t, st.start);
    var rest := t[i + |st.start|..];
    var j := Find(rest, st.end);
    if j < 0 then Parts(t[..i], rest, "")
    else
      FindCuts(rest, st.end);
      Parts(t[..i], rest[..j], rest[j + |st.end|..])
  }

  // ---- lines of the block

  function Replaced(lines: seq<string>, prefix: string, entry: string): (r: seq<string>)
    ensures |r| == |lines|
    ensures forall k :: 0 <= k < |lines| ==> r[k] == if prefix <= lines[k] then entry else lines[k]
  {
    seq(|lines|, k requires 0 <= k < |lines| => if prefix <= lines[k] then entry else lines[k])
  }

  predicate Seen(lines: seq<string>, prefix: string) {
    exists k :: 0 <= k < |lines| && prefix <= lines[k]
  }

  /** Just after the last line that is not blank. */
  function InsertAt(lines: seq<string>): (k: nat)
    ensures k <= |lines|
  {
    if lines == [] then 0
    else if IsBlank(lines[|lines| - 1]) then InsertAt(lines[..|lines| - 1])
    else |lines|
  }

  function WithEntry(lines: seq<string>, prefix: string, entry: string): seq<string> {
    if Seen(lines, prefix) then Replaced(lines, prefix, entry)
    else lines[..InsertAt(lines)] + [entry] + lines[InsertAt(lines)..]
  }

  // ---- what the two writers make of a file; None stands for the error, and no write

  function Separator(t: string): string {
    if t == "" || t[|t| - 1] == '\n' then "" else "\n"
  }

  /** The file with a new block at its end; a missing file is created with the block alone. */
  function Appended(file: Option<string>, body: string): Parts {
    match file
    case None => Parts("", body, "\n")
    case Some(t) => Parts(t + (Separator(t) + "\n"), body, "\n")
  }

  function Framed(text: string): string {
    "\n" + (text + "\n")
  }

  predicate NeedsBlock(st: Style, file: Option<string>) {
    file.None? || !HasBlock(st, file.value)
  }

  function CheatsheetParts(st: Style, file: Option<string>, agent: string, usage: string): Parts {
    var entry := BuildLine(agent, usage);
    if NeedsBlock(st, file) then Appended(file, Framed(entry))
    else
      var parts := SplitBlock(st, file.value);
      parts.(body := Join(NewLines(parts.body, agent, usage)))
  }

  function NewLines(body: string, agent: string, usage: string): (lines: seq<string>)
    ensures lines != []
  {
    var lines := WithEntry(SplitLines(body), Prefix(agent), BuildLine(agent, usage));
    assert Seen(SplitLines(body), Prefix(agent)) ==> lines != [];
    lines
  }

  function Cheatsheet(st: Style, file: Option<string>, agent: string, usage: string): Option<string> {
    if file.Some? && !ValidateBlock(st, file.value) then None
    else Some(Assemble(st, CheatsheetParts(st, file, agent, usage)))
  }

  function IntroParts(st: Style, file: Option<string>): Parts {
    if NeedsBlock(st, file) then Appended(file, Framed(IntroBody(st)))
    else
      var parts := SplitBlock(st, file.value);
      if Find(parts.body, st.introMark) >= 0 then parts
      else parts.(body := "\n" + (IntroBody(st) + parts.body))
  }

  function Intro(st: Style, file: Option<string>): Option<string> {
    if file.Some? && !ValidateBlock(st, file.value) then None
    else Some(Assemble(st, IntroParts(st, file)))
  }

  lemma AfterLastLine(lines: seq<string>, k: nat)
    requires k <= |lines| && (k > 0 ==> !IsBlank(lines[k - 1]))
    requires InsertAt(lines[..k]) == InsertAt(lines)
    ensures InsertAt(lines) == k
  {
    assert k > 0 ==> lines[..k][k - 1] == lines[k - 1];
  }

  // ---- the file and its writers

  class BrainFile {
    const st: Style
    var content: Option<string>

    constructor (st: Style, content: Option<string>)
      ensures this.st == st && this.content == content
    {
      this.st := st;
      this.content := content;
    }

    method WriteCheatsheet(agent: string, usage: string) returns (ok: bool)
      modifies this
      ensures ok <==> Cheatsheet(st, old(content), agent, usage).Some?
      ensures content == if ok then Cheatsheet(st, old(content), agent, usage) else old(content)
    {
      var newEntry := BuildLine(agent, usage);
      var prefix := Prefix(agent);
      if content.None? {
        content := Some(Assemble(st, Parts("", Framed(newEntry), "\n")));
        return true;
      }
      var original := content.value;
      if !ValidateBlock(st, original) {
        return false;
      }
      if !HasBlock(st, original) {
        content := Some(Assemble(st, Parts(original + (Separator(original) + "\n"), Framed(newEntry), "\n")));
        return true;
      }
      var parts := SplitBlock(st, original);
      var lines := SplitLines(parts.body);
      var updatedLines, agentSeen := ReplaceLines(lines, prefix, newEntry);
      if !agentSeen {
        var insertAt := InsertPosition(updatedLines);
        updatedLines := updatedLines[..insertAt] + [newEntry] + updatedLines[insertAt..];
      }
      content := Some(Assemble(st, parts.(body := Join(updatedLines))));
      ok := true;
    }

    method ReplaceLines(lines: seq<string>, prefix: string, newEntry: string)
      returns (updatedLines: seq<string>, agentSeen: bool)
      ensures updatedLines == Replaced(lines, prefix, newEntry)
      ensures agentSeen <==> Seen(lines, prefix)
      ensures !agentSeen ==> updatedLines == lines
    {
      updatedLines, agentSeen := [], false;
      for i := 0 to |lines|
        invariant |updatedLines| == i
        invariant forall k :: 0 <= k < i ==> updatedLines[k] == if prefix <= lines[k] then newEntry else lines[k]
        invariant agentSeen <==> exists k :: 0 <= k < i && prefix <= lines[k]
      {
        if prefix <= lines[i] {
          updatedLines := updatedLines + [newEntry];
          agentSeen := true;
        } else {
          updatedLines := updatedLines + [lines[i]];
        }
      }
    }

    method InsertPosition(lines: seq<string>) returns (insertAt: nat)
      ensures insertAt == InsertAt(lines)
      ensures insertAt <= |lines| && forall k :: insertAt <= k < |lines| ==> IsBlank(lines[k])
      ensures insertAt > 0 ==> !IsBlank(lines[insertAt - 1])
    {
      insertAt := |lines|;
      assert lines[..|lines|] == lines;
      while insertAt > 0 && IsBlank(lines[insertAt - 1])
        invariant insertAt <= |lines| && forall k :: insertAt <= k < |lines| ==> IsBlank(lines[k])
        invariant InsertAt(lines[..insertAt]) == InsertAt(lines)
      {
        assert lines[..insertAt][..insertAt - 1] == lines[..insertAt - 1];
        insertAt := insertAt - 1;
      }
      AfterLastLine(lines, insertAt);
    }

    method WriteIntroBlock() returns (ok: bool)
      modifies this
      ensures ok <==> Intro(st, old(content)).Some?
      ensures content == if ok then Intro(st, old(content)) else old(content)
    {
      if content.None? {
        content := Some(Assemble(st, Parts("", Framed(IntroBody(st)), "\n")));
        return true;
      }
      var original := content.value;
      if !ValidateBlock(st, original) {
        return false;
      }
      if !HasBlock(st, original) {
        content := Some(Assemble(st, Parts(original + (Separator(original) + "\n"), Framed(IntroBody(st)), "\n")));
        return true;
      }
      var parts := SplitBlock(st, original);
      if Find(parts.body, st.introMark) < 0 {
        content := Some(Assemble(st, parts.(body := "\n" + (IntroBody(st) + parts.body))));
      } else {
        ValidFileIsItsParts(st, original);
      }
      ok := true;
    }
  }

  // ---- a valid file is its three parts

  predicate CleanParts(st: Style, p: Parts) {
    MarkerFree(st, p.before) && MarkerFree(st, p.body) && MarkerFree(st, p.after)
  }

  lemma CountAtMarker(st: Style, a: string, marker: string, b: string, m: string)
    requires marker in {st.start, st.end} && m in {st.start, st.end}
    ensures Count(a + (marker + b), m) == Count(a, m) + (if m == marker then 1 else 0) + Count(b, m)
    ensures NoneAcross(a, marker + b, m)
  {
    assert (marker + b)[0] == m[0];
    NoneAcrossIntoHead(a, marker + b, m);
    CountConcat(a, marker + b, m);
    NoneAcrossFromMarker(marker, b, m);
    CountConcat(marker, b, m);
    CountOfMarker(marker, m);
  }

  lemma AssembleCounts(st: Style, p: Parts, m: string)
    requires m in {st.start, st.end}
    ensures Count(Assemble(st, p), m) == Count(p.before, m) + Count(p.body, m) + Count(p.after, m) + 1
  {
    CountAtMarker(st, p.before, st.start, p.body + (st.end + p.after), m);
    CountAtMarker(st, p.body, st.end, p.after, m);
  }

  /** The first marker is where the text before it, free of it, ends. */
  lemma FindAtSeam(st: Style, t: string, a: string, marker: string, b: string)
    requires marker in {st.start, st.end} && Count(a, marker) == 0 && t == a + (marker + b)
    ensures Find(t, marker) == |a| && |a| + |marker| <= |t|
    ensures a == t[..|a|] && b == t[|a| + |marker|..]
  {
    CountAtMarker(st, a, marker, b, marker);
    assert marker <= marker + b;
    FindConcat(a, marker + b, marker);
    CutSlices(a, marker, b);
  }

  lemma SplitIs(st: Style, t: string, rest: string, p: Parts)
    requires Find(t, st.start) == |p.before| && |p.before| + |st.start| <= |t|
    requires p.before == t[..|p.before|] && rest == t[|p.before| + |st.start|..]
    requires Find(rest, st.end) == |p.body| && |p.body| + |st.end| <= |rest|
    requires p.body == rest[..|p.body|] && p.after == rest[|p.body| + |st.end|..]
    ensures HasBlock(st, t) && SplitBlock(st, t) == p
  {
  }

  lemma SplitOfConcat(st: Style, t: string, rest: string, p: Parts)
    requires t == p.before + (st.start + rest) && rest == p.body + (st.end + p.after)
    requires Count(p.before, st.start) == 0 && Count(p.body, st.end) == 0
    ensures HasBlock(st, t) && SplitBlock(st, t) == p && Find(t, st.start) == |p.before|
  {
    FindAtSeam(st, t, p.before, st.start, rest);
    FindAtSeam(st, rest, p.body, st.end, p.after);
    SplitIs(st, t, rest, p);
  }

  lemma SplitOfAssemble(st: Style, p: Parts)
    requires CleanParts(st, p)
    ensures HasBlock(st, Assemble(st, p)) && SplitBlock(st, Assemble(st, p)) == p
    ensures Find(Assemble(st, p), st.start) == |p.before|
  {
    SplitOfConcat(st, Assemble(st, p), p.body + (st.end + p.after), p);
  }

  /** An assembled file validates exactly when no part brings in a further marker. */
  lemma AssembledIsValidIff(st: Style, p: Parts)
    ensures ValidateBlock(st, Assemble(st, p)) <==> CleanParts(st, p)
  {
    AssembleCounts(st, p, st.start);
    AssembleCounts(st, p, st.end);
    if CleanParts(st, p) {
      SplitOfAssemble(st, p);
      var t := Assemble(st, p);
      FindIsFirst(t, st.end);
      CountZeroIffAbsent(t, st.end);
      var j := Find(t, st.end);
      if j < |p.before| {
        EndNotBefore(st, p, j);
      }
    }
  }

  lemma AtInPrefix(a: string, b: string, m: string, j: nat)
    requires j + |m| <= |a|
    ensures At(a + b, m, j) <==> At(a, m, j)
  {
    assert (a + b)[j..j + |m|] == a[j..j + |m|];
  }

  lemma EndNotBefore(st: Style, p: Parts, j: int)
    requires CleanParts(st, p) && 0 <= j < |p.before|
    ensures !At(Assemble(st, p), st.end, j)
  {
    var rest := st.start + (p.body + (st.end + p.after));
    CountAtMarker(st, p.before, st.start, p.body + (st.end + p.after), st.end);
    CountZeroIffAbsent(p.before, st.end);
    assert !At(p.before, st.end, j);
    if j + |st.end| <= |p.before| {
      AtInPrefix(p.before, rest, st.end, j);
    }
  }

  lemma StartCut(st: Style, t: string) returns (before: string, rest: string)
    requires ValidateBlock(st, t) && HasBlock(st, t)
    ensures Find(t, st.start) == |before| && |before| + |st.start| <= |t|
    ensures before == t[..|before|] && rest == t[|before| + |st.start|..]
    ensures t == before + (st.start + rest) && MarkerFree(st, before)
    ensures Count(rest, st.start) == 0 && Count(rest, st.end) == 1
  {
    FindIsFirst(t, st.start);
    CountZeroIffAbsent(t, st.start);
    before, rest := CutOnce(t, st.start);
    FindIsFirst(t, st.end);
    AbsentInPrefix(t, st.end, |before|);
    CountAtMarker(st, before, st.start, rest, st.end);
  }

  lemma EndCut(st: Style, rest: string) returns (body: string, after: string)
    requires Count(rest, st.start) == 0 && Count(rest, st.end) == 1
    ensures Find(rest, st.end) == |body| && |body| + |st.end| <= |rest|
    ensures body == rest[..|body|] && after == rest[|body| + |st.end|..]
    ensures rest == body + (st.end + after) && MarkerFree(st, body) && MarkerFree(st, after)
  {
    body, after := CutOnce(rest, st.end);
    CountAtMarker(st, body, st.end, after, st.start);
  }

  /** Reading a valid file's parts loses nothing, and no part holds a marker. */
  lemma ValidFileIsItsParts(st: Style, t: string)
    requires ValidateBlock(st, t) && HasBlock(st, t)
    ensures Assemble(st, SplitBlock(st, t)) == t && CleanParts(st, SplitBlock(st, t))
  {
    var before, rest := StartCut(st, t);
    var body, after := EndCut(st, rest);
    SplitIs(st, t, rest, Parts(before, body, after));
  }
}
