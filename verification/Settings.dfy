/** The shared settings document: its parser, its in-place editor, and the exact
    conditions under which the two agree.
  */
module Settings {
  import opened Basics
  import opened Text

  type Doc = map<string, string>

  const MARKER := "# -- Kilix voice --"
  /** One line, in parts short enough for the verifier to look into. */
  const HEADER := "# GPU Terminal " + "shared settings " + "(KEY=value; " + "not shell code)."

  // ----- the parser -----

  predicate IdentStart(c: char) {
    'A' <= c <= 'Z' || 'a' <= c <= 'z' || c == '_'
  }

  predicate IdentChar(c: char) {
    IdentStart(c) || '0' <= c <= '9'
  }

  function IdentRun(s: string): (n: nat)
    ensures n <= |s|
  {
    if s != [] && IdentChar(s[0]) then 1 + IdentRun(s[1..]) else 0
  }

  /** `^\s*([A-Za-z_][A-Za-z0-9_]*)=(.*)$` on one line, as a document. */
  function LineDoc(line: string): Doc {
    var l := LStrip(line);
    var n := IdentRun(l);
    if n > 0 && IdentStart(l[0]) && n < |l| && l[n] == '=' then map[l[..n] := Strip(l[n + 1..])] else map[]
  }

  /** The last assignment of a key wins. */
  function LinesDoc(lines: seq<string>): Doc {
    if lines == [] then map[] else LineDoc(lines[0]) + LinesDoc(lines[1..])
  }

  function BreakAt(t: string): (e: nat)
    ensures e <= |t| && (e < |t| ==> IsBreak(t[e]))
    ensures forall i :: 0 <= i < e ==> !IsBreak(t[i])
  {
    if t == [] || IsBreak(t[0]) then 0 else 1 + BreakAt(t[1..])
  }

  /** `str.splitlines`: a carriage return and newline count as one break, and a text
      that ends with a break has no last empty line. */
  function SplitLines(t: string): seq<string> {
    if t == [] then []
    else
      var e := BreakAt(t);
      if e == |t| then [t]
      else
        var next := if t[e] == '\r' && e + 1 < |t| && t[e + 1] == '\n' then e + 2 else e + 1;
        [t[..e]] + SplitLines(t[next..])
  }

  function Parse(text: string): Doc {
    LinesDoc(SplitLines(text))
  }

  method ParseText(text: string) returns (values: Doc)
    ensures values == Parse(text)
  {
    hide LineDoc, SplitLines;
    values := map[];
    var lines := SplitLines(text);
    assert lines[0..] == lines;
    DocEmpty(LinesDoc(lines));
    for k := 0 to |lines|
      invariant values + LinesDoc(lines[k..]) == LinesDoc(lines)
    {
      assert lines[k..][0] == lines[k] && lines[k..][1..] == lines[k + 1..];
      DocAssoc(values, LineDoc(lines[k]), LinesDoc(lines[k + 1..]));
      values := values + LineDoc(lines[k]);
    }
    DocEmpty(values);
  }

  // ----- the editor -----

  /** Past the spaces and tabs the editor accepts before a key. */
  function Unindent(line: string): string {
    if line != [] && (line[0] == ' ' || line[0] == '\t') then Unindent(line[1..]) else line
  }

  /** The editor takes this line for an assignment of `key`. */
  predicate Edits(line: string, key: string) {
    key + "=" <= Unindent(line)
  }

  function LastEdit(lines: seq<string>, key: string): (r: Option<nat>)
    ensures r.Some? ==> r.value < |lines| && Edits(lines[r.value], key)
    ensures forall i :: 0 <= i < |lines| && (r.None? || i > r.value) ==> !Edits(lines[i], key)
  {
    if lines == [] then None
    else if Edits(lines[|lines| - 1], key) then Some(|lines| - 1)
    else LastEdit(lines[..|lines| - 1], key)
  }

  predicate Contains(t: string, s: string) {
    exists i :: 0 <= i <= |t| && s <= t[i..]
  }

  function Lines(text: string): seq<string> {
    Pieces(text, IsNewline)
  }

  function Line(key: string, v: string): string {
    key + "=" + v
  }

  /** What precedes an appended line. */
  function Base(text: string): string {
    if Contains(text, MARKER) then TrimNewlines(text) else TrimNewlines(text) + "\n\n" + MARKER
  }

  /** The document after one assignment: the last line that assigns the key is
      rewritten in place, or a line is added at the end. */
  function SetValue(text: string, key: string, v: string): string {
    match LastEdit(Lines(text), key)
    case Some(i) => Join(Lines(text)[i := Line(key, v)])
    case None => Base(text) + "\n" + Line(key, v) + "\n"
  }

  // ----- parsing by newline-separated lines -----

  lemma DocAssoc(a: Doc, b: Doc, c: Doc)
    ensures (a + b) + c == a + (b + c)
  {
  }

  lemma DocEmpty(a: Doc)
    ensures a + map[] == a && map[] + a == a
  {
  }

  lemma {:induction false} LinesDocConcat(a: seq<string>, b: seq<string>)
    ensures LinesDoc(a + b) == LinesDoc(a) + LinesDoc(b)
  {
    hide LineDoc;
    if a == [] {
      assert a + b == b;
      DocEmpty(LinesDoc(b));
    } else {
      assert (a + b)[1..] == a[1..] + b;
      LinesDocConcat(a[1..], b);
      DocAssoc(LineDoc(a[0]), LinesDoc(a[1..]), LinesDoc(b));
    }
  }

  lemma EmptyLineIsNothing()
    ensures LineDoc([]) == map[]
  {
  }

  lemma PiecesAtBreak(t: string, e: nat)
    requires e == BreakAt(t)
    ensures e == |t| ==> Pieces(t, IsBreak) == [t]
    ensures e < |t| ==> Pieces(t, IsBreak) == [t[..e]] + Pieces(t[e + 1..], IsBreak)
  {
    hide Pieces, IsBreak, BreakAt;
    if e == |t| {
      PiecesWhole(t, IsBreak);
    } else {
      var a, c, b := t[..e], t[e], t[e + 1..];
      PiecesWhole(a, IsBreak);
      PiecesConcat(a, c, b, IsBreak);
      assert t == a + [c] + b;
    }
  }

  lemma LinesDocCons(line: string, rest: seq<string>)
    ensures LinesDoc([line] + rest) == LineDoc(line) + LinesDoc(rest)
  {
    assert ([line] + rest)[1..] == rest;
  }

  /** Where exactly a carriage return and newline are divided makes no difference. */
  lemma {:induction false} ParseIsPieces(t: string)
    ensures Parse(t) == LinesDoc(Pieces(t, IsBreak))
    decreases |t|
  {
    EmptyLineIsNothing();
    hide LineDoc, Pieces;
    var e := BreakAt(t);
    PiecesAtBreak(t, e);
    if e == |t| {
      LinesDocCons(t, []);
      DocEmpty(LineDoc(t));
    } else {
      var rest := t[e + 1..];
      LinesDocCons(t[..e], Pieces(rest, IsBreak));
      LinesDocCons(t[..e], SplitLines(rest));
      ParseIsPieces(rest);
      if t[e] == '\r' && e + 1 < |t| && t[e + 1] == '\n' {
        assert rest[0] == '\n' && rest[1..] == t[e + 2..];
        assert BreakAt(rest) == 0 && rest[..0] == [];
        ParseIsPieces(rest[1..]);
        LinesDocCons(t[..e], SplitLines(t[e + 2..]));
        PiecesAtBreak(rest, 0);
        LinesDocCons([], Pieces(rest[1..], IsBreak));
        DocEmpty(LinesDoc(Pieces(rest[1..], IsBreak)));
      }
    }
  }

  /** A newline divides a document into two that are parsed on their own. */
  lemma ParseConcat(a: string, b: string)
    ensures Parse(a + "\n" + b) == Parse(a) + Parse(b)
  {
    assert a + "\n" + b == a + ['\n'] + b;
    PiecesConcat(a, '\n', b, IsBreak);
    ParseIsPieces(a);
    ParseIsPieces(b);
    ParseIsPieces(a + "\n" + b);
    LinesDocConcat(Pieces(a, IsBreak), Pieces(b, IsBreak));
  }

  /** The document of newline-separated lines, each of which may itself hold several
      lines in the parser's sense. */
  function DocOf(lines: seq<string>): Doc {
    if lines == [] then map[] else Parse(lines[0]) + DocOf(lines[1..])
  }

  lemma {:induction false} ParseJoin(lines: seq<string>)
    requires |lines| > 0
    ensures Parse(Join(lines)) == DocOf(lines)
  {
    if |lines| == 1 {
      assert lines[1..] == [];
    } else {
      ParseConcat(lines[0], Join(lines[1..]));
      ParseJoin(lines[1..]);
    }
  }

  lemma {:induction false} DocOfConcat(a: seq<string>, b: seq<string>)
    ensures DocOf(a + b) == DocOf(a) + DocOf(b)
  {
    hide Parse;
    if a == [] {
      assert a + b == b;
      DocEmpty(DocOf(b));
    } else {
      assert (a + b)[1..] == a[1..] + b;
      DocOfConcat(a[1..], b);
      DocAssoc(Parse(a[0]), DocOf(a[1..]), DocOf(b));
    }
  }

  lemma DocOfMiddle(lines: seq<string>, i: nat)
    requires i < |lines|
    ensures DocOf(lines) == DocOf(lines[..i]) + Parse(lines[i]) + DocOf(lines[i + 1..])
  {
    hide Parse;
    var rest := [lines[i]] + lines[i + 1..];
    assert lines == lines[..i] + rest;
    DocOfConcat(lines[..i], rest);
    assert rest[1..] == lines[i + 1..];
    DocAssoc(DocOf(lines[..i]), Parse(lines[i]), DocOf(lines[i + 1..]));
  }

  // ----- one assignment -----

  predicate ValidKey(key: string) {
    key != [] && IdentStart(key[0]) && forall i :: 0 <= i < |key| ==> IdentChar(key[i])
  }

  /** A value that survives on its own line: no break inside, no space around. */
  predicate ValidValue(v: string) {
    Strip(v) == v && forall i :: 0 <= i < |v| ==> !IsBreak(v[i])
  }

  lemma {:induction false} IdentRunOfKey(key: string, rest: string)
    requires forall i :: 0 <= i < |key| ==> IdentChar(key[i])
    ensures IdentRun(key + "=" + rest) == |key|
  {
    if key == [] {
      assert key + "=" + rest == "=" + rest;
    } else {
      assert (key + "=" + rest)[1..] == key[1..] + "=" + rest;
      IdentRunOfKey(key[1..], rest);
    }
  }

  /** A line that assigns is read back as that assignment. */
  lemma LineDocOfLine(key: string, v: string)
    requires ValidKey(key)
    ensures LineDoc(Line(key, v)) == map[key := Strip(v)]
  {
    var l := Line(key, v);
    assert l[0] == key[0];
    assert LStrip(l) == l;
    IdentRunOfKey(key, v);
    assert l[..|key|] == key && l[|key|] == '=' && l[|key| + 1..] == v;
  }

  lemma {:induction false} IndentGoes(indent: string, line: string)
    requires AllSpace(indent)
    ensures LStrip(indent + line) == LStrip(line)
  {
    if indent == [] {
      assert indent + line == line;
    } else {
      assert (indent + line)[0] == indent[0] && (indent + line)[1..] == indent[1..] + line;
      IndentGoes(indent[1..], line);
    }
  }

  lemma {:induction false} IndentOf(line: string) returns (indent: string)
    ensures AllSpace(indent) && line == indent + LStrip(line)
  {
    if line != [] && IsSpace(line[0]) {
      var rest := IndentOf(line[1..]);
      indent := [line[0]] + rest;
      assert line == [line[0]] + line[1..];
    } else {
      indent := [];
      assert line == [] + line;
    }
  }

  lemma {:induction false} IdentRunIsKey(s: string)
    ensures forall i :: 0 <= i < IdentRun(s) ==> IdentChar(s[i])
  {
    if s != [] && IdentChar(s[0]) { IdentRunIsKey(s[1..]); }
  }

  /** White space, a key, an equals sign and the rest: that assigns. */
  lemma AssignmentIsRead(indent: string, key: string, raw: string)
    requires AllSpace(indent) && ValidKey(key)
    ensures LineDoc(indent + key + "=" + raw) == map[key := Strip(raw)]
  {
    assert indent + key + "=" + raw == indent + Line(key, raw);
    IndentGoes(indent, Line(key, raw));
    LineDocOfLine(key, raw);
    assert LStrip(Line(key, raw)) == Line(key, raw);
  }

  /** And no other line does. */
  lemma OnlyAssignmentsAreRead(line: string) returns (indent: string, key: string, raw: string)
    ensures LineDoc(line) != map[] ==> AllSpace(indent) && ValidKey(key) && line == indent + key + "=" + raw
  {
    var l := LStrip(line);
    var n := IdentRun(l);
    indent := IndentOf(line);
    key, raw := l[..n], if n < |l| then l[n + 1..] else [];
    IdentRunIsKey(l);
    if n > 0 && IdentStart(l[0]) && n < |l| && l[n] == '=' {
      assert l == key + "=" + raw;
      assert indent + (key + "=" + raw) == indent + key + "=" + raw;
    }
  }

  lemma ParseOneLine(l: string)
    requires forall i :: 0 <= i < |l| ==> !IsBreak(l[i])
    ensures Parse(l) == LineDoc(l)
  {
    ParseIsPieces(l);
    PiecesWhole(l, IsBreak);
    assert [l][1..] == [];
  }

  lemma ParseLine(key: string, v: string)
    requires ValidKey(key) && ValidValue(v)
    ensures Parse(Line(key, v)) == map[key := v]
  {
    LineDocOfLine(key, v);
    ParseOneLine(Line(key, v));
  }

  lemma ParseEmpty()
    ensures Parse([]) == map[]
  {
  }

  lemma {:induction false} ParseTrimmed(t: string)
    ensures Parse(TrimNewlines(t)) == Parse(t)
  {
    if t != [] && t[|t| - 1] == '\n' {
      var s := t[..|t| - 1];
      ParseTrimmed(s);
      ParseConcat(s, []);
      ParseEmpty();
      assert t == s + "\n" + [];
    }
  }

  lemma CommentIsNothing(line: string)
    requires line != [] && line[0] == '#'
    ensures LineDoc(line) == map[]
  {
    assert LStrip(line) == line;
    assert IdentRun(line) == 0;
  }

  lemma ParseMarker()
    ensures Parse(MARKER) == map[]
  {
    hide Parse, LineDoc, LStrip, IdentRun;
    CommentIsNothing(MARKER);
    ParseOneLine(MARKER);
  }

  lemma ParseSection(core: string, marker: string)
    requires Parse(marker) == map[]
    ensures Parse(core + "\n\n" + marker) == Parse(core)
  {
    ParseEmpty();
    hide Parse;
    ParseConcat(core, []);
    var open := core + "\n";
    assert open + [] == open;
    ParseConcat(open, marker);
    assert core + "\n\n" + marker == open + "\n" + marker;
    DocEmpty(Parse(core));
  }

  lemma ParseBase(text: string)
    ensures Parse(Base(text)) == Parse(text)
  {
    ParseMarker();
    hide Parse, TrimNewlines, Contains;
    ParseTrimmed(text);
    ParseSection(TrimNewlines(text), MARKER);
  }

  function Before(text: string, i: nat): Doc
    requires i < |Lines(text)|
  {
    DocOf(Lines(text)[..i])
  }

  function After(text: string, i: nat): Doc
    requires i < |Lines(text)|
  {
    DocOf(Lines(text)[i + 1..])
  }

  lemma EditedParse(text: string, key: string, v: string, i: nat)
    requires ValidKey(key) && ValidValue(v) && LastEdit(Lines(text), key) == Some(i)
    ensures Parse(text) == Before(text, i) + Parse(Lines(text)[i]) + After(text, i)
    ensures Parse(SetValue(text, key, v)) == Before(text, i)[key := v] + After(text, i)
  {
    hide Parse, DocOf, Join, ValidKey, ValidValue, Line, Edits;
    var lines := Lines(text);
    var lines' := lines[i := Line(key, v)];
    JoinPieces(text);
    ParseJoin(lines);
    ParseJoin(lines');
    DocOfMiddle(lines, i);
    DocOfMiddle(lines', i);
    ParseLine(key, v);
    assert lines'[..i] == lines[..i] && lines'[i + 1..] == lines[i + 1..];
    assert DocOf(lines[..i]) + map[key := v] == DocOf(lines[..i])[key := v];
  }

  lemma AppendedParse(text: string, key: string, v: string)
    requires ValidKey(key) && ValidValue(v) && LastEdit(Lines(text), key) == None
    ensures Parse(SetValue(text, key, v)) == Parse(text)[key := v]
  {
    hide Parse, Base, ValidKey, ValidValue, Line, Edits, Lines;
    ParseBase(text);
    ParseLine(key, v);
    ParseEmpty();
    ParseConcat(Base(text), Line(key, v));
    ParseConcat(Base(text) + "\n" + Line(key, v), []);
    assert Base(text) + "\n" + Line(key, v) + "\n" + [] == Base(text) + "\n" + Line(key, v) + "\n";
    DocEmpty(Parse(text) + map[key := v]);
    assert Parse(text) + map[key := v] == Parse(text)[key := v];
  }

  /** What a caller can check before an edit: nothing below the line that would be
      rewritten assigns the key another value, and whatever else the parser reads in
      that line is repeated elsewhere. */
  predicate SafeToSet(text: string, key: string, v: string) {
    match LastEdit(Lines(text), key)
    case None => true
    case Some(i) =>
      var here := Parse(Lines(text)[i]);
      var before, after := Before(text, i), After(text, i);
      && (key in after ==> after[key] == v)
      && forall k :: k in here && k != key && k !in after ==> k in before && before[k] == here[k]
  }

  /** For every text: the edited document parses to the old one with exactly the key
      changed if and only if the text was safe to edit. */
  lemma SetValueIsExact(text: string, key: string, v: string)
    requires ValidKey(key) && ValidValue(v)
    ensures Parse(SetValue(text, key, v)) == Parse(text)[key := v] <==> SafeToSet(text, key, v)
  {
    match LastEdit(Lines(text), key)
    case None => AppendedParse(text, key, v);
    case Some(i) =>
      EditedParse(text, key, v, i);
      MapEquation(Before(text, i), Parse(Lines(text)[i]), After(text, i), key, v);
  }

  lemma MapEquation(before: Doc, here: Doc, after: Doc, key: string, v: string)
    ensures before[key := v] + after == (before + here + after)[key := v] <==>
            && (key in after ==> after[key] == v)
            && forall k :: k in here && k != key && k !in after ==> k in before && before[k] == here[k]
  {
    var l, r := before[key := v] + after, (before + here + after)[key := v];
    if l == r {
      assert r[key] == v && key in l;
      forall k | k in here && k != key && k !in after ensures k in before && before[k] == here[k] {
        assert k in r && r[k] == here[k];
        assert k in l && l[k] == here[k];
      }
    }
  }

  // ----- plain documents -----

  /** Newlines are the only breaks, and only spaces and tabs indent an assignment. */
  predicate PlainLine(line: string) {
    && (forall i :: 0 <= i < |line| ==> !IsBreak(line[i]))
    && (LineDoc(line) != map[] ==> LStrip(line) == Unindent(line))
  }

  predicate Plain(text: string) {
    forall l :: l in Lines(text) ==> PlainLine(l)
  }

  lemma {:induction false} IdentRunStops(s: string)
    ensures IdentRun(s) < |s| ==> !IdentChar(s[IdentRun(s)])
    ensures forall i :: 0 <= i < IdentRun(s) ==> IdentChar(s[i])
  {
    if s != [] && IdentChar(s[0]) {
      IdentRunStops(s[1..]);
    }
  }

  /** On a plain line the parser and the editor see the same assignments. */
  lemma PlainLineAgrees(line: string, key: string)
    requires PlainLine(line) && key in Parse(line)
    ensures Edits(line, key) && Parse(line).Keys == {key}
  {
    ParseOneLine(line);
    var l := LStrip(line);
    var n := IdentRun(l);
    assert key == l[..n] && l[n] == '=';
    assert key + "=" == l[..n + 1];
  }

  lemma {:induction false} LStripIsUnindentFirst(line: string, key: string)
    requires Edits(line, key) && ValidKey(key)
    ensures LStrip(line) == Unindent(line)
  {
    if line[0] == ' ' || line[0] == '\t' {
      LStripIsUnindentFirst(line[1..], key);
    } else {
      assert line[0] == (key + "=")[0] == key[0];
    }
  }

  lemma {:induction false} EditedLineAssigns(line: string, key: string)
    requires Edits(line, key) && ValidKey(key) && PlainLine(line)
    ensures Parse(line).Keys == {key}
  {
    LStripIsUnindentFirst(line, key);
    var l := LStrip(line);
    var rest := l[|key| + 1..];
    assert l == key + "=" + rest;
    IdentRunOfKey(key, rest);
    ParseOneLine(line);
    assert l[0] == key[0] && l[..|key|] == key && l[|key|] == '=';
  }

  lemma {:induction false} PlainDocKeys(lines: seq<string>, key: string)
    requires forall l :: l in lines ==> PlainLine(l)
    ensures key in DocOf(lines) ==> exists i :: 0 <= i < |lines| && Edits(lines[i], key)
  {
    hide Parse, PlainLine, Edits;
    if lines != [] && key in DocOf(lines) {
      if key in DocOf(lines[1..]) {
        PlainDocKeys(lines[1..], key);
        var i :| 0 <= i < |lines[1..]| && Edits(lines[1..][i], key);
        assert Edits(lines[i + 1], key);
      } else {
        PlainLineAgrees(lines[0], key);
      }
    }
  }

  lemma PlainIsSafe(text: string, key: string, v: string)
    requires Plain(text) && ValidKey(key)
    ensures SafeToSet(text, key, v)
  {
    var lines := Lines(text);
    match LastEdit(lines, key)
    case None =>
    case Some(i) =>
      EditedLineAssigns(lines[i], key);
      PlainDocKeys(lines[i + 1..], key);
  }

  // ----- what becomes of the other lines -----

  lemma TrimmedLines(t: string)
    ensures Lines(TrimNewlines(t)) <= Lines(t)
    ensures forall i :: |Lines(TrimNewlines(t))| <= i < |Lines(t)| ==> Lines(t)[i] == []
  {
    if t != [] && t[|t| - 1] == '\n' {
      var s := t[..|t| - 1];
      TrimmedLines(s);
      PiecesConcat(s, '\n', [], IsNewline);
      assert t == s + ['\n'] + [];
    }
  }

  lemma LinesAppend(a: string, b: string)
    ensures Lines(a + "\n" + b) == Lines(a) + Lines(b)
  {
    PiecesConcat(a, '\n', b, IsNewline);
    assert a + "\n" + b == a + ['\n'] + b;
  }

  lemma MarkerIsOneLine()
    ensures Lines(MARKER) == [MARKER]
  {
    PiecesWhole(MARKER, IsNewline);
  }

  lemma SectionLines(core: string, marker: string)
    requires Lines(marker) == [marker]
    ensures Lines(core + "\n\n" + marker) == Lines(core) + [[], marker]
  {
    assert Lines([]) == [[]];
    hide Lines;
    LinesAppend(core, []);
    var open := core + "\n";
    assert open + [] == open;
    LinesAppend(open, marker);
    assert core + "\n\n" + marker == open + "\n" + marker;
  }

  lemma BaseLines(text: string)
    ensures Lines(Base(text)) == Lines(TrimNewlines(text)) + if Contains(text, MARKER) then [] else [[], MARKER]
  {
    hide TrimNewlines, Contains, Lines;
    MarkerIsOneLine();
    SectionLines(TrimNewlines(text), MARKER);
  }

  lemma NoNewlineIn(key: string, v: string)
    requires ValidKey(key) && ValidValue(v)
    ensures forall i :: 0 <= i < |Line(key, v)| ==> !IsBreak(Line(key, v)[i]) && Line(key, v)[i] != '\n'
  {
  }

  /** For every text: an edit rewrites one line and nothing else, or adds a line after
      the whole document, of which only trailing empty lines go. */
  lemma OtherLinesSurvive(text: string, key: string, v: string)
    requires ValidKey(key) && ValidValue(v)
    ensures match LastEdit(Lines(text), key)
            case Some(i) => Lines(SetValue(text, key, v)) == Lines(text)[i := Line(key, v)]
            case None =>
              && Lines(SetValue(text, key, v)) == Lines(Base(text)) + [Line(key, v), []]
              && Lines(TrimNewlines(text)) <= Lines(Base(text))
              && Lines(TrimNewlines(text)) <= Lines(text)
              && forall i :: |Lines(TrimNewlines(text))| <= i < |Lines(text)| ==> Lines(text)[i] == []
  {
    NoNewlineIn(key, v);
    var line := Line(key, v);
    hide Line, ValidKey, ValidValue, Edits, IsBreak;
    match LastEdit(Lines(text), key)
    case Some(i) =>
      var lines := Lines(text)[i := line];
      PiecesHaveNone(text, IsNewline);
      forall l, j | l in lines && 0 <= j < |l| ensures l[j] != '\n' {
        if l != line {
          assert l in Lines(text);
        }
      }
      PiecesJoin(lines);
    case None =>
      TrimmedLines(text);
      BaseLines(text);
      var base := Base(text);
      hide Base;
      LinesAppend(base, line);
      LinesAppend(base + "\n" + line, []);
      assert base + "\n" + line + "\n" + [] == base + "\n" + line + "\n";
      PiecesWhole(line, IsNewline);
      assert Lines(base) + [line] + [[]] == Lines(base) + [line, []];
  }

  lemma LineIsPlain(key: string, v: string)
    requires ValidKey(key) && ValidValue(v)
    ensures PlainLine(Line(key, v)) && Edits(Line(key, v), key)
  {
    NoNewlineIn(key, v);
    var l := Line(key, v);
    assert l[0] == key[0];
    assert LStrip(l) == l == Unindent(l);
  }

  lemma MarkerIsPlain()
    ensures PlainLine(MARKER) && PlainLine([])
  {
    hide LineDoc, LStrip, IdentRun;
    CommentIsNothing(MARKER);
    EmptyLineIsNothing();
  }

  lemma SetValueKeepsPlain(text: string, key: string, v: string)
    requires Plain(text) && ValidKey(key) && ValidValue(v)
    ensures Plain(SetValue(text, key, v))
  {
    OtherLinesSurvive(text, key, v);
    LineIsPlain(key, v);
    hide PlainLine, Line, Edits, SetValue, Base, ValidKey, ValidValue, Lines, LastEdit, TrimNewlines;
    match LastEdit(Lines(text), key)
    case Some(i) =>
    case None =>
      BaseIsPlain(text);
      MarkerIsPlain();
  }

  lemma BaseIsPlain(text: string)
    requires Plain(text)
    ensures forall l :: l in Lines(Base(text)) ==> PlainLine(l)
  {
    TrimmedLines(text);
    BaseLines(text);
    MarkerIsPlain();
    hide PlainLine, Lines, Base, TrimNewlines, Contains;
    forall l | l in Lines(TrimNewlines(text)) ensures PlainLine(l) { assert l in Lines(text); }
  }

  // ----- a whole update -----

  function SetAll(text: string, changes: seq<(string, string)>): string
    decreases |changes|
  {
    if changes == [] then text else SetAll(SetValue(text, changes[0].0, changes[0].1), changes[1..])
  }

  function ChangesDoc(changes: seq<(string, string)>): Doc {
    if changes == [] then map[] else map[changes[0].0 := changes[0].1] + ChangesDoc(changes[1..])
  }

  predicate ValidChanges(changes: seq<(string, string)>) {
    forall i :: 0 <= i < |changes| ==> ValidKey(changes[i].0) && ValidValue(changes[i].1)
  }

  /** On a plain document any number of changes take effect exactly, and leave a plain
      document. */
  lemma {:induction false} SetAllIsExact(text: string, changes: seq<(string, string)>)
    requires Plain(text) && ValidChanges(changes)
    ensures Parse(SetAll(text, changes)) == Parse(text) + ChangesDoc(changes)
    ensures Plain(SetAll(text, changes))
    decreases |changes|
  {
    hide Parse, SetValue, Plain, ValidKey, ValidValue, SafeToSet;
    if changes == [] {
      DocEmpty(Parse(text));
    } else {
      var (key, v) := changes[0];
      assert ValidKey(key) && ValidValue(v);
      PlainIsSafe(text, key, v);
      SetValueIsExact(text, key, v);
      SetValueKeepsPlain(text, key, v);
      SetAllIsExact(SetValue(text, key, v), changes[1..]);
      assert Parse(text)[key := v] == Parse(text) + map[key := v];
      DocAssoc(Parse(text), map[key := v], ChangesDoc(changes[1..]));
    }
  }

  /** Lines an update may add, rewrite or drop: empty ones, the marker, and the
      assignments of changed keys. */
  predicate Ours(l: string, keys: set<string>) {
    l == [] || l == MARKER || exists k :: k in keys && Edits(l, k)
  }

  /** The lines that are neither empty, nor the marker, nor an assignment of a changed
      key. */
  function Foreign(lines: seq<string>, keys: set<string>): seq<string> {
    if lines == [] then []
    else
      var l := lines[0];
      (if Ours(l, keys) then [] else [l]) + Foreign(lines[1..], keys)
  }

  lemma {:induction false} ForeignConcat(a: seq<string>, b: seq<string>, keys: set<string>)
    ensures Foreign(a + b, keys) == Foreign(a, keys) + Foreign(b, keys)
  {
    hide Edits;
    if a == [] {
      assert a + b == b;
    } else {
      assert (a + b)[1..] == a[1..] + b;
      ForeignConcat(a[1..], b, keys);
    }
  }

  lemma {:induction false} NothingForeign(lines: seq<string>, keys: set<string>)
    requires forall i :: 0 <= i < |lines| ==> Ours(lines[i], keys)
    ensures Foreign(lines, keys) == []
  {
    hide Edits;
    if lines != [] {
      NothingForeign(lines[1..], keys);
    }
  }

  lemma ReplaceKeepsForeign(lines: seq<string>, i: nat, line: string, keys: set<string>, key: string)
    requires i < |lines| && key in keys && Edits(lines[i], key) && Edits(line, key)
    ensures Foreign(lines[i := line], keys) == Foreign(lines, keys)
  {
    hide Edits, Foreign;
    var before, after := lines[..i], lines[i + 1..];
    assert lines == before + ([lines[i]] + after);
    assert lines[i := line] == before + ([line] + after);
    ForeignConcat(before, [lines[i]] + after, keys);
    ForeignConcat(before, [line] + after, keys);
    ForeignConcat([lines[i]], after, keys);
    ForeignConcat([line], after, keys);
    NothingForeign([lines[i]], keys);
    NothingForeign([line], keys);
  }

  lemma ExtendKeepsForeign(core: seq<string>, x: seq<string>, y: seq<string>, keys: set<string>)
    requires forall i :: 0 <= i < |x| ==> Ours(x[i], keys)
    requires forall i :: 0 <= i < |y| ==> Ours(y[i], keys)
    ensures Foreign(core + x, keys) == Foreign(core + y, keys)
  {
    hide Edits, Foreign;
    ForeignConcat(core, x, keys);
    ForeignConcat(core, y, keys);
    NothingForeign(x, keys);
    NothingForeign(y, keys);
  }

  /** What an appended line brings along and what it replaces is all ours. */
  lemma AppendKeepsForeign(text: string, line: string, keys: set<string>, key: string)
    requires key in keys && Edits(line, key)
    requires Lines(TrimNewlines(text)) <= Lines(text)
    requires forall i :: |Lines(TrimNewlines(text))| <= i < |Lines(text)| ==> Lines(text)[i] == []
    ensures Foreign(Lines(Base(text)) + [line, []], keys) == Foreign(Lines(text), keys)
  {
    BaseLines(text);
    hide Edits, Lines, Base, Foreign, TrimNewlines, Contains;
    var core := Lines(TrimNewlines(text));
    var old' := Lines(text)[|core|..];
    var new' := if Contains(text, MARKER) then [line, []] else [[], MARKER, line, []];
    assert Lines(text) == core + old' && Lines(Base(text)) + [line, []] == core + new';
    ExtendKeepsForeign(core, new', old', keys);
  }

  lemma SetValueKeepsForeign(text: string, key: string, v: string, keys: set<string>)
    requires ValidKey(key) && ValidValue(v) && key in keys
    ensures Foreign(Lines(SetValue(text, key, v)), keys) == Foreign(Lines(text), keys)
  {
    OtherLinesSurvive(text, key, v);
    LineIsPlain(key, v);
    hide Line, Edits, SetValue, Base, ValidKey, ValidValue, Lines, Foreign, TrimNewlines;
    match LastEdit(Lines(text), key)
    case Some(i) => ReplaceKeepsForeign(Lines(text), i, Line(key, v), keys, key);
    case None => AppendKeepsForeign(text, Line(key, v), keys, key);
  }

  /** For every text, plain or not: all lines that no changed key owns survive an
      update verbatim and in their order. */
  lemma {:induction false} SetAllKeepsForeign(text: string, changes: seq<(string, string)>, keys: set<string>)
    requires ValidChanges(changes) && forall i :: 0 <= i < |changes| ==> changes[i].0 in keys
    ensures Foreign(Lines(SetAll(text, changes)), keys) == Foreign(Lines(text), keys)
    decreases |changes|
  {
    hide SetValue, Lines, Foreign, ValidKey, ValidValue;
    if changes != [] {
      SetValueKeepsForeign(text, changes[0].0, changes[0].1, keys);
      SetAllKeepsForeign(SetValue(text, changes[0].0, changes[0].1), changes[1..], keys);
    }
  }

  // ----- where the editor and the parser part -----

  /** Every break divides a document for the parser. */
  lemma ParseAtBreak(a: string, c: char, b: string)
    requires IsBreak(c)
    ensures Parse(a + [c] + b) == Parse(a) + Parse(b)
  {
    hide Parse;
    PiecesConcat(a, c, b, IsBreak);
    ParseIsPieces(a);
    ParseIsPieces(b);
    ParseIsPieces(a + [c] + b);
    LinesDocConcat(Pieces(a, IsBreak), Pieces(b, IsBreak));
  }

  lemma EditOneLine(text: string, key: string, v: string)
    requires Lines(text) == [text] && Edits(text, key)
    ensures SetValue(text, key, v) == Line(key, v)
  {
    hide Edits;
    assert [text][0 := Line(key, v)] == [Line(key, v)];
  }

  /** But not for the editor: behind any break that reading leaves alone, an edit takes
      the next setting away. */
  lemma OtherBreakLosesASetting(key: string, old0: string, other: string, w: string, v: string, c: char)
    requires ValidKey(key) && ValidKey(other) && key != other
    requires ValidValue(old0) && ValidValue(w) && ValidValue(v)
    requires IsBreak(c) && c != '\n' && c != '\r'
    ensures var text := Line(key, old0) + [c] + Line(other, w);
            && Universal(text) == text
            && Parse(text) == map[key := old0] + map[other := w]
            && Parse(SetValue(text, key, v)) == map[key := v]
            && !SafeToSet(text, key, v)
  {
    var a, b := Line(key, old0), Line(other, w);
    var text := a + [c] + b;
    NoNewlineIn(key, old0);
    NoNewlineIn(other, w);
    assert NoReturn(text);
    NoReturnStays(text);
    PiecesWhole(text, IsNewline);
    EditsLonger(key, old0, [c] + b);
    assert a + ([c] + b) == text;
    hide Parse, ValidKey, ValidValue, Edits, SafeToSet;
    EditOneLine(text, key, v);
    ParseLine(key, old0);
    ParseLine(other, w);
    ParseLine(key, v);
    ParseAtBreak(a, c, b);
    SetValueIsExact(text, key, v);
    assert other in Parse(text)[key := v];
  }

  // ----- reading the file -----

  /** What a text stream makes of a file's contents: a carriage return, with the newline
      after it if there is one, becomes a newline. */
  function Universal(raw: string): string
    decreases |raw|
  {
    if raw == [] then []
    else if raw[0] == '\r' then ['\n'] + Universal(if |raw| > 1 && raw[1] == '\n' then raw[2..] else raw[1..])
    else [raw[0]] + Universal(raw[1..])
  }

  predicate NoReturn(t: string) {
    forall i :: 0 <= i < |t| ==> t[i] != '\r'
  }

  lemma {:induction false} UniversalHasNoReturn(raw: string)
    ensures NoReturn(Universal(raw))
    decreases |raw|
  {
    if raw != [] {
      UniversalHasNoReturn(if raw[0] == '\r' && |raw| > 1 && raw[1] == '\n' then raw[2..] else raw[1..]);
    }
  }

  lemma {:induction false} NoReturnStays(t: string)
    requires NoReturn(t)
    ensures Universal(t) == t
  {
    if t != [] {
      assert forall i :: 0 <= i < |t[1..]| ==> t[1..][i] == t[i + 1];
      NoReturnStays(t[1..]);
    }
  }

  /** Text comes in as it is in the file exactly if there is no carriage return. */
  lemma ReadingIsVerbatimIff(raw: string)
    ensures Universal(raw) == raw <==> NoReturn(raw)
  {
    UniversalHasNoReturn(raw);
    if NoReturn(raw) { NoReturnStays(raw); }
  }

  /** Reading changes no setting: what it translates ends a line for the parser anyway. */
  lemma ReadingKeepsSettings(raw: string)
    ensures Parse(Universal(raw)) == Parse(raw)
  {
    ParseIsPieces(raw);
    ParseIsPieces(Universal(raw));
    UniversalPieces(raw);
  }

  lemma {:induction false} UniversalPieces(raw: string)
    ensures var p, q := Pieces(Universal(raw), IsBreak), Pieces(raw, IsBreak);
      p[0] == q[0] && LinesDoc(p[1..]) == LinesDoc(q[1..]) && LinesDoc(p) == LinesDoc(q)
    decreases |raw|
  {
    hide LineDoc;
    if raw != [] {
      var rest := if raw[0] == '\r' && |raw| > 1 && raw[1] == '\n' then raw[2..] else raw[1..];
      var c := if raw[0] == '\r' then '\n' else raw[0];
      UniversalPieces(rest);
      assert Universal(raw) == [c] + Universal(rest);
      PiecesOfCons(c, Universal(rest));
      PiecesOfCons(c, rest);
      if raw[0] == '\r' && |raw| > 1 && raw[1] == '\n' {
        assert raw[1..] == ['\n'] + rest && raw == ['\r'] + raw[1..];
        PiecesOfCons('\n', rest);
        PiecesOfCons('\r', raw[1..]);
        EmptyLineIsNothing();
        LinesDocCons([], Pieces(rest, IsBreak));
        DocEmpty(LinesDoc(Pieces(rest, IsBreak)));
      } else {
        assert raw == [raw[0]] + rest;
        PiecesOfCons(raw[0], rest);
      }
    }
  }

  lemma PiecesOfCons(c: char, t: string)
    ensures var r := Pieces(t, IsBreak);
      Pieces([c] + t, IsBreak) == if IsBreak(c) then [[]] + r else [[c] + r[0]] + r[1..]
  {
    assert ([c] + t)[1..] == t;
  }

  /** The lines, joined by carriage return and newline. */
  function JoinCrlf(lines: seq<string>): string
    requires |lines| > 0
  {
    if |lines| == 1 then lines[0] else lines[0] + "\r\n" + JoinCrlf(lines[1..])
  }

  /** A document with carriage returns comes in with newlines, line by line. */
  lemma {:induction false} CrlfIsTranslated(lines: seq<string>)
    requires |lines| > 0 && forall i :: 0 <= i < |lines| ==> NoReturn(lines[i])
    ensures Universal(JoinCrlf(lines)) == Join(lines)
    decreases |lines|
  {
    hide Universal, NoReturn;
    NoReturnStays(lines[0]);
    if |lines| > 1 {
      CrlfIsTranslated(lines[1..]);
      FirstCrlf(lines[0], JoinCrlf(lines[1..]));
    }
  }

  lemma FirstCrlf(line: string, rest: string)
    requires NoReturn(line)
    ensures Universal(line + "\r\n" + rest) == line + "\n" + Universal(rest)
  {
    var tail := "\r\n" + rest;
    assert tail[2..] == rest && Universal(tail) == ['\n'] + Universal(rest);
    UniversalAfter(line, tail);
    hide Universal;
    assert line + "\r\n" + rest == line + tail;
    assert line + "\n" + Universal(rest) == line + (['\n'] + Universal(rest));
  }

  lemma FirstAgain(a: string, t: string)
    requires a != []
    ensures [a[0]] + (a[1..] + t) == a + t
  {
  }

  lemma {:induction false} UniversalAfter(a: string, b: string)
    requires NoReturn(a)
    ensures Universal(a + b) == a + Universal(b)
  {
    if a == [] {
      assert a + b == b;
    } else {
      assert (a + b)[1..] == a[1..] + b;
      assert forall i :: 0 <= i < |a[1..]| ==> a[1..][i] == a[i + 1];
      UniversalAfter(a[1..], b);
      assert (a + b)[0] == a[0];
      hide Universal, NoReturn;
      FirstAgain(a, Universal(b));
    }
  }

  lemma EditsLonger(key: string, v: string, rest: string)
    requires ValidKey(key)
    ensures Edits(Line(key, v) + rest, key)
  {
    var l := Line(key, v) + rest;
    assert l[0] == key[0];
    assert l[..|key| + 1] == key + "=";
  }

  // ----- the editor's slicing of the text -----

  /** Where line `i` begins in the joined text. */
  function Offset(lines: seq<string>, i: nat): nat
    requires i <= |lines|
  {
    if i == 0 then 0 else |lines[0]| + 1 + Offset(lines[1..], i - 1)
  }

  lemma {:induction false} OffsetStep(lines: seq<string>, i: nat)
    requires i < |lines|
    ensures Offset(lines, i + 1) == Offset(lines, i) + |lines[i]| + 1
  {
    if i > 0 {
      OffsetStep(lines[1..], i - 1);
    }
  }

  lemma SliceInTail(head: string, t: string, o: nat, n: nat, line: string)
    requires o + n <= |t|
    ensures var u := head + "\n" + t;
            var p := |head| + 1 + o;
            && u[p..p + n] == t[o..o + n]
            && u[..p] + line + u[p + n..] == head + "\n" + (t[..o] + line + t[o + n..])
  {
  }

  lemma CutHead(head: string, t: string, line: string)
    ensures var u := head + "\n" + t; u[..0] + line + u[|head|..] == line + "\n" + t
  {
  }

  /** Rewriting a line is cutting the text at its offset. */
  lemma {:induction false} SliceAtOffset(lines: seq<string>, i: nat, line: string)
    requires i < |lines|
    ensures var t, o := Join(lines), Offset(lines, i);
            && o + |lines[i]| <= |t|
            && Join(lines[i := line]) == t[..o] + line + t[o + |lines[i]|..]
  {
    if |lines| > 1 {
      var rest := lines[1..];
      if i == 0 {
        assert lines[0 := line][1..] == rest;
        CutHead(lines[0], Join(rest), line);
      } else {
        SliceAtOffset(rest, i - 1, line);
        assert lines[i := line][1..] == rest[i - 1 := line];
        SliceInTail(lines[0], Join(rest), Offset(rest, i - 1), |lines[i]|, line);
      }
    }
  }

  method SetValueInText(text: string, key: string, v: string) returns (result: string)
    ensures result == SetValue(text, key, v)
  {
    hide Edits, Join, Line;
    var line := Line(key, v);
    var lines := Lines(text);
    var last: Option<nat> := None;
    var start, end, pos := 0, 0, 0;
    for i := 0 to |lines|
      invariant pos == Offset(lines, i)
      invariant last.Some? ==> last.value < i && Edits(lines[last.value], key)
      invariant last.Some? ==> start == Offset(lines, last.value) && end == start + |lines[last.value]|
      invariant forall j :: 0 <= j < i && (last.None? || j > last.value) ==> !Edits(lines[j], key)
    {
      if Edits(lines[i], key) {
        last, start, end := Some(i), pos, pos + |lines[i]|;
      }
      OffsetStep(lines, i);
      pos := pos + |lines[i]| + 1;
    }
    assert last == LastEdit(lines, key);
    if last.Some? {
      JoinPieces(text);
      SliceAtOffset(lines, last.value, line);
      return text[..start] + line + text[end..];
    }
    return Base(text) + "\n" + line + "\n";
  }
}
