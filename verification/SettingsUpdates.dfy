/** Several changes to one document: when they take exactly effect, for every text and
    not only for plain ones.
  */
module SettingsUpdates {
  import opened Basics
  import opened Text
  import opened Settings

  type Changes = seq<(string, string)>

  /** The keys of a mapping. */
  predicate Distinct(cs: Changes) {
    forall i, j :: 0 <= i < j < |cs| ==> cs[i].0 != cs[j].0
  }

  predicate IsKey(cs: Changes, key: string) {
    exists i :: 0 <= i < |cs| && cs[i].0 == key
  }

  // ----- a line after all the changes -----

  /** Some change rewrites line `j`. */
  predicate Edited(lines: seq<string>, j: nat, cs: Changes) {
    cs != [] && (LastEdit(lines, cs[0].0) == Some(j) || Edited(lines, j, cs[1..]))
  }

  /** What line `j` assigns in the end. */
  function LineNow(lines: seq<string>, j: nat, cs: Changes): Doc
    requires j < |lines|
    decreases |cs|
  {
    if cs == [] then Parse(lines[j])
    else if LastEdit(lines, cs[0].0) == Some(j) then map[cs[0].0 := cs[0].1]
    else LineNow(lines, j, cs[1..])
  }

  /** What the lines from `from` on assign in the end. */
  function NewDoc(lines: seq<string>, from: nat, cs: Changes): Doc
    requires from <= |lines|
    decreases |lines| - from
  {
    if from == |lines| then map[] else LineNow(lines, from, cs) + NewDoc(lines, from + 1, cs)
  }

  /** What the lines from `from` on that no change rewrites assign. */
  function Kept(lines: seq<string>, from: nat, cs: Changes): Doc
    requires from <= |lines|
    decreases |lines| - from
  {
    if from == |lines| then map[]
    else if Edited(lines, from, cs) then Kept(lines, from + 1, cs)
    else Parse(lines[from]) + Kept(lines, from + 1, cs)
  }

  /** The changes whose keys no line has. */
  function Appended(lines: seq<string>, cs: Changes): Doc {
    if cs == [] then map[]
    else if LastEdit(lines, cs[0].0) == None then map[cs[0].0 := cs[0].1] + Appended(lines, cs[1..])
    else Appended(lines, cs[1..])
  }

  // ----- which lines are edited -----

  /** A line begins with one key at most. */
  lemma OneKey(line: string, k: string, l: string)
    requires ValidKey(k) && ValidKey(l) && Edits(line, k) && Edits(line, l)
    ensures k == l
  {
    var u := Unindent(line);
    assert u[..|k| + 1] == k + "=" && u[..|l| + 1] == l + "=";
    assert u[..|k|] == k && u[|k|] == '=' && u[..|l|] == l && u[|l|] == '=';
    assert forall n :: 0 <= n < |k| ==> u[n] == k[n] && u[n] != '=';
    assert forall n :: 0 <= n < |l| ==> u[n] == l[n] && u[n] != '=';
  }

  /** The same lines assign the key. */
  lemma SameLastEdit(a: seq<string>, b: seq<string>, k: string)
    requires |a| == |b| && forall j :: 0 <= j < |a| ==> (Edits(a[j], k) <==> Edits(b[j], k))
    ensures LastEdit(a, k) == LastEdit(b, k)
  {
    hide Edits, LastEdit;
  }

  predicate NoEdits(lines: seq<string>, k: string) {
    forall j :: 0 <= j < |lines| ==> !Edits(lines[j], k)
  }

  lemma LastEditInFront(a: seq<string>, x: seq<string>, k: string)
    requires NoEdits(x, k)
    ensures LastEdit(a + x, k) == LastEdit(a, k)
  {
    hide Edits, LastEdit;
    assert forall j :: 0 <= j < |a| ==> (a + x)[j] == a[j];
    assert forall j :: |a| <= j < |a + x| ==> (a + x)[j] == x[j - |a|];
    var r := LastEdit(a + x, k);
    if r.Some? { assert r.value < |a|; }
  }

  // ----- one change at a time -----

  lemma {:induction false} SameLineNow(a: seq<string>, b: seq<string>, j: nat, cs: Changes)
    requires j < |a| && j < |b| && a[j] == b[j]
    requires forall i :: 0 <= i < |cs| ==> LastEdit(a, cs[i].0) == LastEdit(b, cs[i].0)
    ensures LineNow(a, j, cs) == LineNow(b, j, cs)
    decreases |cs|
  {
    hide Parse, LastEdit;
    if cs != [] {
      assert forall i :: 0 <= i < |cs[1..]| ==> cs[1..][i] == cs[i + 1];
      SameLineNow(a, b, j, cs[1..]);
    }
  }

  lemma {:induction false} UntouchedLine(lines: seq<string>, j: nat, cs: Changes)
    requires j < |lines| && forall i :: 0 <= i < |cs| ==> LastEdit(lines, cs[i].0) != Some(j)
    ensures LineNow(lines, j, cs) == Parse(lines[j])
    decreases |cs|
  {
    hide Parse, LastEdit;
    if cs != [] {
      assert forall i :: 0 <= i < |cs[1..]| ==> cs[1..][i] == cs[i + 1];
      UntouchedLine(lines, j, cs[1..]);
    }
  }

  /** Rewriting the line of the first change anticipates it. */
  lemma {:induction false} EditAnticipated(lines: seq<string>, i: nat, line: string, cs: Changes, from: nat)
    requires cs != [] && from <= |lines| && LastEdit(lines, cs[0].0) == Some(i)
    requires Parse(line) == map[cs[0].0 := cs[0].1]
    requires forall n :: 1 <= n < |cs| ==>
      LastEdit(lines, cs[n].0) != Some(i) && LastEdit(lines[i := line], cs[n].0) == LastEdit(lines, cs[n].0)
    ensures NewDoc(lines[i := line], from, cs[1..]) == NewDoc(lines, from, cs)
    decreases |lines| - from
  {
    hide Parse, LastEdit;
    if from < |lines| {
      EditAnticipated(lines, i, line, cs, from + 1);
      var rest, lines' := cs[1..], lines[i := line];
      assert forall n :: 0 <= n < |rest| ==> rest[n] == cs[n + 1];
      if from == i {
        UntouchedLine(lines', i, rest);
      } else {
        SameLineNow(lines', lines, from, rest);
      }
    }
  }

  lemma {:induction false} AbsentSkipped(lines: seq<string>, cs: Changes, from: nat)
    requires cs != [] && from <= |lines| && LastEdit(lines, cs[0].0) == None
    ensures NewDoc(lines, from, cs) == NewDoc(lines, from, cs[1..])
    decreases |lines| - from
  {
    hide Parse, LastEdit;
    if from < |lines| { AbsentSkipped(lines, cs, from + 1); }
  }

  /** Lines at the end that no change rewrites. */
  lemma {:induction false} TailKept(a: seq<string>, x: seq<string>, cs: Changes, from: nat)
    requires from <= |a| + |x|
    requires forall i :: 0 <= i < |cs| ==> LastEdit(a + x, cs[i].0) == LastEdit(a, cs[i].0)
    ensures NewDoc(a + x, from, cs) ==
      if from <= |a| then NewDoc(a, from, cs) + DocOf(x) else DocOf(x[from - |a|..])
    decreases |a| + |x| - from
  {
    hide Parse, LastEdit;
    var lines := a + x;
    if from < |lines| {
      TailKept(a, x, cs, from + 1);
      if from < |a| {
        SameLineNow(lines, a, from, cs);
        DocAssoc(LineNow(a, from, cs), NewDoc(a, from + 1, cs), DocOf(x));
      } else {
        AtTail(a, cs, from);
        UntouchedLine(lines, from, cs);
        var t := x[from - |a|..];
        assert t[0] == lines[from] && t[1..] == x[from + 1 - |a|..];
        if from == |a| {
          assert x[0..] == x;
          DocEmpty(DocOf(x));
        }
      }
    } else {
      assert x[|x|..] == [];
      if from == |a| { assert x == []; }
    }
  }

  lemma AtTail(a: seq<string>, cs: Changes, from: nat)
    requires |a| <= from
    ensures forall i :: 0 <= i < |cs| ==> LastEdit(a, cs[i].0) != Some(from)
  {
    hide Edits;
  }

  lemma {:induction false} NoChange(lines: seq<string>, from: nat)
    requires from <= |lines|
    ensures NewDoc(lines, from, []) == DocOf(lines[from..])
    decreases |lines| - from
  {
    hide Parse;
    if from < |lines| {
      NoChange(lines, from + 1);
      assert lines[from..][0] == lines[from] && lines[from..][1..] == lines[from + 1..];
    }
  }

  lemma {:induction false} SameAppended(a: seq<string>, b: seq<string>, cs: Changes)
    requires forall i :: 0 <= i < |cs| ==> LastEdit(a, cs[i].0) == LastEdit(b, cs[i].0)
    ensures Appended(a, cs) == Appended(b, cs)
  {
    hide LastEdit;
    if cs != [] {
      assert forall i :: 0 <= i < |cs[1..]| ==> cs[1..][i] == cs[i + 1];
      SameAppended(a, b, cs[1..]);
    }
  }

  lemma ParseByLines(text: string)
    ensures Parse(text) == DocOf(Lines(text))
  {
    hide Parse;
    JoinPieces(text);
    ParseJoin(Lines(text));
  }

  /** The lines and what the changes make of them add up to the edited document. */
  lemma {:induction false} AllParsed(text: string, cs: Changes)
    requires ValidChanges(cs) && Distinct(cs)
    ensures Parse(SetAll(text, cs)) == NewDoc(Lines(text), 0, cs) + Appended(Lines(text), cs)
    decreases |cs|
  {
    hide Parse, SetValue, LastEdit, Lines, ValidKey, ValidValue;
    if cs == [] {
      ParseByLines(text);
      NoChange(Lines(text), 0);
      assert Lines(text)[0..] == Lines(text);
      DocEmpty(DocOf(Lines(text)));
    } else {
      var (key, v) := cs[0];
      var text' := SetValue(text, key, v);
      var rest := cs[1..];
      assert forall i :: 0 <= i < |rest| ==> rest[i] == cs[i + 1];
      AllParsed(text', rest);
      OtherLinesSurvive(text, key, v);
      if LastEdit(Lines(text), key).Some? {
        FirstEdits(text, cs);
      } else {
        FirstAppends(text, cs);
      }
    }
  }

  lemma FirstEdits(text: string, cs: Changes)
    requires cs != [] && ValidChanges(cs) && Distinct(cs) && LastEdit(Lines(text), cs[0].0).Some?
    requires Lines(SetValue(text, cs[0].0, cs[0].1)) ==
      Lines(text)[LastEdit(Lines(text), cs[0].0).value := Line(cs[0].0, cs[0].1)]
    ensures var lines' := Lines(SetValue(text, cs[0].0, cs[0].1));
      && NewDoc(lines', 0, cs[1..]) == NewDoc(Lines(text), 0, cs)
      && Appended(lines', cs[1..]) == Appended(Lines(text), cs)
  {
    hide Parse, SetValue, Lines, LastEdit;
    var (key, v) := cs[0];
    var lines, line := Lines(text), Line(key, v);
    var i := LastEdit(lines, key).value;
    LineIsPlain(key, v);
    ParseLine(key, v);
    forall n | 1 <= n < |cs|
      ensures LastEdit(lines, cs[n].0) != Some(i) && LastEdit(lines[i := line], cs[n].0) == LastEdit(lines, cs[n].0)
    {
      OtherKeyUnmoved(lines, i, line, key, cs[n].0);
    }
    hide Line, Edits, ValidKey, ValidValue;
    EditAnticipated(lines, i, line, cs, 0);
    SameAppended(lines[i := line], lines, cs[1..]);
  }

  lemma OtherKeyUnmoved(lines: seq<string>, i: nat, line: string, key: string, other: string)
    requires i < |lines| && ValidKey(key) && ValidKey(other) && key != other
    requires Edits(lines[i], key) && Edits(line, key)
    ensures LastEdit(lines, other) != Some(i) && LastEdit(lines[i := line], other) == LastEdit(lines, other)
  {
    if Edits(lines[i], other) { OneKey(lines[i], key, other); }
    if Edits(line, other) { OneKey(line, key, other); }
    hide Edits, ValidKey;
    SameLastEdit(lines[i := line], lines, other);
  }

  lemma FirstAppends(text: string, cs: Changes)
    requires cs != [] && ValidChanges(cs) && Distinct(cs) && LastEdit(Lines(text), cs[0].0) == None
    ensures var lines' := Lines(SetValue(text, cs[0].0, cs[0].1));
      NewDoc(lines', 0, cs[1..]) + Appended(lines', cs[1..]) == NewDoc(Lines(text), 0, cs) + Appended(Lines(text), cs)
  {
    hide Parse, SetValue, Lines, LastEdit, TrimNewlines, Base, Contains;
    var (key, v) := cs[0];
    var rest, core := cs[1..], Lines(TrimNewlines(text));
    OtherLinesSurvive(text, key, v);
    BaseLines(text);
    var mid := if Contains(text, MARKER) then [] else [[], MARKER];
    var tail := mid + [Line(key, v), []];
    var empties := Lines(text)[|core|..];
    var lines' := Lines(SetValue(text, key, v));
    assert Lines(text) == core + empties && lines' == core + tail;
    TailsEditNothing(core, tail, empties, cs);
    AppendedTail(mid, key, v);
    EmptyDoc(empties);
    assert forall n :: 0 <= n < |rest| ==> rest[n] == cs[n + 1];
    TailKept(core, tail, rest, 0);
    TailKept(core, empties, cs, 0);
    AbsentSkipped(core, cs, 0);
    SameAppended(lines', Lines(text), rest);
    var doc, later := NewDoc(core, 0, rest), Appended(Lines(text), rest);
    hide NewDoc, Appended;
    DocAssoc(doc, map[key := v], later);
    DocEmpty(doc);
    AppendedFirst(Lines(text), cs);
  }

  lemma AppendedFirst(lines: seq<string>, cs: Changes)
    requires cs != [] && LastEdit(lines, cs[0].0) == None
    ensures Appended(lines, cs) == map[cs[0].0 := cs[0].1] + Appended(lines, cs[1..])
  {
  }

  lemma {:induction false} EmptyDoc(lines: seq<string>)
    requires forall i :: 0 <= i < |lines| ==> lines[i] == []
    ensures DocOf(lines) == map[]
  {
    ParseEmpty();
    hide Parse;
    if lines != [] { EmptyDoc(lines[1..]); }
  }

  lemma DocOfTwo(a: string, b: string)
    ensures DocOf([a, b]) == Parse(a) + Parse(b)
  {
    hide Parse;
    assert [a, b][1..] == [b] && [b][1..] == [];
    assert DocOf([b]) == Parse(b) + DocOf([]);
    DocEmpty(Parse(b));
  }

  lemma AppendedTail(mid: seq<string>, key: string, v: string)
    requires mid == [] || mid == [[], MARKER]
    requires ValidKey(key) && ValidValue(v)
    ensures DocOf(mid + [Line(key, v), []]) == map[key := v]
  {
    ParseEmpty();
    ParseMarker();
    ParseLine(key, v);
    hide Parse, ValidKey, ValidValue, Line, DocOf;
    DocOfTwo(Line(key, v), []);
    DocOfTwo([], MARKER);
    DocOfConcat(mid, [Line(key, v), []]);
    if mid == [] { assert mid + [Line(key, v), []] == [Line(key, v), []]; }
  }

  /** Neither what is dropped nor what is added is edited by another change. */
  lemma TailsEditNothing(core: seq<string>, tail: seq<string>, empties: seq<string>, cs: Changes)
    requires cs != [] && ValidChanges(cs) && Distinct(cs)
    requires forall j :: 0 <= j < |tail| ==> tail[j] == [] || tail[j] == MARKER || tail[j] == Line(cs[0].0, cs[0].1)
    requires forall j :: 0 <= j < |empties| ==> empties[j] == []
    requires LastEdit(core + empties, cs[0].0) == None
    ensures forall n :: 0 <= n < |cs| ==> LastEdit(core + empties, cs[n].0) == LastEdit(core, cs[n].0)
    ensures forall n :: 1 <= n < |cs| ==> LastEdit(core + tail, cs[n].0) == LastEdit(core, cs[n].0)
  {
    hide LastEdit;
    LineIsPlain(cs[0].0, cs[0].1);
    forall n | 0 <= n < |cs|
      ensures LastEdit(core + empties, cs[n].0) == LastEdit(core, cs[n].0)
      ensures n > 0 ==> LastEdit(core + tail, cs[n].0) == LastEdit(core, cs[n].0)
    {
      OursEditNothing(cs[n].0);
      if n > 0 && Edits(Line(cs[0].0, cs[0].1), cs[n].0) { OneKey(Line(cs[0].0, cs[0].1), cs[0].0, cs[n].0); }
      hide Edits, Line, ValidKey, ValidValue;
      LastEditInFront(core, empties, cs[n].0);
      if n > 0 { LastEditInFront(core, tail, cs[n].0); }
    }
  }

  lemma OursEditNothing(key: string)
    requires ValidKey(key)
    ensures !Edits([], key) && !Edits(MARKER, key)
  {
    assert MARKER[0] == '#';
    assert Unindent(MARKER) == MARKER;
    assert (key + "=")[0] == key[0];
  }

  // ----- when the changes take exactly effect -----

  predicate SameAt(a: Doc, b: Doc, k: string) {
    (k in a <==> k in b) && (k in a ==> a[k] == b[k])
  }

  lemma {:induction false} LineNowIs(lines: seq<string>, j: nat, cs: Changes)
    requires j < |lines|
    ensures !Edited(lines, j, cs) ==> LineNow(lines, j, cs) == Parse(lines[j])
    ensures Edited(lines, j, cs) ==> exists n :: 0 <= n < |cs| && Rewrites(lines, j, cs, n)
    decreases |cs|
  {
    hide Parse, LastEdit;
    if cs != [] {
      if LastEdit(lines, cs[0].0) == Some(j) {
        assert Rewrites(lines, j, cs, 0);
      } else {
        LineNowIs(lines, j, cs[1..]);
        if Edited(lines, j, cs) {
          var n :| 0 <= n < |cs[1..]| && Rewrites(lines, j, cs[1..], n);
          assert cs[1..][n] == cs[n + 1];
          assert Rewrites(lines, j, cs, n + 1);
        }
      }
    }
  }

  predicate Rewrites(lines: seq<string>, j: nat, cs: Changes, n: nat)
    requires j < |lines| && n < |cs|
  {
    LastEdit(lines, cs[n].0) == Some(j) && LineNow(lines, j, cs) == map[cs[n].0 := cs[n].1]
  }

  lemma {:induction false} IsEdited(lines: seq<string>, j: nat, cs: Changes, n: nat)
    requires n < |cs| && LastEdit(lines, cs[n].0) == Some(j)
    ensures Edited(lines, j, cs)
    decreases |cs|
  {
    hide LastEdit;
    if n > 0 { IsEdited(lines, j, cs[1..], n - 1); }
  }

  /** A key no change of which rewrites a line from `from` on. */
  predicate Unmoved(lines: seq<string>, from: nat, cs: Changes, k: string) {
    forall n :: 0 <= n < |cs| && cs[n].0 == k && LastEdit(lines, k).Some? ==> LastEdit(lines, k).value < from
  }

  /** For such a key only the lines that no change rewrites count. */
  lemma {:induction false} UnmovedIsKept(lines: seq<string>, from: nat, cs: Changes, k: string)
    requires from <= |lines| && Unmoved(lines, from, cs, k)
    ensures SameAt(NewDoc(lines, from, cs), Kept(lines, from, cs), k)
    decreases |lines| - from
  {
    hide Parse, LastEdit, LineNow, Edited;
    if from < |lines| {
      UnmovedIsKept(lines, from + 1, cs, k);
      LineNowIs(lines, from, cs);
      if Edited(lines, from, cs) {
        var n :| 0 <= n < |cs| && Rewrites(lines, from, cs, n);
        assert cs[n].0 != k;
      }
    }
  }

  /** A changed key has its new value, unless a line behind the rewritten one that no change
      rewrites has the last word. */
  lemma {:induction false} MovedIsNew(lines: seq<string>, from: nat, cs: Changes, n: nat)
    requires ValidChanges(cs) && Distinct(cs) && n < |cs| && LastEdit(lines, cs[n].0).Some?
    requires from <= LastEdit(lines, cs[n].0).value
    ensures var k, i := cs[n].0, LastEdit(lines, cs[n].0).value; var behind := Kept(lines, i + 1, cs);
      && k in NewDoc(lines, from, cs)
      && NewDoc(lines, from, cs)[k] == if k in behind then behind[k] else cs[n].1
    decreases |lines| - from
  {
    var k, i := cs[n].0, LastEdit(lines, cs[n].0).value;
    hide Parse, LastEdit, LineNow, Edited;
    LineNowIs(lines, from, cs);
    if from == i {
      IsEdited(lines, i, cs, n);
      var m :| 0 <= m < |cs| && Rewrites(lines, from, cs, m);
      SameLineSameKey(lines, cs, m, n);
      UnmovedIsKept(lines, i + 1, cs, k);
    } else {
      MovedIsNew(lines, from + 1, cs, n);
    }
  }

  lemma SameLineSameKey(lines: seq<string>, cs: Changes, m: nat, n: nat)
    requires ValidChanges(cs) && Distinct(cs) && m < |cs| && n < |cs|
    requires LastEdit(lines, cs[m].0).Some? && LastEdit(lines, cs[m].0) == LastEdit(lines, cs[n].0)
    ensures m == n
  {
    hide LastEdit;
    OneKey(lines[LastEdit(lines, cs[m].0).value], cs[m].0, cs[n].0);
  }

  lemma {:induction false} ChangesAt(cs: Changes, n: nat)
    requires Distinct(cs) && n < |cs|
    ensures cs[n].0 in ChangesDoc(cs) && ChangesDoc(cs)[cs[n].0] == cs[n].1
  {
    if n == 0 {
      OnlyKeys(cs[1..], cs[0].0);
    } else {
      ChangesAt(cs[1..], n - 1);
    }
  }

  lemma {:induction false} OnlyKeys(cs: Changes, k: string)
    ensures k in ChangesDoc(cs) ==> exists n :: 0 <= n < |cs| && cs[n].0 == k
  {
    if cs != [] && k in ChangesDoc(cs) && k != cs[0].0 {
      OnlyKeys(cs[1..], k);
      var n :| 0 <= n < |cs[1..]| && cs[1..][n].0 == k;
      assert cs[n + 1].0 == k;
    } else if cs != [] && k == cs[0].0 {
      assert cs[0].0 == k;
    }
  }

  lemma {:induction false} AppendedAt(lines: seq<string>, cs: Changes, k: string)
    requires Distinct(cs)
    ensures forall n :: 0 <= n < |cs| && cs[n].0 == k && LastEdit(lines, k) == None ==>
      k in Appended(lines, cs) && Appended(lines, cs)[k] == cs[n].1
    ensures k in Appended(lines, cs) ==> exists n :: 0 <= n < |cs| && cs[n].0 == k && LastEdit(lines, k) == None
  {
    hide LastEdit;
    if cs != [] {
      var rest := cs[1..];
      AppendedAt(lines, rest, k);
      assert forall n :: 0 <= n < |rest| ==> rest[n] == cs[n + 1];
      if k in Appended(lines, rest) {
        var n :| 0 <= n < |rest| && rest[n].0 == k && LastEdit(lines, k) == None;
        assert cs[n + 1].0 == k;
      }
      if cs[0].0 == k && LastEdit(lines, k) == None { assert k !in Appended(lines, rest); }
    }
  }

  /** What a caller can check before an update: the lines that it leaves alone give every
      other key the value it has, and behind the line rewritten for a key none of them
      gives that key another value. */
  predicate SafeToSetAll(text: string, cs: Changes) {
    OthersKept(Lines(text), cs) && NothingBehind(Lines(text), cs)
  }

  predicate OthersKept(lines: seq<string>, cs: Changes) {
    && (forall k :: k in DocOf(lines) && !IsKey(cs, k) ==> SameAt(Kept(lines, 0, cs), DocOf(lines), k))
    && (forall k :: k in Kept(lines, 0, cs) && !IsKey(cs, k) ==> SameAt(Kept(lines, 0, cs), DocOf(lines), k))
  }

  predicate NothingBehind(lines: seq<string>, cs: Changes) {
    forall n :: 0 <= n < |cs| ==> LastWord(lines, cs, n)
  }

  predicate LastWord(lines: seq<string>, cs: Changes, n: nat)
    requires n < |cs|
  {
    LastEdit(lines, cs[n].0).Some? ==>
      var behind := Kept(lines, LastEdit(lines, cs[n].0).value + 1, cs);
      cs[n].0 in behind ==> behind[cs[n].0] == cs[n].1
  }

  /** An unchanged key comes out as the lines left alone give it. */
  lemma OtherKeyNow(lines: seq<string>, cs: Changes, k: string)
    requires ValidChanges(cs) && Distinct(cs) && !IsKey(cs, k)
    ensures SameAt(NewDoc(lines, 0, cs) + Appended(lines, cs), Kept(lines, 0, cs), k)
    ensures SameAt(DocOf(lines) + ChangesDoc(cs), DocOf(lines), k)
  {
    hide Parse, LastEdit;
    UnmovedIsKept(lines, 0, cs, k);
    AppendedAt(lines, cs, k);
    OnlyKeys(cs, k);
  }

  /** A changed key comes out new exactly if its line has the last word. */
  lemma ChangedKeyNow(lines: seq<string>, cs: Changes, n: nat)
    requires ValidChanges(cs) && Distinct(cs) && n < |cs|
    ensures var k := cs[n].0; var now := NewDoc(lines, 0, cs) + Appended(lines, cs);
      && k in now && (now[k] == cs[n].1 <==> LastWord(lines, cs, n))
      && k in ChangesDoc(cs) && ChangesDoc(cs)[k] == cs[n].1
  {
    hide Parse, LastEdit, Kept, NewDoc, Appended;
    ChangesAt(cs, n);
    AppendedAt(lines, cs, cs[n].0);
    if LastEdit(lines, cs[n].0).Some? { MovedIsNew(lines, 0, cs, n); }
  }

  lemma KeptForAll(lines: seq<string>, cs: Changes)
    ensures OthersKept(lines, cs) <==> forall k :: !IsKey(cs, k) ==> SameAt(Kept(lines, 0, cs), DocOf(lines), k)
  {
    hide Kept, DocOf, IsKey;
  }

  /** Two maps that agree with others away from the keys, and one of which has the new
      values at the keys. */
  lemma MapsAgree(now: Doc, wanted: Doc, kept: Doc, old': Doc, cs: Changes)
    requires forall k :: !IsKey(cs, k) ==> SameAt(now, kept, k) && SameAt(wanted, old', k)
    requires forall n :: 0 <= n < |cs| ==> cs[n].0 in now && cs[n].0 in wanted && wanted[cs[n].0] == cs[n].1
    ensures now == wanted <==>
      && (forall k :: !IsKey(cs, k) ==> SameAt(kept, old', k))
      && (forall n :: 0 <= n < |cs| ==> now[cs[n].0] == cs[n].1)
  {
    if now == wanted {
      forall k | !IsKey(cs, k) ensures SameAt(kept, old', k) {
        assert SameAt(now, kept, k) && SameAt(wanted, old', k);
      }
    }
    if (forall k :: !IsKey(cs, k) ==> SameAt(kept, old', k)) && (forall n :: 0 <= n < |cs| ==> now[cs[n].0] == cs[n].1) {
      forall k ensures SameAt(now, wanted, k) {
        if IsKey(cs, k) {
          var n :| 0 <= n < |cs| && cs[n].0 == k;
        } else {
          assert SameAt(now, kept, k) && SameAt(wanted, old', k) && SameAt(kept, old', k);
        }
      }
      EqualAt(now, wanted);
    }
  }

  lemma EqualAt(a: Doc, b: Doc)
    requires forall k :: SameAt(a, b, k)
    ensures a == b
  {
    forall k ensures k in a <==> k in b { assert SameAt(a, b, k); }
    forall k | k in a ensures a[k] == b[k] { assert SameAt(a, b, k); }
  }

  /** For every text and any number of changes to different keys: the edited document parses
      to the old one with exactly those keys changed if and only if the text was safe to
      edit. */
  lemma SetAllIsExactIff(text: string, cs: Changes)
    requires ValidChanges(cs) && Distinct(cs)
    ensures Parse(SetAll(text, cs)) == Parse(text) + ChangesDoc(cs) <==> SafeToSetAll(text, cs)
  {
    AllParsed(text, cs);
    ParseByLines(text);
    hide Parse, SetAll, LastEdit, Lines, ValidChanges, Kept, NewDoc, Appended, ChangesDoc, DocOf, LastWord, SameAt,
         IsKey, OthersKept;
    var lines := Lines(text);
    var now, wanted := NewDoc(lines, 0, cs) + Appended(lines, cs), DocOf(lines) + ChangesDoc(cs);
    forall k | !IsKey(cs, k)
      ensures SameAt(now, Kept(lines, 0, cs), k) && SameAt(wanted, DocOf(lines), k)
    {
      OtherKeyNow(lines, cs, k);
    }
    forall n | 0 <= n < |cs|
      ensures cs[n].0 in now && (now[cs[n].0] == cs[n].1 <==> LastWord(lines, cs, n))
      ensures cs[n].0 in wanted && wanted[cs[n].0] == cs[n].1
    {
      ChangedKeyNow(lines, cs, n);
    }
    MapsAgree(now, wanted, Kept(lines, 0, cs), DocOf(lines), cs);
    KeptForAll(lines, cs);
  }
}
