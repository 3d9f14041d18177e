/** Making captured text fit to be read aloud: `condition_text` and `speech_chunks`. */
module Conditioning {
  import opened Basics
  import opened Text
  import opened Sentences
  import Escapes

  const DEL := '\U{7F}'
  const TRUNCATION_NOTE := " \U{2026}truncated"

  /** Control characters that are dropped; the rest of C0 becomes a space or a newline. */
  predicate Dropped(c: char) {
    c < '\t' || '\U{0E}' <= c < ' ' || c == DEL || '\U{80}' <= c <= '\U{9F}'
  }

  function Translated(s: string): string {
    if s == [] then []
    else
      var rest := Translated(s[1..]);
      if Dropped(s[0]) then rest
      else if s[0] == '\t' then [' '] + rest
      else if '\n' <= s[0] <= '\r' then ['\n'] + rest
      else [s[0]] + rest
  }

  predicate IsBox(c: char) {
    '\U{2500}' <= c <= '\U{257F}'
  }

  /** How many characters at the start are the same. */
  function Same(s: string): (n: nat)
    ensures n <= |s| && (s != [] ==> n > 0)
    ensures forall i :: 0 <= i < n ==> s[i] == s[0]
    ensures n < |s| ==> s[n] != s[0]
  {
    if |s| < 2 then |s| else if s[1] == s[0] then 1 + Same(s[1..]) else 1
  }

  /** Runs of three or more of one box-drawing character go. */
  function WithoutBoxRuns(s: string): string
    decreases |s|
  {
    if s == [] then []
    else if IsBox(s[0]) && Same(s) >= 3 then WithoutBoxRuns(s[Same(s)..])
    else [s[0]] + WithoutBoxRuns(s[1..])
  }

  predicate Blank(c: char) {
    IsSpace(c) && c != '\n'
  }

  predicate Gap(c: char) {
    c == ' ' || c == '\n'
  }

  function Drop(s: string, p: char -> bool): (r: string)
    ensures |r| <= |s|
    ensures r != [] ==> !p(r[0])
  {
    if s != [] && p(s[0]) then Drop(s[1..], p) else s
  }

  /** Every horizontal run becomes one space. */
  function OneSpace(s: string): string
    decreases |s|
  {
    if s == [] then []
    else if Blank(s[0]) then [' '] + OneSpace(Drop(s[1..], Blank))
    else [s[0]] + OneSpace(s[1..])
  }

  /** Every line break with the spaces and breaks around it becomes one newline. */
  function OneNewline(s: string): string
    decreases |s|
  {
    if s == [] then []
    else if s[0] == '\n' then ['\n'] + OneNewline(Drop(s[1..], Gap))
    else if s[0] == ' ' && |s| > 1 && s[1] == '\n' then ['\n'] + OneNewline(Drop(s[2..], Gap))
    else [s[0]] + OneNewline(s[1..])
  }

  /** What is left to speak once the rules are gone. */
  function Spoken(text: string): string {
    WithoutBoxRuns(Translated(Escapes.Strip(text)))
  }

  function Conditioned(text: string): string {
    Strip(OneNewline(OneSpace(Spoken(text))))
  }

  /** `condition_text`; a negative budget is none at all. */
  function ConditionText(text: string, maxChars: Option<int>): string {
    var result := Conditioned(text);
    if maxChars == None then result
    else
      var limit := if maxChars.value < 0 then 0 else maxChars.value;
      if |result| <= limit then result
      else if limit == 0 then []
      else RStrip(result[..limit]) + TRUNCATION_NOTE
  }

  // ----- no control character survives -----

  predicate Clear(s: string) {
    forall i :: 0 <= i < |s| ==> s[i] == '\n' || ' ' <= s[i] < DEL || s[i] > '\U{9F}'
  }

  lemma {:induction false} TranslatedIsClear(s: string)
    ensures Clear(Translated(s)) && |Translated(s)| <= |s|
  {
    if s != [] { TranslatedIsClear(s[1..]); }
  }

  lemma {:induction false} ClearStays(s: string)
    requires Clear(s)
    ensures Translated(s) == s
  {
    if s != [] { ClearStays(s[1..]); }
  }

  lemma {:induction false} BoxesKeepClear(s: string)
    requires Clear(s)
    ensures Clear(WithoutBoxRuns(s)) && |WithoutBoxRuns(s)| <= |s|
    decreases |s|
  {
    if s != [] {
      if IsBox(s[0]) && Same(s) >= 3 { BoxesKeepClear(s[Same(s)..]); } else { BoxesKeepClear(s[1..]); }
    }
  }

  /** Only white space is dropped. */
  predicate SpacesOnly(p: char -> bool) {
    forall c :: p(c) ==> IsSpace(c)
  }

  /** What is left of a suffix. */
  lemma {:induction false} DropCuts(s: string, p: char -> bool)
    requires Clear(s) && SpacesOnly(p)
    ensures Clear(Drop(s, p)) && Ink(Drop(s, p)) == Ink(s)
  {
    if s != [] && p(s[0]) {
      DropCuts(s[1..], p);
      InkOfFirst(s);
    }
  }

  lemma InkOfFirst(s: string)
    requires s != []
    ensures Ink(s) == (if IsSpace(s[0]) then [] else [s[0]]) + Ink(s[1..])
  {
    assert s == [s[0]] + s[1..];
    InkConcat([s[0]], s[1..]);
    assert [s[0]][..0] == [];
  }

  lemma InkOfCons(c: char, s: string)
    ensures Ink([c] + s) == (if IsSpace(c) then [] else [c]) + Ink(s)
  {
    InkOfFirst([c] + s);
  }

  // ----- no two white spaces meet -----

  /** White space is plain, and no two spaces meet. */
  predicate Single(s: string) {
    && (forall i :: 0 <= i < |s| && IsSpace(s[i]) ==> Gap(s[i]))
    && (forall i :: 0 <= i < |s| - 1 && s[i] == ' ' ==> s[i + 1] != ' ')
  }

  /** White space is plain, and no two meet. */
  predicate Tidy(s: string) {
    && (forall i :: 0 <= i < |s| && IsSpace(s[i]) ==> Gap(s[i]))
    && (forall i :: 0 <= i < |s| - 1 && IsSpace(s[i]) ==> !IsSpace(s[i + 1]))
  }

  lemma Rest(s: string)
    requires s != []
    ensures Clear(s) ==> Clear(s[1..])
    ensures Single(s) ==> Single(s[1..])
  {
  }

  lemma SingleCons(c: char, t: string)
    requires Single(t) && (IsSpace(c) ==> Gap(c)) && (c == ' ' && t != [] ==> t[0] != ' ')
    ensures Single([c] + t)
  {
  }

  lemma ClearCons(c: char, t: string)
    requires Clear(t) && Clear([c])
    ensures Clear([c] + t)
  {
    assert [c][0] == c;
  }

  lemma TidyCons(c: char, t: string)
    requires Tidy(t) && (IsSpace(c) ==> Gap(c) && (t == [] || !IsSpace(t[0])))
    ensures Tidy([c] + t)
  {
  }

  lemma ClearFirst(s: string)
    requires Clear(s) && s != []
    ensures Clear([s[0]])
  {
  }

  lemma GapsAreClear()
    ensures Clear([' ']) && Clear(['\n']) && SpacesOnly(Blank) && SpacesOnly(Gap)
  {
  }

  lemma {:induction false} OneSpaceIsSingle(s: string)
    requires Clear(s)
    ensures var r := OneSpace(s);
      && Single(r) && Clear(r) && |r| <= |s|
      && (s != [] && !Blank(s[0]) ==> r != [] && r[0] == s[0])
    decreases |s|
  {
    if s != [] {
      GapsAreClear();
      Rest(s);
      ClearFirst(s);
      hide Clear, Single, IsSpace, SpacesOnly;
      if Blank(s[0]) {
        var t := Drop(s[1..], Blank);
        DropCuts(s[1..], Blank);
        OneSpaceIsSingle(t);
        SpaceIsBlank();
        SingleCons(' ', OneSpace(t));
        ClearCons(' ', OneSpace(t));
      } else {
        OneSpaceIsSingle(s[1..]);
        SpaceIsBlank();
        SingleCons(s[0], OneSpace(s[1..]));
        ClearCons(s[0], OneSpace(s[1..]));
      }
    }
  }

  lemma SpaceIsBlank()
    ensures Blank(' ') && IsSpace('\n')
  {
  }

  lemma {:induction false} OneSpaceKeepsInk(s: string)
    requires Clear(s)
    ensures Ink(OneSpace(s)) == Ink(s)
    decreases |s|
  {
    if s != [] {
      GapsAreClear();
      InkOfFirst(s);
      Rest(s);
      hide Ink, Clear;
      var t := if Blank(s[0]) then Drop(s[1..], Blank) else s[1..];
      DropCuts(s[1..], Blank);
      OneSpaceKeepsInk(t);
      InkOfCons(if Blank(s[0]) then ' ' else s[0], OneSpace(t));
    }
  }

  lemma {:induction false} DropKeepsSingle(s: string, p: char -> bool)
    requires Single(s)
    ensures Single(Drop(s, p))
  {
    if s != [] && p(s[0]) { DropKeepsSingle(s[1..], p); }
  }

  lemma {:induction false} OneNewlineIsTidy(s: string)
    requires Single(s) && Clear(s)
    ensures var r := OneNewline(s);
      && Tidy(r) && Clear(r) && |r| <= |s|
      && (s != [] && !Gap(s[0]) ==> r != [] && r[0] == s[0])
    decreases |s|
  {
    if s != [] {
      if s[0] == '\n' {
        AfterNewline(s, 1);
      } else if s[0] == ' ' && |s| > 1 && s[1] == '\n' {
        AfterNewline(s, 2);
      } else {
        Rest(s);
        ClearFirst(s);
        SpaceThenInk(s);
        hide Clear, Single, Tidy, IsSpace;
        OneNewlineIsTidy(s[1..]);
        TidyCons(s[0], OneNewline(s[1..]));
        ClearCons(s[0], OneNewline(s[1..]));
      }
    }
  }

  /** A space not before a line break stands alone. */
  lemma SpaceThenInk(s: string)
    requires s != [] && Single(s) && s[0] != '\n' && !(s[0] == ' ' && |s| > 1 && s[1] == '\n')
    ensures IsSpace(s[0]) ==> s[0] == ' '
    ensures IsSpace(s[0]) && |s| > 1 ==> !Gap(s[1]) && !IsSpace(s[1])
  {
  }

  lemma {:induction false} AfterNewline(s: string, n: nat)
    requires Single(s) && Clear(s) && 0 < n <= |s|
    ensures var r := ['\n'] + OneNewline(Drop(s[n..], Gap));
      Tidy(r) && Clear(r) && |r| <= |s|
    decreases |s|, 0
  {
    var t := Drop(s[n..], Gap);
    GapsAreClear();
    DropCuts(s[n..], Gap);
    DropKeepsSingle(s[n..], Gap);
    OneNewlineIsTidy(t);
    assert t != [] ==> !IsSpace(t[0]);
    hide Clear, Tidy, IsSpace, Single;
    TidyCons('\n', OneNewline(t));
    ClearCons('\n', OneNewline(t));
  }

  lemma {:induction false} OneNewlineKeepsInk(s: string)
    requires Clear(s)
    ensures Ink(OneNewline(s)) == Ink(s)
    decreases |s|
  {
    if s != [] {
      GapsAreClear();
      InkOfFirst(s);
      Rest(s);
      hide Ink, Clear;
      if s[0] == '\n' {
        DropCuts(s[1..], Gap);
        OneNewlineKeepsInk(Drop(s[1..], Gap));
        InkOfCons('\n', OneNewline(Drop(s[1..], Gap)));
      } else if s[0] == ' ' && |s| > 1 && s[1] == '\n' {
        InkOfFirst(s[1..]);
        Rest(s[1..]);
        assert s[1..][1..] == s[2..];
        DropCuts(s[2..], Gap);
        OneNewlineKeepsInk(Drop(s[2..], Gap));
        InkOfCons('\n', OneNewline(Drop(s[2..], Gap)));
      } else {
        OneNewlineKeepsInk(s[1..]);
        InkOfCons(s[0], OneNewline(s[1..]));
      }
    }
  }

  /** Nothing to take off at either end. */
  predicate Trimmed(s: string) {
    s == [] || (!IsSpace(s[0]) && !IsSpace(s[|s| - 1]))
  }

  /** What conditioned text looks like. */
  predicate Normal(s: string) {
    Escapes.Clean(s) && Clear(s) && Tidy(s) && Trimmed(s)
  }

  lemma ClearIsClean(s: string)
    requires Clear(s)
    ensures Escapes.Clean(s)
  {
  }

  lemma StripKeeps(s: string)
    requires Tidy(s) && Clear(s)
    ensures Tidy(Strip(s)) && Clear(Strip(s)) && Trimmed(Strip(s)) && |Strip(s)| <= |s|
  {
    var m := LStripCuts(s);
    var n := RStripCuts(LStrip(s));
  }

  /** For every text: no escape introducer, no control character but the newline, no two
      white spaces in a row, none at the ends; and of what is to be spoken not a
      character is lost or moved. */
  lemma ConditionedIsNormal(text: string)
    ensures Normal(Conditioned(text))
    ensures Ink(Conditioned(text)) == Ink(Spoken(text))
    ensures |Conditioned(text)| <= |Spoken(text)|
  {
    hide IsSpace, Ink, LStrip, RStrip, Clear, Tidy, Single, Trimmed;
    var s := Spoken(text);
    TranslatedIsClear(Escapes.Strip(text));
    BoxesKeepClear(Translated(Escapes.Strip(text)));
    OneSpaceIsSingle(s);
    OneSpaceKeepsInk(s);
    OneNewlineIsTidy(OneSpace(s));
    OneNewlineKeepsInk(OneSpace(s));
    StripKeeps(OneNewline(OneSpace(s)));
    StripKeepsInk(OneNewline(OneSpace(s)));
    ClearIsClean(Conditioned(text));
  }

  // ----- conditioning twice -----

  predicate BoxRunAt(s: string, i: nat) {
    i + 2 < |s| && IsBox(s[i]) && s[i] == s[i + 1] == s[i + 2]
  }

  predicate HasBoxRun(s: string) {
    exists i: nat :: i < |s| && BoxRunAt(s, i)
  }

  lemma {:induction false} NoBoxRunStays(s: string)
    requires !HasBoxRun(s)
    ensures WithoutBoxRuns(s) == s
    decreases |s|
  {
    if s != [] {
      assert !BoxRunAt(s, 0);
      forall i: nat | i < |s| - 1 ensures !BoxRunAt(s[1..], i) {
        assert !BoxRunAt(s, i + 1);
      }
      NoBoxRunStays(s[1..]);
    }
  }

  lemma {:induction false} NoLonger(s: string)
    ensures |WithoutBoxRuns(s)| <= |s|
    decreases |s|
  {
    if s != [] { NoLonger(if IsBox(s[0]) && Same(s) >= 3 then s[Same(s)..] else s[1..]); }
  }

  lemma {:induction false} BoxRunGoes(s: string)
    requires HasBoxRun(s)
    ensures |WithoutBoxRuns(s)| < |s|
    decreases |s|
  {
    var i: nat :| i < |s| && BoxRunAt(s, i);
    if IsBox(s[0]) && Same(s) >= 3 {
      NoLonger(s[Same(s)..]);
    } else {
      assert BoxRunAt(s[1..], i - 1);
      BoxRunGoes(s[1..]);
    }
  }

  lemma {:induction false} TidyStays(s: string)
    requires Tidy(s)
    ensures OneSpace(s) == s && OneNewline(s) == s
    decreases |s|
  {
    if s != [] { TidyStays(s[1..]); }
  }

  lemma TrimmedStays(s: string)
    requires Trimmed(s)
    ensures Strip(s) == s
  {
  }

  /** Conditioning conditioned text changes it exactly when it still has a run of three
      box-drawing characters. */
  lemma ConditioningAgain(text: string)
    ensures var t := Conditioned(text); Conditioned(t) == t <==> !HasBoxRun(t)
  {
    var t := Conditioned(text);
    ConditionedIsNormal(text);
    Again(t);
  }

  lemma Again(t: string)
    requires Normal(t)
    ensures Conditioned(t) == t <==> !HasBoxRun(t)
  {
    hide Normal, Tidy, Clear, Trimmed, HasBoxRun, OneSpace, OneNewline, WithoutBoxRuns, Translated;
    NormalStays(t);
    if HasBoxRun(t) {
      BoxRunGoes(t);
      ConditionedIsNormal(t);
    } else {
      NoBoxRunStays(t);
    }
  }

  lemma NormalStays(t: string)
    requires Normal(t)
    ensures Translated(Escapes.Strip(t)) == t
    ensures Strip(OneNewline(OneSpace(t))) == t
  {
    assert t[0..] == t;
    Escapes.CleanTextStays(t, 0);
    ClearStays(t);
    TidyStays(t);
    TrimmedStays(t);
  }

  lemma NormalBoxes(s: string)
    requires forall i :: 0 <= i < |s| ==> IsBox(s[i])
    ensures Normal(s)
  {
  }

  lemma RunInTheMiddle(x: char, y: char)
    requires IsBox(y) && x != y
    ensures WithoutBoxRuns([x, x, y, y, y, x, x]) == [x, x, x, x]
  {
    var tail, run := [x, x], [y, y, y, x, x];
    forall i: nat | i < 2 ensures !BoxRunAt(tail, i) {}
    NoBoxRunStays(tail);
    assert run[1..] == [y, y, x, x] && run[1..][1..] == [y, x, x];
    assert Same([y, x, x]) == 1 && Same(run[1..]) == 2;
    assert Same(run) == 3 && run[3..] == tail;
    assert WithoutBoxRuns(run) == tail;
    var late := [x] + run;
    assert Same(late) == 1 && late[1..] == run;
    var t := [x] + late;
    assert Same(t) == 2 && t[1..] == late;
    assert t == [x, x, y, y, y, x, x];
  }

  /** And it can have one: the run removed may bring its neighbours together. */
  lemma RulesCloseUp(x: char, y: char)
    requires IsBox(x) && IsBox(y) && x != y
    ensures Conditioned([x, x, y, y, y, x, x]) == [x, x, x, x] && HasBoxRun([x, x, x, x])
  {
    var t, four := [x, x, y, y, y, x, x], [x, x, x, x];
    NormalBoxes(t);
    NormalBoxes(four);
    assert BoxRunAt(four, 0);
    RunInTheMiddle(x, y);
    hide Normal, WithoutBoxRuns, Translated, OneSpace, OneNewline;
    NormalStays(t);
    NormalStays(four);
  }

  // ----- words stay apart -----

  /** White space other than the control characters that go. */
  predicate Spaces(w: string) {
    forall i :: 0 <= i < |w| ==> IsSpace(w[i]) && !Dropped(w[i])
  }

  predicate LineControl(c: char) {
    '\n' <= c <= '\r'
  }

  predicate BreaksLine(w: string) {
    exists i :: 0 <= i < |w| && LineControl(w[i])
  }

  lemma {:induction false} TranslatedConcat(x: string, y: string)
    ensures Translated(x + y) == Translated(x) + Translated(y)
  {
    if x == [] {
      assert x + y == y;
    } else {
      assert (x + y)[0] == x[0] && (x + y)[1..] == x[1..] + y;
      TranslatedConcat(x[1..], y);
    }
  }

  /** Spaces stay spaces, and a line break is left exactly if there was one. */
  lemma {:induction false} TranslatedSpaces(w: string)
    requires Spaces(w)
    ensures var t := Translated(w);
      && |t| == |w| && (forall i :: 0 <= i < |t| ==> IsSpace(t[i]) && !IsBox(t[i]))
      && ('\n' in t <==> BreaksLine(w))
  {
    if w != [] {
      TranslatedSpaces(w[1..]);
      assert BreaksLine(w) <==> LineControl(w[0]) || BreaksLine(w[1..]) by { FirstOrLater(w); }
    }
  }

  lemma FirstOrLater(w: string)
    requires w != []
    ensures BreaksLine(w) <==> LineControl(w[0]) || BreaksLine(w[1..])
  {
    if BreaksLine(w[1..]) {
      var i :| 0 <= i < |w[1..]| && LineControl(w[1..][i]);
      assert LineControl(w[i + 1]);
    }
    if BreaksLine(w) && !LineControl(w[0]) {
      var i :| 0 <= i < |w| && LineControl(w[i]);
      assert LineControl(w[1..][i - 1]);
    }
  }

  /** Text up to a word in which white space stands alone. */
  lemma TidyFirst(u: string)
    requires Tidy(u) && u != [] && !IsSpace(u[|u| - 1])
    ensures Tidy(u[1..]) && u[0] != '\t'
    ensures |u| > 1 ==> !IsSpace(u[1..][|u| - 2])
    ensures Blank(u[0]) ==> |u| > 1 && u[0] == ' ' && !Blank(u[1]) && u[1] != '\n'
    ensures u[0] == '\n' ==> |u| > 1 && !Gap(u[1])
  {
  }

  /** Tidy text up to a word passes. */
  lemma {:induction false} OneSpacePasses(u: string, y: string)
    requires Tidy(u) && (u != [] ==> !IsSpace(u[|u| - 1]))
    ensures OneSpace(u + y) == u + OneSpace(y)
  {
    if u == [] {
      assert u + y == y;
    } else {
      TidyFirst(u);
      hide Tidy, IsSpace;
      assert (u + y)[0] == u[0] && (u + y)[1..] == u[1..] + y;
      OneSpacePasses(u[1..], y);
    }
  }

  lemma {:induction false} OneNewlinePasses(u: string, y: string)
    requires Tidy(u) && (u != [] ==> !IsSpace(u[|u| - 1]))
    ensures OneNewline(u + y) == u + OneNewline(y)
  {
    if u == [] {
      assert u + y == y;
    } else {
      TidyFirst(u);
      SpaceIsBlank();
      hide Tidy, IsSpace;
      assert (u + y)[0] == u[0] && (u + y)[1..] == u[1..] + y;
      OneNewlinePasses(u[1..], y);
    }
  }

  predicate StartsWord(v: string) {
    v != [] && !IsSpace(v[0])
  }

  lemma {:induction false} DropUpTo(t: string, v: string, p: char -> bool)
    requires StartsWord(v) && SpacesOnly(p)
    ensures Drop(t + v, p) == Drop(t, p) + v
  {
    if t == [] {
      assert t + v == v;
    } else {
      assert (t + v)[0] == t[0] && (t + v)[1..] == t[1..] + v;
      DropUpTo(t[1..], v, p);
    }
  }

  lemma {:induction false} DropIsSuffix(t: string, p: char -> bool) returns (n: nat)
    ensures n <= |t| && Drop(t, p) == t[n..] && forall i :: 0 <= i < n ==> p(t[i])
  {
    if t != [] && p(t[0]) {
      var m := DropIsSuffix(t[1..], p);
      assert t[1..][m..] == t[m + 1..];
      n := m + 1;
    } else {
      n := 0;
    }
  }

  /** A run of white space without two spaces in a row. */
  predicate GapRun(r: string) {
    (forall i :: 0 <= i < |r| ==> Gap(r[i])) && forall i :: 0 <= i < |r| - 1 && r[i] == ' ' ==> r[i + 1] != ' '
  }

  lemma GapCons(c: char, more: string, v: string)
    requires Gap(c) && GapRun(more) && (c == ' ' && more != [] ==> more[0] == '\n')
    ensures var r := [c] + more;
      && GapRun(r) && r + v == [c] + (more + v) && r[0] == c && ('\n' in r <==> c == '\n' || '\n' in more)
  {
  }

  /** How `OneSpace` begins on a gap before a word. */
  lemma OneSpaceFirst(t: string, v: string)
    requires t != []
    ensures Blank(t[0]) ==> OneSpace(t + v) == [' '] + OneSpace(Drop(t[1..] + v, Blank))
    ensures !Blank(t[0]) ==> OneSpace(t + v) == [t[0]] + OneSpace(t[1..] + v)
  {
    assert (t + v)[0] == t[0] && (t + v)[1..] == t[1..] + v;
  }

  lemma {:induction false} OneSpaceInGap(t: string, v: string) returns (r: string)
    requires AllSpace(t) && StartsWord(v) && Tidy(v)
    ensures OneSpace(t + v) == r + v && GapRun(r) && ('\n' in r <==> '\n' in t) && (t == [] <==> r == [])
    ensures t != [] && t[0] == '\n' ==> r[0] == '\n'
    decreases |t|
  {
    if t == [] {
      assert t + v == v;
      TidyStays(v);
      r := [];
    } else {
      OneSpaceFirst(t, v);
      var blank := Blank(t[0]);
      assert !blank ==> t[0] == '\n';
      hide OneSpace, IsSpace, Tidy, Drop, GapRun, StartsWord;
      if blank {
        var rest := BlanksGo(t, v);
        var more := OneSpaceInGap(rest, v);
        GapCons(' ', more, v);
        r := [' '] + more;
      } else {
        assert '\n' in t;
        var more := OneSpaceInGap(t[1..], v);
        GapCons('\n', more, v);
        r := ['\n'] + more;
      }
    }
  }

  /** Behind the blanks at the start of a gap. */
  lemma BlanksGo(t: string, v: string) returns (rest: string)
    requires AllSpace(t) && t != [] && Blank(t[0]) && StartsWord(v)
    ensures rest == Drop(t[1..], Blank) && |rest| < |t| && AllSpace(rest)
    ensures Drop(t[1..] + v, Blank) == rest + v && ('\n' in rest <==> '\n' in t)
    ensures rest != [] ==> rest[0] == '\n'
  {
    GapsAreClear();
    hide IsSpace;
    DropUpTo(t[1..], v, Blank);
    var n := DropIsSuffix(t[1..], Blank);
    rest := Drop(t[1..], Blank);
    NewlineStays(t, n);
  }

  lemma NewlineStays(t: string, n: nat)
    requires t != [] && Blank(t[0]) && n < |t| && forall i :: 0 <= i < n ==> Blank(t[1..][i])
    ensures '\n' in t[1..][n..] <==> '\n' in t
  {
    forall i | 0 <= i < |t| && t[i] == '\n' ensures '\n' in t[1..][n..] {
      assert i > 0 ==> t[1..][i - 1] == t[i];
      assert t[1..][n..][i - 1 - n] == '\n';
    }
  }

  /** A line break swallows the rest of the gap. */
  lemma BreakInGap(x: string, r: string, v: string)
    requires GapRun(r) && StartsWord(v) && Tidy(v)
    requires x == "\n" || x == " \n"
    ensures OneNewline(x + (r + v)) == "\n" + v
  {
    var s := x + (r + v);
    GapsAreClear();
    DropUpTo(r, v, Gap);
    GapsGo(r);
    TidyStays(v);
    hide IsSpace, Tidy, Drop;
    assert s[|x|..] == r + v && [] + v == v;
    assert OneNewline(s) == ['\n'] + OneNewline(Drop(s[|x|..], Gap));
  }

  lemma SpaceInGap(v: string)
    requires StartsWord(v) && Tidy(v)
    ensures OneNewline(" " + v) == " " + v
  {
    TidyStays(v);
    assert (" " + v)[1..] == v;
  }

  lemma OneNewlineInGap(r: string, v: string)
    requires GapRun(r) && r != [] && StartsWord(v) && Tidy(v)
    ensures OneNewline(r + v) == (if '\n' in r then "\n" else " ") + v
  {
    if r[0] == '\n' {
      hide OneNewline, IsSpace, Tidy;
      BreakInGap("\n", r[1..], v);
      assert r + v == "\n" + (r[1..] + v);
    } else if |r| == 1 {
      assert r == " ";
      SpaceInGap(v);
    } else {
      assert r[1] == '\n';
      hide OneNewline, IsSpace, Tidy;
      BreakInGap(" \n", r[2..], v);
      assert r + v == " \n" + (r[2..] + v);
    }
  }

  lemma {:induction false} GapsGo(r: string)
    requires forall i :: 0 <= i < |r| ==> Gap(r[i])
    ensures Drop(r, Gap) == []
  {
    if r != [] { GapsGo(r[1..]); }
  }

  lemma JoinedHasNoRun(u: string, t: string, v: string)
    requires !HasBoxRun(u) && !HasBoxRun(v) && t != [] && forall i :: 0 <= i < |t| ==> !IsBox(t[i])
    ensures !HasBoxRun(u + t + v)
  {
    var s := u + t + v;
    forall i: nat | i < |s| ensures !BoxRunAt(s, i) {
      if i < |u| { assert !BoxRunAt(u, i); }
      if i >= |u| + |t| { assert !BoxRunAt(v, i - |u| - |t|); }
    }
  }

  lemma SpacesAreClean(u: string, w: string, v: string)
    requires Normal(u) && Normal(v) && Spaces(w)
    ensures Escapes.Strip(u + w + v) == u + w + v
  {
    var s := u + w + v;
    assert s[0..] == s;
    Escapes.CleanTextStays(s, 0);
  }

  lemma GapCloses(u: string, t: string, v: string)
    requires Normal(u) && Normal(v) && u != [] && v != [] && AllSpace(t) && t != []
    ensures OneNewline(OneSpace(u + t + v)) == u + (if '\n' in t then "\n" else " ") + v
  {
    hide OneSpace, OneNewline, IsSpace, Clear, Escapes.Clean;
    assert u + t + v == u + (t + v);
    OneSpacePasses(u, t + v);
    var r := OneSpaceInGap(t, v);
    OneNewlinePasses(u, r + v);
    OneNewlineInGap(r, v);
  }

  lemma JoinedIsTrimmed(u: string, g: string, v: string)
    requires Normal(u) && Normal(v) && u != [] && v != []
    ensures Trimmed(u + g + v)
  {
  }

  /** White space between two conditioned texts becomes one line break if it has one, else
      one space, and the texts stay as they were. */
  lemma WordsStayApart(u: string, w: string, v: string)
    requires Normal(u) && Normal(v) && u != [] && v != [] && !HasBoxRun(u) && !HasBoxRun(v)
    requires Spaces(w) && w != []
    ensures Conditioned(u + w + v) == u + (if BreaksLine(w) then "\n" else " ") + v
  {
    var t, gap := Translated(w), if BreaksLine(w) then "\n" else " ";
    SpacesAreClean(u, w, v);
    TranslatedConcat(u + w, v);
    TranslatedConcat(u, w);
    ClearStays(u);
    ClearStays(v);
    TranslatedSpaces(w);
    JoinedHasNoRun(u, t, v);
    NoBoxRunStays(u + t + v);
    GapCloses(u, t, v);
    JoinedIsTrimmed(u, gap, v);
    TrimmedStays(u + gap + v);
  }

  // ----- the budget -----

  /** Text within the budget is spoken whole, a budget of nothing or less speaks nothing, and
      any other text is cut at the budget, without the white space before the cut, and gets
      the note. */
  lemma BudgetKeepsPrefix(text: string, maxChars: Option<int>)
    ensures var r, whole := ConditionText(text, maxChars), Conditioned(text);
      && (maxChars == None || |whole| <= maxChars.value ==> r == whole)
      && (maxChars.Some? && maxChars.value <= 0 ==> r == [])
      && (maxChars.Some? && 0 < maxChars.value < |whole| ==> exists n: nat :: IsCut(whole, maxChars.value, n, r))
  {
    var whole := Conditioned(text);
    if maxChars.Some? && 0 < maxChars.value < |whole| {
      var limit := maxChars.value;
      var cut := whole[..limit];
      var n := RStripCuts(cut);
      assert cut[..n] == whole[..n];
      ConditionedIsNormal(text);
      assert cut[0] == whole[0] && !IsSpace(whole[0]);
      assert forall j :: n <= j < limit ==> cut[j] == whole[j];
      assert IsCut(whole, limit, n, ConditionText(text, maxChars));
    }
  }

  /** `r` is `whole` cut at `limit`, which leaves `n` characters. */
  predicate IsCut(whole: string, limit: nat, n: nat, r: string) {
    && 0 < n <= limit <= |whole| && r == whole[..n] + TRUNCATION_NOTE
    && !IsSpace(whole[n - 1]) && forall j :: n <= j < limit ==> IsSpace(whole[j])
  }

  // ----- clips for one speech turn -----

  /** `speech_chunks`: every clip is stripped and bounded, and together they hold every
      character of the conditioned text that is not white space, in order. */
  method SpeechChunks(text: string, maxChars: Option<int>, a: Alphabet) returns (chunks: seq<string>)
    ensures Ink(Concat(chunks)) == Ink(ConditionText(text, maxChars))
    ensures forall p :: p in chunks ==> IsStripped(p) && Bounded(p)
    ensures var (pieces, tail) := Split(ConditionText(text, maxChars), a); chunks == pieces + Piece(tail)
  {
    var conditioned := ConditionText(text, maxChars);
    hide ConditionText, IsStripped, Bounded, IsSpace;
    var chunker := new SentenceChunker(a);
    chunks := chunker.Feed(conditioned);
    assert chunker.clips == chunks && chunker.fed == [conditioned];
    var tail := chunker.Flush();
    ClipsAreBounded(conditioned, a);
    StripIsStripped(Split(conditioned, a).1);
    assert Concat([conditioned]) == conditioned by { OneText(conditioned); }
    if tail != [] {
      ConcatAppend(chunks, [tail]);
      OneText(tail);
      InkConcat(Concat(chunks), tail);
      chunks := chunks + [tail];
    }
  }

  lemma OneText(s: string)
    ensures Concat([s]) == s
  {
    assert [s][..0] == [] && Concat([]) == [];
  }
}
