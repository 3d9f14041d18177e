/** Where the text is cut, said about its characters alone. */
module SentenceCuts {
  import opened Text
  import opened Sentences

  predicate InWord(c: char, a: Alphabet) {
    a.isAlpha(c) || c == '.'
  }

  /** `before[from..]` is the word in front of a dot: letters and dots only, as many as
      there are. */
  predicate IsLastWord(before: string, from: nat, a: Alphabet) {
    && from <= |before|
    && (forall j :: from <= j < |before| ==> InWord(before[j], a))
    && (from > 0 ==> !InWord(before[from - 1], a))
  }

  /** The word in front of a dot is an initial or a listed abbreviation. */
  ghost predicate Abbreviates(before: string, a: Alphabet) {
    exists from: nat :: IsLastWord(before, from, a) && ReadsOn(a.lower(WithoutDots(before[from..])))
  }

  predicate ReadsOn(token: string) {
    |token| == 1 || token in ABBREVIATIONS
  }

  /** A terminator at `k`, then closers, then white space at `n`. */
  ghost predicate EndsSentence(x: string, k: nat, n: nat, a: Alphabet) {
    && k < n < |x| && x[k] in TERMINATORS && IsSpace(x[n])
    && (forall j :: k < j < n ==> x[j] in CLOSERS)
    && !(x[k] == '.' && Abbreviates(x[..k], a))
  }

  ghost predicate EndsAt(x: string, k: nat, n: nat, a: Alphabet)
    requires k < |x|
  {
    (x[k] == '\n' && n == k + 1) || EndsSentence(x, k, n, a)
  }

  /** Nothing but closers follows the terminator at `k`: the next character decides. */
  predicate Undecided(x: string, k: nat)
    requires k < |x|
  {
    x[k] in TERMINATORS && forall j :: k < j < |x| ==> x[j] in CLOSERS
  }

  /** Nothing before `k` ends a clip or leaves it undecided. */
  ghost predicate Quiet(x: string, k: nat, a: Alphabet)
    requires k <= |x|
  {
    forall j :: 0 <= j < k ==> !Undecided(x, j) && NoEnd(x, j, a)
  }

  ghost predicate NoEnd(x: string, k: nat, a: Alphabet)
    requires k < |x|
  {
    forall n: nat :: !EndsAt(x, k, n, a)
  }

  /** Behind the last space of an overlong clip that is not its first character, or at
      the bound. */
  predicate ForcedAt(x: string, n: nat)
    requires |x| > MAX_CHUNK_CHARS
  {
    || (1 < n <= MAX_CHUNK_CHARS && x[n - 1] == ' ' && forall j :: n <= j < MAX_CHUNK_CHARS ==> x[j] != ' ')
    || (n == MAX_CHUNK_CHARS && forall j :: 0 < j < MAX_CHUNK_CHARS ==> x[j] != ' ')
  }

  /** The first clip ends before `n`. */
  ghost predicate FirstCut(x: string, n: nat, a: Alphabet) {
    exists k: nat :: CutBy(x, k, n, a)
  }

  ghost predicate CutBy(x: string, k: nat, n: nat, a: Alphabet) {
    && k < |x| && k <= MAX_CHUNK_CHARS && Quiet(x, k, a)
    && if k < MAX_CHUNK_CHARS then EndsAt(x, k, n, a) else ForcedAt(x, n)
  }

  // ----- what the scan decides -----

  lemma {:induction false} WithoutDotsConcat(u: string, v: string)
    ensures WithoutDots(u + v) == WithoutDots(u) + WithoutDots(v)
  {
    if u == [] {
      assert u + v == v;
    } else {
      assert (u + v)[0] == u[0] && (u + v)[1..] == u[1..] + v;
      WithoutDotsConcat(u[1..], v);
    }
  }

  /** Exactly the dots go. */
  lemma DotsVanish(u: string, c: char, v: string)
    ensures WithoutDots(u + [c] + v) == WithoutDots(u) + (if c == '.' then [] else [c]) + WithoutDots(v)
  {
    WithoutDotsConcat(u + [c], v);
    WithoutDotsConcat(u, [c]);
    assert [c][1..] == [] && WithoutDots([]) == [];
  }

  lemma {:induction false} WordStartIsLast(before: string, index: nat, a: Alphabet)
    requires index <= |before| && forall j :: index <= j < |before| ==> InWord(before[j], a)
    ensures IsLastWord(before, WordStart(before, index, a), a)
  {
    if index > 0 && InWord(before[index - 1], a) {
      WordStartIsLast(before, index - 1, a);
    }
  }

  lemma OneLastWord(before: string, m: nat, n: nat, a: Alphabet)
    requires IsLastWord(before, m, a) && IsLastWord(before, n, a)
    ensures m == n
  {
    assert forall j :: m <= j < |before| ==> InWord(before[j], a);
    assert n > 0 ==> !InWord(before[n - 1], a);
  }

  lemma AbbreviationIs(before: string, a: Alphabet)
    ensures IsAbbreviation(before, a) <==> Abbreviates(before, a)
  {
    var start := WordStart(before, |before|, a);
    WordStartIsLast(before, |before|, a);
    assert IsAbbreviation(before, a) <==> ReadsOn(a.lower(WithoutDots(before[start..])));
    forall from: nat | IsLastWord(before, from, a) ensures from == start {
      OneLastWord(before, from, start, a);
    }
  }

  lemma SpaceClosesNothing(c: char)
    ensures IsSpace(c) ==> c !in CLOSERS && c !in TERMINATORS
    ensures c == '\n' ==> c !in TERMINATORS
  {
  }

  /** A sentence ends in one place. */
  lemma AfterClosersIs(x: string, k: nat, n: nat)
    requires k < n < |x| && IsSpace(x[n]) && forall j :: k < j < n ==> x[j] in CLOSERS
    ensures AfterClosers(x, k + 1) == n
  {
    SpaceClosesNothing(x[n]);
    hide IsSpace;
    var after := AfterClosers(x, k + 1);
    assert forall j :: k < j < after ==> x[j] in CLOSERS;
  }

  lemma DecisionIs(x: string, k: nat, a: Alphabet)
    requires k < |x| && k < MAX_CHUNK_CHARS
    ensures Decide(x, 0, k, a) == Wait <==> Undecided(x, k)
    ensures forall n: nat :: EndsAt(x, k, n, a) <==> Decide(x, 0, k, a) == CutAt(n)
  {
    SpaceClosesNothing(x[k]);
    AbbreviationIs(x[..k], a);
    assert x[0..k] == x[..k];
    hide IsSpace, IsAbbreviation, Abbreviates;
    var after := AfterClosers(x, k + 1);
    forall n: nat | EndsSentence(x, k, n, a) ensures n == after {
      AfterClosersIs(x, k, n);
    }
    if x[k] in TERMINATORS && after < |x| && IsSpace(x[after]) {
      SpaceClosesNothing(x[after]);
    }
  }

  lemma QuietIsPending(x: string, k: nat, a: Alphabet)
    requires k <= |x| && k <= MAX_CHUNK_CHARS && Quiet(x, k, a)
    ensures Pending(x, 0, k, a)
  {
    hide Undecided, EndsAt, Decide;
    forall j | 0 <= j < k ensures Decide(x, 0, j, a) == Advance {
      DecisionIs(x, j, a);
      assert NoEnd(x, j, a);
      assert forall n: nat :: Decide(x, 0, j, a) == CutAt(n) ==> EndsAt(x, j, n, a);
    }
  }

  lemma ForcedIs(x: string, n: nat)
    requires |x| > MAX_CHUNK_CHARS
    ensures ForcedAt(x, n) <==> n == ForceCut(x, 0, MAX_CHUNK_CHARS)
  {
  }

  /** The clip that ends at `n`, then what the rest of the text gives. */
  ghost predicate Cuts(x: string, n: nat, a: Alphabet) {
    && 0 < n <= |x|
    && Split(x, a).0 == Piece(x[..n]) + Split(x[n..], a).0
    && Split(x, a).1 == Split(x[n..], a).1
  }

  lemma DecidedCut(x: string, k: nat, n: nat, a: Alphabet)
    requires k < |x| && Pending(x, 0, k, a) && Decide(x, 0, k, a) == CutAt(n)
    ensures Cuts(x, n, a)
  {
    hide Decide, Piece;
    ScanResumes(x, 0, 0, k, a);
    ScanCut(x, 0, k, n, a);
    ScanShift(x, x[n..], n, 0, 0, a);
    assert x[0..n] == x[..n];
  }

  lemma NothingDecided(x: string, k: nat, a: Alphabet)
    requires k <= |x| && Pending(x, 0, k, a) && (k < |x| ==> Decide(x, 0, k, a) == Wait)
    ensures Split(x, a) == ([], x)
  {
    hide Decide, Piece;
    ScanResumes(x, 0, 0, k, a);
    assert x[0..] == x;
  }

  lemma CutThere(x: string, n: nat, a: Alphabet)
    requires FirstCut(x, n, a)
    ensures Cuts(x, n, a)
  {
    hide Quiet, EndsAt, ForcedAt, Cuts, Pending;
    var k: nat :| CutBy(x, k, n, a);
    QuietIsPending(x, k, a);
    if k < MAX_CHUNK_CHARS {
      DecisionIs(x, k, a);
    } else {
      ForcedIs(x, n);
    }
    DecidedCut(x, k, n, a);
  }

  /** The first place that ends a clip or leaves it undecided, up to the bound. */
  lemma {:induction false} FirstEvent(x: string, k: nat, a: Alphabet) returns (e: nat)
    requires k <= |x| && k <= MAX_CHUNK_CHARS && Quiet(x, k, a)
    ensures e <= |x| && e <= MAX_CHUNK_CHARS && Quiet(x, e, a)
    ensures e < |x| && e < MAX_CHUNK_CHARS ==> Undecided(x, e) || !NoEnd(x, e, a)
    decreases |x| - k
  {
    hide Undecided, NoEnd;
    if k == |x| || k == MAX_CHUNK_CHARS || Undecided(x, k) || !NoEnd(x, k, a) {
      e := k;
    } else {
      e := FirstEvent(x, k + 1, a);
    }
  }

  lemma SomeForcedCut(x: string, a: Alphabet)
    requires |x| > MAX_CHUNK_CHARS && Quiet(x, MAX_CHUNK_CHARS, a)
    ensures exists n: nat :: FirstCut(x, n, a)
  {
    hide Quiet, EndsAt;
    var n := ForceCut(x, 0, MAX_CHUNK_CHARS);
    ForcedIs(x, n);
    hide ForcedAt;
    assert CutBy(x, MAX_CHUNK_CHARS, n, a) && FirstCut(x, n, a);
  }

  lemma NoCutThere(x: string, a: Alphabet)
    requires forall n: nat :: !FirstCut(x, n, a)
    ensures Split(x, a) == ([], x)
  {
    assert Quiet(x, 0, a);
    var e := FirstEvent(x, 0, a);
    hide Quiet, EndsAt, Undecided, Pending;
    QuietIsPending(x, e, a);
    if e < |x| {
      if e == MAX_CHUNK_CHARS {
        SomeForcedCut(x, a);
      } else {
        DecisionIs(x, e, a);
        assert forall n: nat :: EndsAt(x, e, n, a) ==> CutBy(x, e, n, a) && FirstCut(x, n, a);
        assert NoEnd(x, e, a);
      }
    }
    NothingDecided(x, e, a);
  }

  /** A text is cut at its first sentence end, newline or bound, and the rest like any
      text; without one it waits whole. */
  lemma SplitCutsExactly(x: string, a: Alphabet)
    ensures forall n: nat :: FirstCut(x, n, a) ==> Cuts(x, n, a)
    ensures (forall n: nat :: !FirstCut(x, n, a)) ==> Split(x, a) == ([], x)
  {
    hide FirstCut, Cuts;
    forall n: nat | FirstCut(x, n, a) ensures Cuts(x, n, a) {
      CutThere(x, n, a);
    }
    if forall n: nat :: !FirstCut(x, n, a) {
      NoCutThere(x, a);
    }
  }

  // ----- short texts -----

  /** `s`, a terminator or newline, closers, white space, and more. */
  function Sentence(s: string, c: char, closers: string, space: char, more: string): string {
    s + [c] + closers + [space] + more
  }

  predicate Plain(s: string) {
    forall i :: 0 <= i < |s| ==> s[i] !in TERMINATORS && s[i] != '\n'
  }

  /** The first clip of a short text ends behind a terminator and its closers, but not
      behind the dot of an initial or a listed abbreviation. */
  lemma ShortSentence(s: string, c: char, closers: string, space: char, more: string, a: Alphabet)
    requires Plain(s) && |s| < MAX_CHUNK_CHARS && c in TERMINATORS && IsSpace(space)
    requires forall i :: 0 <= i < |closers| ==> closers[i] in CLOSERS
    ensures var x, n := Sentence(s, c, closers, space, more), |s| + 1 + |closers|;
            !(c == '.' && Abbreviates(s, a)) ==> FirstCut(x, n, a) && Cuts(x, n, a)
    ensures var x := Sentence(s, c, closers, space, more);
            c == '.' && Abbreviates(s, a) && |x| <= MAX_CHUNK_CHARS ==> forall n: nat :: FirstCut(x, n, a) ==> n > |s| + 1
  {
    var x, n := Sentence(s, c, closers, space, more), |s| + 1 + |closers|;
    SentenceAt(s, c, closers, space, more);
    hide Sentence;
    assert x[..|s|] == s;
    PlainIsQuiet(x, |s|, a);
    hide Quiet, Cuts, Abbreviates;
    if !(c == '.' && Abbreviates(s, a)) {
      assert EndsSentence(x, |s|, n, a);
      assert CutBy(x, |s|, n, a);
      CutThere(x, n, a);
    } else if |x| <= MAX_CHUNK_CHARS {
      forall m: nat | FirstCut(x, m, a) ensures m > |s| + 1 {
        CutAfter(x, m, |s|, a);
      }
    }
  }

  lemma SentenceAt(s: string, c: char, closers: string, space: char, more: string)
    ensures var x, n := Sentence(s, c, closers, space, more), |s| + 1 + |closers|;
      && |x| == n + 1 + |more| && x[..|s|] == s && x[|s|] == c && x[n] == space
      && (forall j :: |s| < j < n ==> x[j] == closers[j - |s| - 1])
  {
  }

  lemma PlainIsQuiet(x: string, k: nat, a: Alphabet)
    requires k <= |x| && Plain(x[..k])
    ensures Quiet(x, k, a)
  {
    hide IsSpace, Abbreviates;
    forall j | 0 <= j < k ensures !Undecided(x, j) && NoEnd(x, j, a) {
      assert x[j] == x[..k][j];
    }
  }

  /** With no end up to `k` the first cut of a short text comes after it. */
  lemma CutAfter(x: string, n: nat, k: nat, a: Alphabet)
    requires |x| <= MAX_CHUNK_CHARS && k < |x| && Quiet(x, k, a) && NoEnd(x, k, a) && FirstCut(x, n, a)
    ensures n > k + 1
  {
    hide IsSpace, EndsSentence;
    forall e: nat | CutBy(x, e, n, a) ensures e > k && n > e {
      assert EndsAt(x, e, n, a);
      EndIsBehind(x, e, n, a);
      forall j | 0 <= j <= k ensures !EndsAt(x, j, n, a) {
        assert NoEnd(x, j, a);
      }
    }
  }

  lemma EndIsBehind(x: string, k: nat, n: nat, a: Alphabet)
    requires k < |x| && EndsAt(x, k, n, a)
    ensures k < n
  {
    hide IsSpace, Abbreviates;
  }

  /** An abbreviation is read on, and so is its dot: the clip ends with the sentence. */
  lemma AbbreviationIsReadOn(s: string, t: string, u: string, a: Alphabet)
    requires Plain(s) && Abbreviates(s, a) && Plain(t) && !Abbreviates(s + ". " + t, a) && Plain(u)
    requires |s| + |t| + 2 < MAX_CHUNK_CHARS && |u| < MAX_CHUNK_CHARS
    ensures Split(s + ". " + t + ". " + u, a) == (Piece(s + ". " + t + "."), " " + u)
  {
    var x, k := s + ". " + t + ". " + u, |s| + 2 + |t|;
    TwoSentences(s, t, u);
    hide Abbreviates, Cuts, Plain;
    FirstDotIsQuiet(x, s, t, a);
    hide Quiet;
    assert EndsSentence(x, k, k + 1, a);
    assert CutBy(x, k, k + 1, a);
    CutThere(x, k + 1, a);
    hide EndsAt, CutBy, FirstCut;
    assert Plain(" " + u) by { SpacedIsPlain(u); }
    NothingToCut(" " + u, a);
    OneClip(x, k + 1, a);
  }

  lemma TwoSentences(s: string, t: string, u: string)
    ensures var x, k := s + ". " + t + ". " + u, |s| + 2 + |t|;
      && |x| >= k + 2 && x[k] == '.' && x[k + 1] == ' ' && x[..|s|] == s
      && x[..k] == s + ". " + t && x[..k + 1] == s + ". " + t + "." && x[k + 1..] == " " + u
  {
  }

  lemma OneClip(x: string, n: nat, a: Alphabet)
    requires Cuts(x, n, a) && Split(x[n..], a) == ([], x[n..])
    ensures Split(x, a) == (Piece(x[..n]), x[n..])
  {
    assert Piece(x[..n]) + [] == Piece(x[..n]);
    hide Split, Piece;
  }

  lemma FirstDotIsQuiet(x: string, s: string, t: string, a: Alphabet)
    requires |x| > |s| + 2 + |t| && x[..|s| + 2 + |t|] == s + ". " + t
    requires Plain(s) && Plain(t) && Abbreviates(s, a)
    ensures Quiet(x, |s| + 2 + |t|, a)
  {
    var k := |s| + 2 + |t|;
    var y := x[..k];
    assert x[..|s|] == y[..|s|] == s;
    assert y[|s|] == '.' && y[|s| + 1] == ' ';
    hide Abbreviates, IsSpace;
    forall j | 0 <= j < k ensures !Undecided(x, j) && NoEnd(x, j, a) {
      assert x[j] == y[j];
      if j < |s| {
        assert y[j] == s[j];
      } else if j == |s| {
        assert x[j + 1] == y[j + 1] == ' ' && ' ' !in CLOSERS;
      } else if j > |s| + 1 {
        assert y[j] == t[j - |s| - 2];
      }
    }
  }

  lemma SpacedIsPlain(u: string)
    requires Plain(u)
    ensures Plain(" " + u)
  {
  }

  lemma NothingToCut(x: string, a: Alphabet)
    requires Plain(x) && |x| <= MAX_CHUNK_CHARS
    ensures Split(x, a) == ([], x)
  {
    assert x[..|x|] == x;
    PlainIsQuiet(x, |x|, a);
    QuietIsPending(x, |x|, a);
    NothingDecided(x, |x|, a);
  }
}
