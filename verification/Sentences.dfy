/** Cutting text into clips: `_split_sentences` and `SentenceChunker`.

    Unicode's letter class and lower-casing are parameters.
  */
module Sentences {
  import opened Text

  /** `str.isalpha` for one character, and `str.lower`. */
  datatype Alphabet = Alphabet(isAlpha: char -> bool, lower: string -> string)

  const MAX_CHUNK_CHARS := 240
  const TERMINATORS := ".!?\U{2026}"
  const CLOSERS := ")]}\"'\U{201D}\U{2019}\U{BB}"

  const ABBREVIATIONS := {
    "mr", "mrs", "ms", "mx", "dr", "prof", "sr", "jr", "st", "mt",
    "eg", "ie", "cf", "vs", "fig", "dept", "approx", "vol"
  }

  // ----- the splitter, as a function of the text -----

  function WithoutDots(s: string): string {
    if s == [] then [] else (if s[0] == '.' then [] else [s[0]]) + WithoutDots(s[1..])
  }

  /** Where the word that ends `before` begins. */
  function WordStart(before: string, index: nat, a: Alphabet): (r: nat)
    requires index <= |before|
    ensures r <= index
  {
    if index > 0 && (a.isAlpha(before[index - 1]) || before[index - 1] == '.') then WordStart(before, index - 1, a)
    else index
  }

  predicate IsAbbreviation(before: string, a: Alphabet) {
    var token := a.lower(WithoutDots(before[WordStart(before, |before|, a)..]));
    |token| == 1 || token in ABBREVIATIONS
  }

  /** One past the last space of `buffer[start..limit]`, or `limit` if there is none
      after the first character. */
  function ForceCut(buffer: string, start: nat, limit: nat): (r: nat)
    requires start < limit <= |buffer|
    ensures start < r <= limit
  {
    var space := LastSpace(buffer, start, limit);
    if space > start then space + 1 else limit
  }

  /** `rfind(" ", start, end)`. */
  function LastSpace(buffer: string, start: nat, end: nat): (r: int)
    requires start <= end <= |buffer|
    ensures r == -1 || (start <= r < end && buffer[r] == ' ')
    ensures forall k :: start <= k < end && k > r ==> buffer[k] != ' '
  {
    if end == start then -1
    else if buffer[end - 1] == ' ' then end - 1
    else LastSpace(buffer, start, end - 1)
  }

  function AfterClosers(buffer: string, from: nat): (r: nat)
    requires from <= |buffer|
    ensures from <= r <= |buffer|
    ensures forall k :: from <= k < r ==> buffer[k] in CLOSERS
    ensures r < |buffer| ==> buffer[r] !in CLOSERS
    decreases |buffer| - from
  {
    if from < |buffer| && buffer[from] in CLOSERS then AfterClosers(buffer, from + 1) else from
  }

  /** What the scan does at one index. */
  datatype Decision = Advance | CutAt(cut: nat) | Wait

  function Decide(buffer: string, start: nat, index: nat, a: Alphabet): (d: Decision)
    requires start <= index < |buffer|
    ensures d.CutAt? ==> start < d.cut <= |buffer|
  {
    var c := buffer[index];
    if index - start >= MAX_CHUNK_CHARS then CutAt(ForceCut(buffer, start, index))
    else if c == '\n' then CutAt(index + 1)
    else if c in TERMINATORS then
      var after := AfterClosers(buffer, index + 1);
      if after >= |buffer| then Wait
      else if !IsSpace(buffer[after]) || (c == '.' && IsAbbreviation(buffer[start..index], a)) then Advance
      else CutAt(after)
    else Advance
  }

  function Piece(s: string): seq<string> {
    if Strip(s) == [] then [] else [Strip(s)]
  }

  /** The scan from `index`, with the current clip open since `start`.  A forced cut
      moves `index` back, but `start` forward. */
  function Scan(buffer: string, start: nat, index: nat, a: Alphabet): (seq<string>, string)
    requires start <= index <= |buffer|
    decreases |buffer| - start, |buffer| - index
  {
    if index == |buffer| then ([], buffer[start..])
    else
      var d := Decide(buffer, start, index, a);
      match d
      case Wait => ([], buffer[start..])
      case Advance => Scan(buffer, start, index + 1, a)
      case CutAt(cut) =>
        var (pieces, rest) := Scan(buffer, cut, cut, a);
        (Piece(buffer[start..cut]) + pieces, rest)
  }

  function Split(buffer: string, a: Alphabet): (seq<string>, string) {
    Scan(buffer, 0, 0, a)
  }

  /** One cut, spelled out. */
  lemma ScanCut(x: string, start: nat, index: nat, cut: nat, a: Alphabet)
    requires start <= index < |x| && Decide(x, start, index, a) == CutAt(cut)
    ensures Scan(x, start, index, a).0 == Piece(x[start..cut]) + Scan(x, cut, cut, a).0
    ensures Scan(x, start, index, a).1 == Scan(x, cut, cut, a).1
  {
  }

  // ----- streaming equals batch -----

  lemma {:induction false} AfterClosersStable(x: string, y: string, from: nat)
    requires from <= |x| && AfterClosers(x, from) < |x|
    ensures AfterClosers(x + y, from) == AfterClosers(x, from)
    decreases |x| - from
  {
    if x[from] in CLOSERS {
      AfterClosersStable(x, y, from + 1);
    }
  }

  lemma {:induction false} LastSpaceStable(x: string, y: string, start: nat, end: nat)
    requires start <= end <= |x|
    ensures LastSpace(x + y, start, end) == LastSpace(x, start, end)
  {
    if start < end {
      LastSpaceStable(x, y, start, end - 1);
    }
  }

  /** Text that arrives later never changes a decision already taken. */
  lemma DecideStable(x: string, y: string, start: nat, index: nat, a: Alphabet)
    requires start <= index < |x| && !Decide(x, start, index, a).Wait?
    ensures Decide(x + y, start, index, a) == Decide(x, start, index, a)
  {
    assert (x + y)[start..index] == x[start..index];
    if index - start >= MAX_CHUNK_CHARS {
      LastSpaceStable(x, y, start, index);
    } else if x[index] in TERMINATORS && x[index] != '\n' {
      AfterClosersStable(x, y, index + 1);
    }
  }

  lemma {:induction false} AfterClosersShift(x: string, off: nat, from: nat)
    requires off + from <= |x|
    ensures AfterClosers(x, off + from) == off + AfterClosers(x[off..], from)
    decreases |x| - from
  {
    if off + from < |x| && x[off + from] in CLOSERS {
      AfterClosersShift(x, off, from + 1);
    }
  }

  lemma {:induction false} LastSpaceShift(x: string, off: nat, start: nat, end: nat)
    requires start <= end && off + end <= |x|
    ensures LastSpace(x, off + start, off + end) ==
            if LastSpace(x[off..], start, end) == -1 then -1 else off + LastSpace(x[off..], start, end)
  {
    if start < end {
      LastSpaceShift(x, off, start, end - 1);
    }
  }

  lemma DecideShift(x: string, off: nat, start: nat, index: nat, a: Alphabet)
    requires start <= index && off + index < |x|
    ensures Decide(x, off + start, off + index, a) ==
            match Decide(x[off..], start, index, a)
            case CutAt(cut) => CutAt(off + cut)
            case d => d
  {
    assert x[off..][start..index] == x[off + start..off + index];
    if index - start >= MAX_CHUNK_CHARS {
      LastSpaceShift(x, off, start, index);
    } else {
      AfterClosersShift(x, off, index + 1);
    }
  }

  /** The scan sees only the text from `start` on: `y` is what `x` has from `off` on. */
  lemma {:induction false} ScanShift(x: string, y: string, off: nat, start: nat, index: nat, a: Alphabet)
    requires off <= |x| && y == x[off..] && start <= index <= |y|
    ensures Scan(x, off + start, off + index, a) == Scan(y, start, index, a)
    decreases |y| - start, |y| - index
  {
    hide Decide, Piece;
    assert y[start..] == x[off + start..];
    if index < |y| {
      DecideShift(x, off, start, index, a);
      var d := Decide(y, start, index, a);
      if d.Advance? {
        ScanShift(x, y, off, start, index + 1, a);
      } else if d.CutAt? {
        ScanShift(x, y, off, d.cut, d.cut, a);
        ScanCut(x, off + start, off + index, off + d.cut, a);
        ScanCut(y, start, index, d.cut, a);
        assert y[start..d.cut] == x[off + start..off + d.cut];
      }
    }
  }

  /** The scan passed over `start..index` without cutting or stopping. */
  predicate Pending(x: string, start: nat, index: nat, a: Alphabet)
    requires start <= index <= |x|
  {
    forall k :: start <= k < index ==> Decide(x, start, k, a) == Advance
  }

  lemma {:induction false} ScanResumes(x: string, start: nat, from: nat, index: nat, a: Alphabet)
    requires start <= from <= index <= |x| && Pending(x, start, index, a)
    ensures Scan(x, start, from, a) == Scan(x, start, index, a)
    decreases index - from
  {
    hide Decide, Piece;
    if from < index {
      assert Decide(x, start, from, a) == Advance;
      ScanResumes(x, start, from + 1, index, a);
    }
  }

  /** Wherever the scan of `x` stops for want of text, scanning `x + y` goes on as if
      its open clip had been given together with `y`. */
  lemma {:induction false} ScanSplits(x: string, y: string, start: nat, index: nat, a: Alphabet)
    requires start <= index <= |x| && Pending(x, start, index, a)
    ensures var (pieces, rest) := Scan(x, start, index, a);
            var (more, last) := Split(rest + y, a);
            Scan(x + y, start, index, a) == (pieces + more, last)
    decreases |x| - start, |x| - index
  {
    hide Decide, Piece;
    if index < |x| && !Decide(x, start, index, a).Wait? {
      DecideStable(x, y, start, index, a);
      match Decide(x, start, index, a)
      case Advance => ScanSplits(x, y, start, index + 1, a);
      case CutAt(cut) =>
        assert (x + y)[start..cut] == x[start..cut];
        ScanSplits(x, y, cut, cut, a);
        var (pieces, rest) := Scan(x, cut, cut, a);
        var (more, last) := Split(rest + y, a);
        assert Piece(x[start..cut]) + (pieces + more) == Piece(x[start..cut]) + pieces + more;
    } else {
      forall k | start <= k < index ensures Decide(x + y, start, k, a) == Advance {
        DecideStable(x, y, start, k, a);
      }
      ScanResumes(x + y, start, start, index, a);
      ScanShift(x + y, (x + y)[start..], start, 0, 0, a);
      assert (x + y)[start..] == x[start..] + y;
      assert [] + Split(x[start..] + y, a).0 == Split(x[start..] + y, a).0;
    }
  }

  /** The pieces of `x`, then the pieces of what was left over followed by `y`, are
      the pieces of `x + y`, with the same remainder. */
  lemma StreamingEqualsBatch(x: string, y: string, a: Alphabet)
    ensures var (pieces, rest) := Split(x, a);
            var (more, last) := Split(rest + y, a);
            Split(x + y, a) == (pieces + more, last)
  {
    ScanSplits(x, y, 0, 0, a);
  }

  function Concat(texts: seq<string>): string {
    if texts == [] then [] else Concat(texts[..|texts| - 1]) + texts[|texts| - 1]
  }

  /** A chunker fed one text after the other: all the clips, and its buffer. */
  function FeedAll(texts: seq<string>, a: Alphabet): (seq<string>, string) {
    if texts == [] then ([], [])
    else
      var (pieces, buffer) := FeedAll(texts[..|texts| - 1], a);
      var (more, rest) := Split(buffer + texts[|texts| - 1], a);
      (pieces + more, rest)
  }

  /** However a text is divided over `feed` calls, the clips and the tail that `flush`
      returns are those of the whole text. */
  lemma {:induction false} ClipsIgnoreFeeding(texts: seq<string>, a: Alphabet)
    ensures FeedAll(texts, a) == Split(Concat(texts), a)
  {
    if texts != [] {
      ClipsIgnoreFeeding(texts[..|texts| - 1], a);
      StreamingEqualsBatch(Concat(texts[..|texts| - 1]), texts[|texts| - 1], a);
    }
  }

  // ----- conservation and bounds -----

  /** The characters that are not white space. */
  function Ink(s: string): string {
    if s == [] then [] else Ink(s[..|s| - 1]) + (if IsSpace(s[|s| - 1]) then [] else [s[|s| - 1]])
  }

  lemma {:induction false} InkConcat(x: string, y: string)
    ensures Ink(x + y) == Ink(x) + Ink(y)
  {
    if y == [] {
      assert x + y == x;
    } else {
      assert (x + y)[..|x + y| - 1] == x + y[..|y| - 1];
      InkConcat(x, y[..|y| - 1]);
    }
  }

  lemma SpaceHasNoInk(c: char)
    requires IsSpace(c)
    ensures Ink([c]) == []
  {
    assert [c][..0] == [];
  }

  lemma {:induction false} LStripCuts(s: string) returns (n: nat)
    ensures n <= |s| && LStrip(s) == s[n..] && (n < |s| ==> !IsSpace(s[n]))
    ensures Ink(s[n..]) == Ink(s)
  {
    if s != [] && IsSpace(s[0]) {
      var t := s[1..];
      var m := LStripCuts(t);
      n := m + 1;
      assert t[m..] == s[n..];
      SpaceHasNoInk(s[0]);
      InkConcat([s[0]], t);
      assert s == [s[0]] + t;
    } else {
      n := 0;
    }
  }

  lemma {:induction false} RStripCuts(s: string) returns (n: nat)
    ensures n <= |s| && RStrip(s) == s[..n] && (n > 0 ==> !IsSpace(s[n - 1]))
    ensures forall j :: n <= j < |s| ==> IsSpace(s[j])
    ensures Ink(s[..n]) == Ink(s)
  {
    if s != [] && IsSpace(s[|s| - 1]) {
      var t := s[..|s| - 1];
      n := RStripCuts(t);
      assert t[..n] == s[..n];
    } else {
      n := |s|;
      assert s[..n] == s;
    }
  }

  lemma StripKeepsInk(s: string)
    ensures Ink(Strip(s)) == Ink(s)
  {
    var m := LStripCuts(s);
    var n := RStripCuts(LStrip(s));
  }

  lemma {:induction false} ConcatAppend(ps: seq<string>, qs: seq<string>)
    ensures Concat(ps + qs) == Concat(ps) + Concat(qs)
  {
    if qs == [] {
      assert ps + qs == ps;
    } else {
      assert (ps + qs)[..|ps + qs| - 1] == ps + qs[..|qs| - 1];
      ConcatAppend(ps, qs[..|qs| - 1]);
    }
  }

  lemma PieceKeepsInk(raw: string)
    ensures Ink(Concat(Piece(raw))) == Ink(raw)
  {
    StripKeepsInk(raw);
    var one := [Strip(raw)];
    assert one[..0] == [] && Concat(one) == [] + Strip(raw) == Strip(raw);
    assert Concat([]) == [];
  }

  lemma InkOfPieces(raw: string, pieces: seq<string>)
    ensures Ink(Concat(Piece(raw) + pieces)) == Ink(raw) + Ink(Concat(pieces))
  {
    PieceKeepsInk(raw);
    ConcatAppend(Piece(raw), pieces);
    InkConcat(Concat(Piece(raw)), Concat(pieces));
  }

  /** Nothing that can be spoken is lost, repeated or reordered. */
  lemma {:induction false} ScanConservesInk(x: string, start: nat, index: nat, a: Alphabet)
    requires start <= index <= |x|
    ensures Ink(Concat(Scan(x, start, index, a).0)) + Ink(Scan(x, start, index, a).1) == Ink(x[start..])
    decreases |x| - start, |x| - index
  {
    hide Decide, Piece;
    if index < |x| {
      var d := Decide(x, start, index, a);
      if d.Advance? {
        ScanConservesInk(x, start, index + 1, a);
      } else if d.CutAt? {
        ScanConservesInk(x, d.cut, d.cut, a);
        ScanCut(x, start, index, d.cut, a);
        InkOfPieces(x[start..d.cut], Scan(x, d.cut, d.cut, a).0);
        InkConcat(x[start..d.cut], x[d.cut..]);
        assert x[start..] == x[start..d.cut] + x[d.cut..];
      }
    }
  }

  lemma SplitConservesInk(x: string, a: Alphabet)
    ensures Ink(Concat(Split(x, a).0)) + Ink(Split(x, a).1) == Ink(x)
  {
    ScanConservesInk(x, 0, 0, a);
    assert x[0..] == x;
  }

  /** At most `MAX_CHUNK_CHARS`, plus closers that follow a terminator. */
  predicate Bounded(s: string) {
    forall k :: MAX_CHUNK_CHARS <= k < |s| ==> s[k] in CLOSERS
  }

  predicate IsStripped(s: string) {
    s != [] && !IsSpace(s[0]) && !IsSpace(s[|s| - 1])
  }

  lemma StripIsStripped(s: string)
    ensures Strip(s) != [] ==> IsStripped(Strip(s))
    ensures Bounded(s) ==> Bounded(Strip(s))
  {
    hide IsSpace, LStrip, RStrip;
    var m := LStripCuts(s);
    var l := LStrip(s);
    var n := RStripCuts(l);
    forall k | Bounded(s) && MAX_CHUNK_CHARS <= k < n ensures l[..n][k] in CLOSERS {
      assert l[..n][k] == l[k] == s[m + k];
    }
  }

  lemma CutIsBounded(x: string, start: nat, index: nat, cut: nat, a: Alphabet)
    requires start <= index < |x| && index - start <= MAX_CHUNK_CHARS
    requires Decide(x, start, index, a) == CutAt(cut)
    ensures Bounded(x[start..cut])
  {
  }

  lemma WaitIsBounded(x: string, start: nat, index: nat, a: Alphabet)
    requires start <= index < |x| && index - start <= MAX_CHUNK_CHARS && Decide(x, start, index, a) == Wait
    ensures Bounded(x[start..])
  {
  }

  lemma {:induction false} ScanBounds(x: string, start: nat, index: nat, a: Alphabet)
    requires start <= index <= |x| && index - start <= MAX_CHUNK_CHARS
    ensures forall p :: p in Scan(x, start, index, a).0 ==> IsStripped(p) && Bounded(p)
    ensures Bounded(Scan(x, start, index, a).1)
    decreases |x| - start, |x| - index
  {
    if index < |x| {
      var d := Decide(x, start, index, a);
      match d
      case Wait => WaitIsBounded(x, start, index, a);
      case Advance => ScanBounds(x, start, index + 1, a);
      case CutAt(cut) =>
        ScanBounds(x, cut, cut, a);
        ScanCut(x, start, index, cut, a);
        CutIsBounded(x, start, index, cut, a);
        StripIsStripped(x[start..cut]);
    }
  }

  /** Every clip is non-empty, stripped and bounded, and so is what `flush` returns. */
  lemma ClipsAreBounded(x: string, a: Alphabet)
    ensures forall p :: p in Split(x, a).0 ==> IsStripped(p) && Bounded(p)
    ensures Bounded(Strip(Split(x, a).1))
  {
    ScanBounds(x, 0, 0, a);
    StripIsStripped(Split(x, a).1);
  }

  // ----- the loop and the object -----

  /** What is left to prove when the scan stands at `index`. */
  ghost predicate SoFar(buffer: string, pieces: seq<string>, start: nat, index: nat, a: Alphabet)
    requires start <= index <= |buffer|
  {
    && Split(buffer, a).0 == pieces + Scan(buffer, start, index, a).0
    && Split(buffer, a).1 == Scan(buffer, start, index, a).1
  }

  lemma SoFarCut(buffer: string, pieces: seq<string>, start: nat, index: nat, cut: nat, a: Alphabet)
    requires start <= index < |buffer| && SoFar(buffer, pieces, start, index, a)
    requires Decide(buffer, start, index, a) == CutAt(cut)
    ensures SoFar(buffer, pieces + Piece(buffer[start..cut]), cut, cut, a)
  {
    ScanCut(buffer, start, index, cut, a);
  }

  lemma SoFarAdvance(buffer: string, pieces: seq<string>, start: nat, index: nat, a: Alphabet)
    requires start <= index < |buffer| && SoFar(buffer, pieces, start, index, a)
    requires Decide(buffer, start, index, a) == Advance
    ensures SoFar(buffer, pieces, start, index + 1, a)
  {
    hide Decide;
  }

  lemma SoFarStop(buffer: string, pieces: seq<string>, start: nat, index: nat, a: Alphabet)
    requires start <= index <= |buffer| && SoFar(buffer, pieces, start, index, a)
    requires index < |buffer| ==> Decide(buffer, start, index, a) == Wait
    ensures Split(buffer, a) == (pieces, buffer[start..])
  {
    hide Decide;
    assert pieces + [] == pieces;
  }

  method PassClosers(buffer: string, from: nat) returns (after: nat)
    requires from <= |buffer|
    ensures after == AfterClosers(buffer, from)
  {
    after := from;
    while after < |buffer| && buffer[after] in CLOSERS
      invariant from <= after <= |buffer|
      invariant AfterClosers(buffer, from) == AfterClosers(buffer, after)
    {
      after := after + 1;
    }
  }

  method SplitSentences(buffer: string, a: Alphabet) returns (pieces: seq<string>, rest: string)
    ensures (pieces, rest) == Split(buffer, a)
  {
    pieces := [];
    var start, index, limit := 0, 0, |buffer|;
    assert SoFar(buffer, pieces, start, index, a);
    hide Split, SoFar, IsSpace, Strip, IsAbbreviation, ForceCut;
    while index < limit
      invariant start <= index <= limit
      invariant SoFar(buffer, pieces, start, index, a)
      decreases limit - start, limit - index
    {
      var c := buffer[index];
      var cut;
      if index - start >= MAX_CHUNK_CHARS {
        cut := ForceCut(buffer, start, index);
      } else if c == '\n' {
        cut := index + 1;
      } else if c in TERMINATORS {
        var after := PassClosers(buffer, index + 1);
        if after >= limit {
          SoFarStop(buffer, pieces, start, index, a);
          return pieces, buffer[start..];
        }
        if !IsSpace(buffer[after]) || (c == '.' && IsAbbreviation(buffer[start..index], a)) {
          SoFarAdvance(buffer, pieces, start, index, a);
          index := index + 1;
          continue;
        }
        cut := after;
      } else {
        SoFarAdvance(buffer, pieces, start, index, a);
        index := index + 1;
        continue;
      }
      SoFarCut(buffer, pieces, start, index, cut, a);
      var piece := Strip(buffer[start..cut]);
      pieces := if piece != [] then pieces + [piece] else pieces + [];
      start := cut;
      index := cut;
    }
    SoFarStop(buffer, pieces, start, index, a);
    return pieces, buffer[start..];
  }

  class SentenceChunker {
    var buffer: string
    const a: Alphabet

    /** The texts fed since the last flush. */
    ghost var fed: seq<string>
    /** The clips returned since the last flush. */
    ghost var clips: seq<string>

    ghost predicate Valid()
      reads this
    {
      (clips, buffer) == FeedAll(fed, a)
    }

    constructor (a: Alphabet)
      ensures Valid() && fed == [] && clips == [] && this.a == a
    {
      this.a := a;
      buffer := [];
      fed, clips := [], [];
    }

    method Feed(text: string) returns (pieces: seq<string>)
      requires Valid()
      modifies this
      ensures Valid() && fed == old(fed) + [text] && clips == old(clips) + pieces
      ensures clips == Split(Concat(fed), a).0
    {
      var rest;
      pieces, rest := SplitSentences(buffer + text, a);
      buffer := rest;
      fed := fed + [text];
      clips := clips + pieces;
      assert fed[..|fed| - 1] == old(fed);
      ClipsIgnoreFeeding(fed, a);
    }

    /** The tail completes the text: no ink of anything fed is missing. */
    method Flush() returns (tail: string)
      requires Valid()
      modifies this
      ensures Valid() && fed == [] && clips == []
      ensures tail == Strip(Split(Concat(old(fed)), a).1)
      ensures Ink(Concat(old(clips))) + Ink(tail) == Ink(Concat(old(fed)))
      ensures Bounded(tail)
    {
      ClipsIgnoreFeeding(fed, a);
      SplitConservesInk(Concat(fed), a);
      StripKeepsInk(buffer);
      ClipsAreBounded(Concat(fed), a);
      tail := Strip(buffer);
      buffer := [];
      fed, clips := [], [];
    }
  }
}
