/** Characters and lines, as Python's `str` methods see them. */
module Text {
  predicate IsSpace(c: char) {
    || '\t' <= c <= '\r' || '\U{1C}' <= c <= ' ' || c == '\U{85}' || c == '\U{A0}' || c == '\U{1680}'
    || '\U{2000}' <= c <= '\U{200A}' || c == '\U{2028}' || c == '\U{2029}' || c == '\U{202F}'
    || c == '\U{205F}' || c == '\U{3000}'
  }

  /** Where `splitlines` ends a line. */
  predicate IsBreak(c: char) {
    || '\n' <= c <= '\r' || '\U{1C}' <= c <= '\U{1E}' || c == '\U{85}' || c == '\U{2028}' || c == '\U{2029}'
  }

  predicate IsNewline(c: char) {
    c == '\n'
  }

  predicate AllSpace(s: string) {
    forall i :: 0 <= i < |s| ==> IsSpace(s[i])
  }

  function LStrip(s: string): string {
    if s != [] && IsSpace(s[0]) then LStrip(s[1..]) else s
  }

  function RStrip(s: string): string {
    if s != [] && IsSpace(s[|s| - 1]) then RStrip(s[..|s| - 1]) else s
  }

  function Strip(s: string): string {
    RStrip(LStrip(s))
  }

  /** `rstrip("\n")`. */
  function TrimNewlines(s: string): string {
    if s != [] && s[|s| - 1] == '\n' then TrimNewlines(s[..|s| - 1]) else s
  }

  /** The stretches between separators; always one more than there are separators. */
  function Pieces(t: string, sep: char -> bool): (r: seq<string>)
    ensures |r| > 0
  {
    if t == [] then [[]]
    else if sep(t[0]) then [[]] + Pieces(t[1..], sep)
    else
      var r := Pieces(t[1..], sep);
      [[t[0]] + r[0]] + r[1..]
  }

  /** The newline-separated lines, joined again. */
  function Join(lines: seq<string>): string
    requires |lines| > 0
  {
    if |lines| == 1 then lines[0] else lines[0] + "\n" + Join(lines[1..])
  }

  lemma ExtendFirst(x: string, r: seq<string>, q: seq<string>)
    requires |r| > 0
    ensures [x + (r + q)[0]] + (r + q)[1..] == ([x + r[0]] + r[1..]) + q
  {
  }

  lemma {:induction false} PiecesConcat(a: string, c: char, b: string, sep: char -> bool)
    requires sep(c)
    ensures Pieces(a + [c] + b, sep) == Pieces(a, sep) + Pieces(b, sep)
  {
    var t := a + [c] + b;
    if a == [] {
      assert t == [c] + b && t[1..] == b;
    } else {
      assert t[0] == a[0] && t[1..] == a[1..] + [c] + b;
      PiecesConcat(a[1..], c, b, sep);
      if sep(a[0]) {
        assert [[]] + (Pieces(a[1..], sep) + Pieces(b, sep)) == ([[]] + Pieces(a[1..], sep)) + Pieces(b, sep);
      } else {
        ExtendFirst([a[0]], Pieces(a[1..], sep), Pieces(b, sep));
      }
    }
  }

  lemma {:induction false} PiecesWhole(t: string, sep: char -> bool)
    requires forall i :: 0 <= i < |t| ==> !sep(t[i])
    ensures Pieces(t, sep) == [t]
  {
    if t != [] {
      PiecesWhole(t[1..], sep);
      assert [t[0]] + t[1..] == t;
    }
  }

  lemma {:induction false} PiecesHaveNone(t: string, sep: char -> bool)
    ensures forall p, i :: p in Pieces(t, sep) && 0 <= i < |p| ==> !sep(p[i])
  {
    if t != [] {
      PiecesHaveNone(t[1..], sep);
      var r := Pieces(t[1..], sep);
      assert forall p :: p in r[1..] ==> p in r;
      assert r[0] in r;
    }
  }

  lemma {:induction false} JoinPieces(t: string)
    ensures Join(Pieces(t, IsNewline)) == t
  {
    if t != [] {
      JoinPieces(t[1..]);
      var r := Pieces(t[1..], IsNewline);
      if IsNewline(t[0]) {
        assert ([[]] + r)[1..] == r;
        assert [] + "\n" + t[1..] == t;
      } else if |r| == 1 {
        assert [t[0]] + t[1..] == t;
      } else {
        assert ([[t[0]] + r[0]] + r[1..])[1..] == r[1..];
        assert [t[0]] + r[0] + "\n" + Join(r[1..]) == [t[0]] + (r[0] + "\n" + Join(r[1..]));
        assert [t[0]] + t[1..] == t;
      }
    }
  }

  lemma {:induction false} JoinAppend(a: seq<string>, b: seq<string>)
    requires |a| > 0 && |b| > 0
    ensures Join(a + b) == Join(a) + "\n" + Join(b)
  {
    if |a| == 1 {
      assert (a + b)[1..] == b;
    } else {
      assert (a + b)[1..] == a[1..] + b;
      JoinAppend(a[1..], b);
      assert a[0] + "\n" + (Join(a[1..]) + "\n" + Join(b)) == a[0] + "\n" + Join(a[1..]) + "\n" + Join(b);
    }
  }

  /** Joining and splitting are inverse on lines without newlines. */
  lemma {:induction false} PiecesJoin(lines: seq<string>)
    requires |lines| > 0 && forall l, i :: l in lines && 0 <= i < |l| ==> l[i] != '\n'
    ensures Pieces(Join(lines), IsNewline) == lines
  {
    assert lines[0] in lines;
    PiecesWhole(lines[0], IsNewline);
    if |lines| > 1 {
      assert forall l :: l in lines[1..] ==> l in lines;
      PiecesJoin(lines[1..]);
      PiecesConcat(lines[0], '\n', Join(lines[1..]), IsNewline);
      hide Pieces;
      assert Join(lines) == lines[0] + ['\n'] + Join(lines[1..]);
      assert [lines[0]] + lines[1..] == lines;
    } else {
      assert lines == [lines[0]];
    }
  }
}
