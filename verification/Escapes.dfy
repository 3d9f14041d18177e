/** Removing terminal escape sequences from captured text: `_strip_escapes`. */
module Escapes {
  const ESC := '\U{1B}'
  const CSI := '\U{9B}'
  const BEL := '\U{07}'
  const ST := '\U{9C}'

  /** Openers of control strings, after ESC and as one C1 character. */
  const STRING_OPENERS := "]_P^X"
  const C1_STRING_OPENERS := "\U{90}\U{98}\U{9D}\U{9E}\U{9F}"

  predicate IsIntroducer(c: char) {
    c == ESC || c == CSI || c in C1_STRING_OPENERS
  }

  predicate Clean(s: string) {
    forall i :: 0 <= i < |s| ==> !IsIntroducer(s[i])
  }

  predicate Parameter(c: char) {
    '\U{20}' <= c <= '\U{3F}'
  }

  predicate CsiFinal(c: char) {
    '\U{40}' <= c <= '\U{7E}'
  }

  predicate Intermediate(c: char) {
    '\U{20}' <= c <= '\U{2F}'
  }

  // ----- where a sequence ends -----

  /** Past the first terminator at or after `start`; the end of the text if none. */
  function SkipString(text: string, start: nat): (r: nat)
    requires start <= |text|
    ensures start <= r <= |text|
    decreases |text| - start
  {
    if start == |text| then start
    else if text[start] == BEL || text[start] == ST then start + 1
    else if text[start] == ESC && start + 1 < |text| && text[start + 1] == '\\' then start + 2
    else SkipString(text, start + 1)
  }

  function SkipWhile(text: string, start: nat, p: char -> bool): (r: nat)
    requires start <= |text|
    ensures start <= r <= |text|
    ensures forall i :: start <= i < r ==> p(text[i])
    ensures r < |text| ==> !p(text[r])
    decreases |text| - start
  {
    if start < |text| && p(text[start]) then SkipWhile(text, start + 1, p) else start
  }

  function SkipCsi(text: string, start: nat): (r: nat)
    requires start <= |text|
    ensures start <= r <= |text|
  {
    var index := SkipWhile(text, start, Parameter);
    if index < |text| && CsiFinal(text[index]) then index + 1 else index
  }

  /** Past the sequence whose introducer is at `start`: it always moves on. */
  function SkipSequence(text: string, start: nat): (r: nat)
    requires start < |text|
    ensures start < r <= |text|
  {
    var index := start + 1;
    if text[start] == CSI then SkipCsi(text, index)
    else if text[start] in C1_STRING_OPENERS then SkipString(text, index)
    else if index >= |text| then index
    else
      var following := text[index];
      if following == '[' then SkipCsi(text, index + 1)
      else if following in STRING_OPENERS then SkipString(text, index + 1)
      else if Intermediate(following) then
        var last := SkipWhile(text, index + 1, Intermediate);
        if last + 1 <= |text| then last + 1 else |text|
      else if '\U{30}' <= following <= '\U{7E}' then index + 1
      else index
  }

  /** What is left of the text from `pos` on. */
  function StripFrom(text: string, pos: nat): string
    requires pos <= |text|
    decreases |text| - pos
  {
    if pos == |text| then []
    else if IsIntroducer(text[pos]) then StripFrom(text, SkipSequence(text, pos))
    else [text[pos]] + StripFrom(text, pos + 1)
  }

  function Strip(text: string): string {
    StripFrom(text, 0)
  }

  // ----- the output is clean -----

  lemma {:induction false} StripFromIsClean(text: string, pos: nat)
    requires pos <= |text|
    ensures Clean(StripFrom(text, pos))
    decreases |text| - pos
  {
    if pos < |text| {
      if IsIntroducer(text[pos]) {
        StripFromIsClean(text, SkipSequence(text, pos));
      } else {
        StripFromIsClean(text, pos + 1);
      }
    }
  }

  lemma {:induction false} CleanTextStays(text: string, pos: nat)
    requires pos <= |text| && Clean(text[pos..])
    ensures StripFrom(text, pos) == text[pos..]
    decreases |text| - pos
  {
    if pos < |text| {
      assert text[pos..][0] == text[pos] && text[pos..][1..] == text[pos + 1..];
      CleanTextStays(text, pos + 1);
    }
  }

  /** For every text: no introducer survives, and stripping again changes nothing. */
  lemma StripIsCleanAndIdempotent(text: string)
    ensures Clean(Strip(text))
    ensures Strip(Strip(text)) == Strip(text)
  {
    StripFromIsClean(text, 0);
    assert Strip(text)[0..] == Strip(text);
    CleanTextStays(Strip(text), 0);
  }

  // ----- stripping sees only the rest of the text -----

  lemma {:induction false} SkipStringShift(x: string, y: string, start: nat)
    requires start <= |y|
    ensures SkipString(x + y, |x| + start) == |x| + SkipString(y, start)
    decreases |y| - start
  {
    if start < |y| {
      assert (x + y)[|x| + start] == y[start];
      assert start + 1 < |y| ==> (x + y)[|x| + start + 1] == y[start + 1];
      SkipStringShift(x, y, start + 1);
    }
  }

  lemma {:induction false} SkipWhileShift(x: string, y: string, start: nat, p: char -> bool)
    requires start <= |y|
    ensures SkipWhile(x + y, |x| + start, p) == |x| + SkipWhile(y, start, p)
    decreases |y| - start
  {
    if start < |y| && p(y[start]) {
      SkipWhileShift(x, y, start + 1, p);
    }
  }

  lemma SkipCsiShift(x: string, y: string, start: nat)
    requires start <= |y|
    ensures SkipCsi(x + y, |x| + start) == |x| + SkipCsi(y, start)
  {
    SkipWhileShift(x, y, start, Parameter);
  }

  lemma SkipSequenceShift(x: string, y: string, start: nat)
    requires start < |y|
    ensures SkipSequence(x + y, |x| + start) == |x| + SkipSequence(y, start)
  {
    hide SkipCsi;
    var index := start + 1;
    assert (x + y)[|x| + start] == y[start];
    SkipStringShift(x, y, index);
    SkipCsiShift(x, y, index);
    if index < |y| {
      assert (x + y)[|x| + index] == y[index];
      SkipStringShift(x, y, index + 1);
      SkipCsiShift(x, y, index + 1);
      SkipWhileShift(x, y, index + 1, Intermediate);
    }
  }

  lemma {:induction false} StripShift(x: string, y: string, pos: nat)
    requires pos <= |y|
    ensures StripFrom(x + y, |x| + pos) == StripFrom(y, pos)
    decreases |y| - pos
  {
    hide SkipSequence;
    if pos < |y| {
      if IsIntroducer(y[pos]) {
        SkipSequenceShift(x, y, pos);
        StripShift(x, y, SkipSequence(y, pos));
      } else {
        StripShift(x, y, pos + 1);
      }
    }
  }

  // ----- complete sequences, and text with sequences inserted anywhere -----

  /** A complete control function: a control sequence (section 5.4 of ECMA-48), a
      control string (section 5.6) or an escape sequence.  `c1` says that its
      introducer is the one-character form. */
  datatype Control =
    | ControlSequence(c1: bool, middle: string, final: char)
    | ControlString(c1: bool, opener: char, payload: string, end: string)
    | EscapeSequence(middle: string, final: char)

  /** The terminators the stripper accepts; the standard's is ST in its two forms. */
  const TERMINATIONS := {[BEL], [ST], [ESC, '\\']}

  predicate Unterminated(payload: string) {
    && (forall i :: 0 <= i < |payload| ==> payload[i] != BEL && payload[i] != ST)
    && (forall i :: 0 <= i < |payload| - 1 ==> !(payload[i] == ESC && payload[i + 1] == '\\'))
  }

  predicate Complete(c: Control) {
    match c
    case ControlSequence(_, middle, final) =>
      (forall i :: 0 <= i < |middle| ==> Parameter(middle[i])) && CsiFinal(final)
    case ControlString(c1, opener, payload, end) =>
      && opener in (if c1 then C1_STRING_OPENERS else STRING_OPENERS)
      && Unterminated(payload) && end in TERMINATIONS
    case EscapeSequence(middle, final) =>
      && (forall i :: 0 <= i < |middle| ==> Intermediate(middle[i]))
      && !Intermediate(final)
      && (middle == [] ==> '\U{30}' <= final <= '\U{7E}' && final != '[' && final !in STRING_OPENERS)
  }

  function Render(c: Control): string {
    match c
    case ControlSequence(c1, middle, final) => (if c1 then [CSI] else [ESC, '[']) + middle + [final]
    case ControlString(c1, opener, payload, end) => (if c1 then [opener] else [ESC, opener]) + payload + end
    case EscapeSequence(middle, final) => [ESC] + middle + [final]
  }

  lemma {:induction false} SkipWhileRun(text: string, start: nat, stop: nat, p: char -> bool)
    requires start <= stop < |text| && (forall i :: start <= i < stop ==> p(text[i])) && !p(text[stop])
    ensures SkipWhile(text, start, p) == stop
    decreases stop - start
  {
    if start < stop {
      SkipWhileRun(text, start + 1, stop, p);
    }
  }

  lemma UnterminatedTail(payload: string)
    requires Unterminated(payload) && payload != []
    ensures Unterminated(payload[1..])
  {
    assert forall i :: 0 <= i < |payload| - 1 ==> payload[1..][i] == payload[i + 1];
  }

  lemma {:induction false} SkipStringFindsEnd(text: string, start: nat, stop: nat, end: string)
    requires start <= stop && stop + |end| <= |text| && text[stop..stop + |end|] == end && end in TERMINATIONS
    requires Unterminated(text[start..stop])
    ensures SkipString(text, start) == stop + |end|
    decreases stop - start
  {
    if start == stop {
      assert text[stop] == end[0];
      assert |end| == 2 ==> text[stop + 1] == end[1];
    } else {
      var payload := text[start..stop];
      assert payload[0] == text[start];
      assert start + 1 < stop ==> payload[1] == text[start + 1];
      assert text[stop] == end[0];
      UnterminatedTail(payload);
      assert text[start + 1..stop] == payload[1..];
      SkipStringFindsEnd(text, start + 1, stop, end);
    }
  }

  lemma SkipControlSequence(c: Control, rest: string)
    requires c.ControlSequence? && Complete(c)
    ensures SkipSequence(Render(c) + rest, 0) == |Render(c)|
  {
    var text, n, start := Render(c) + rest, |Render(c)|, if c.c1 then 1 else 2;
    assert text[n - 1] == c.final;
    forall i | start <= i < n - 1 ensures Parameter(text[i]) {
      assert text[i] == c.middle[i - start];
    }
    SkipWhileRun(text, start, n - 1, Parameter);
  }

  lemma MiddleSlices(head: string, payload: string, end: string, rest: string)
    ensures var text := head + payload + end + rest;
            && text[|head|..|head| + |payload|] == payload
            && text[|head| + |payload|..|head| + |payload| + |end|] == end
  {
  }

  lemma SkipControlString(c: Control, rest: string)
    requires c.ControlString? && Complete(c)
    ensures SkipSequence(Render(c) + rest, 0) == |Render(c)|
  {
    var head := if c.c1 then [c.opener] else [ESC, c.opener];
    var text := head + c.payload + c.end + rest;
    assert text == Render(c) + rest;
    MiddleSlices(head, c.payload, c.end, rest);
    SkipStringFindsEnd(text, |head|, |head| + |c.payload|, c.end);
    assert text[0] == head[0] && text[|head| - 1] == head[|head| - 1];
  }

  lemma SkipEscapeSequence(c: Control, rest: string)
    requires c.EscapeSequence? && Complete(c)
    ensures SkipSequence(Render(c) + rest, 0) == |Render(c)|
  {
    var text, n := Render(c) + rest, |Render(c)|;
    assert text[n - 1] == c.final;
    if c.middle != [] {
      assert text[1] == c.middle[0];
      forall i | 1 <= i < n - 1 ensures Intermediate(text[i]) {
        assert text[i] == c.middle[i - 1];
      }
      SkipWhileRun(text, 2, n - 1, Intermediate);
    }
  }

  lemma SkipExactly(c: Control, rest: string)
    requires Complete(c)
    ensures SkipSequence(Render(c) + rest, 0) == |Render(c)|
  {
    hide SkipSequence, Render, Complete;
    match c
    case ControlSequence(_, _, _) => SkipControlSequence(c, rest);
    case ControlString(_, _, _, _) => SkipControlString(c, rest);
    case EscapeSequence(_, _) => SkipEscapeSequence(c, rest);
  }

  lemma RenderIntroduces(c: Control)
    requires Complete(c)
    ensures Render(c) != [] && IsIntroducer(Render(c)[0])
  {
  }

  /** A complete sequence disappears, whatever follows it. */
  lemma SkipComplete(c: Control, rest: string)
    requires Complete(c)
    ensures Strip(Render(c) + rest) == Strip(rest)
  {
    hide SkipSequence, Render, Complete, IsIntroducer;
    RenderIntroduces(c);
    SkipExactly(c, rest);
    StripShift(Render(c), rest, 0);
    assert (Render(c) + rest)[0] == Render(c)[0];
  }

  datatype Item = Text(s: string) | Inserted(c: Control)

  predicate WellFormed(items: seq<Item>) {
    forall i :: 0 <= i < |items| ==> WellFormedItem(items[i])
  }

  function Shown(item: Item): string {
    match item
    case Text(s) => s
    case Inserted(c) => Render(c)
  }

  function Kept(item: Item): string {
    match item
    case Text(s) => s
    case Inserted(_) => []
  }

  function RenderAll(items: seq<Item>): string {
    if items == [] then [] else Shown(items[0]) + RenderAll(items[1..])
  }

  function TextOf(items: seq<Item>): string {
    if items == [] then [] else Kept(items[0]) + TextOf(items[1..])
  }

  lemma {:induction false} CleanPrefixStays(x: string, y: string)
    requires Clean(x)
    ensures Strip(x + y) == x + Strip(y)
  {
    if x == [] {
      assert x + y == y;
    } else {
      CleanPrefixStays(x[1..], y);
      assert x + y == [x[0]] + (x[1..] + y);
      StripShift([x[0]], x[1..] + y, 0);
    }
  }

  lemma {:induction false} SkipStringRunsOut(text: string, start: nat)
    requires start <= |text| && Unterminated(text[start..])
    ensures SkipString(text, start) == |text|
    decreases |text| - start
  {
    if start < |text| {
      var payload := text[start..];
      assert payload[0] == text[start];
      assert start + 1 < |text| ==> payload[1] == text[start + 1];
      UnterminatedTail(payload);
      assert text[start + 1..] == payload[1..];
      SkipStringRunsOut(text, start + 1);
    }
  }

  predicate WellFormedItem(item: Item) {
    match item
    case Text(s) => Clean(s)
    case Inserted(c) => Complete(c)
  }

  lemma StripItem(item: Item, rest: string)
    requires WellFormedItem(item)
    ensures Strip(Shown(item) + rest) == Kept(item) + Strip(rest)
  {
    hide Render, Strip, Complete, Clean;
    match item
    case Text(s) => CleanPrefixStays(s, rest);
    case Inserted(c) =>
      SkipComplete(c, rest);
      assert [] + Strip(rest) == Strip(rest);
  }

  lemma {:induction false} StripBefore(items: seq<Item>, tail: string)
    requires WellFormed(items)
    ensures Strip(RenderAll(items) + tail) == TextOf(items) + Strip(tail)
  {
    hide Strip, WellFormedItem, Shown, Kept;
    if items == [] {
      assert RenderAll(items) + tail == tail;
      assert TextOf(items) + Strip(tail) == Strip(tail);
    } else {
      var first, rest := items[0], items[1..];
      StripBefore(rest, tail);
      StripItem(first, RenderAll(rest) + tail);
      assert Shown(first) + RenderAll(rest) + tail == Shown(first) + (RenderAll(rest) + tail);
      assert Kept(first) + TextOf(rest) + Strip(tail) == Kept(first) + (TextOf(rest) + Strip(tail));
    }
  }

  /** Stripping inverts insertion: text with complete sequences inserted anywhere
      strips back to the text. */
  lemma StripInvertsInsertion(items: seq<Item>)
    requires WellFormed(items)
    ensures Strip(RenderAll(items)) == TextOf(items)
  {
    StripBefore(items, []);
    assert RenderAll(items) + [] == RenderAll(items);
    assert TextOf(items) + Strip([]) == TextOf(items);
  }

  /** A control string cut off by the end of the capture takes the whole tail with it
      and nothing before it. */
  lemma TruncatedStringLosesOnlyTheTail(items: seq<Item>, opener: char, payload: string)
    requires WellFormed(items) && opener in STRING_OPENERS && Unterminated(payload)
    ensures Strip(RenderAll(items) + [ESC, opener] + payload) == TextOf(items)
  {
    var tail := [ESC, opener] + payload;
    assert tail[2..] == payload;
    SkipStringRunsOut(tail, 2);
    assert tail[0] == ESC && tail[1] == opener;
    assert IsIntroducer(tail[0]) && SkipSequence(tail, 0) == |tail|;
    assert StripFrom(tail, |tail|) == [];
    assert Strip(tail) == [];
    StripBefore(items, tail);
    assert RenderAll(items) + [ESC, opener] + payload == RenderAll(items) + tail;
  }

  // ----- sequences cut short -----

  predicate CsiIntroducer(s: string) {
    s == [CSI] || s == [ESC, '[']
  }

  /** What ends a run of parameters without completing the sequence. */
  predicate BreaksOff(c: char) {
    !Parameter(c) && !CsiFinal(c)
  }

  /** What an escape character introduces nothing with. */
  predicate Stray(c: char) {
    c != '[' && c !in STRING_OPENERS && !Intermediate(c) && !('\U{30}' <= c <= '\U{7E}')
  }

  /** A control sequence that breaks off loses only its parameters, and what broke it off
      is read normally. */
  lemma BrokenSequenceLosesOnlyItself(head: string, middle: string, c: char, rest: string)
    requires CsiIntroducer(head) && (forall i :: 0 <= i < |middle| ==> Parameter(middle[i])) && BreaksOff(c)
    ensures Strip(head + middle + [c] + rest) == Strip([c] + rest)
  {
    var text, start, stop := head + middle + [c] + rest, |head|, |head| + |middle|;
    forall i | start <= i < stop ensures Parameter(text[i]) { assert text[i] == middle[i - start]; }
    assert text[stop] == c && text[0] == head[0] && text[start - 1] == head[start - 1];
    SkipWhileRun(text, start, stop, Parameter);
    assert SkipSequence(text, 0) == stop;
    assert text == (head + middle) + ([c] + rest);
    StripShift(head + middle, [c] + rest, 0);
  }

  /** An escape character before anything else goes alone. */
  lemma StrayEscapeGoesAlone(c: char, rest: string)
    requires Stray(c)
    ensures Strip([ESC, c] + rest) == Strip([c] + rest)
  {
    var text := [ESC, c] + rest;
    assert text[0] == ESC && text[1] == c && SkipSequence(text, 0) == 1;
    assert text == [ESC] + ([c] + rest);
    StripShift([ESC], [c] + rest, 0);
  }

  /** Cut off by the end of the text, either goes. */
  lemma CutOffByTheEnd(head: string, middle: string)
    requires CsiIntroducer(head) && forall i :: 0 <= i < |middle| ==> Parameter(middle[i])
    ensures Strip(head + middle) == [] && Strip([ESC]) == []
  {
    var text, start := head + middle, |head|;
    forall i | start <= i < |text| ensures Parameter(text[i]) { assert text[i] == middle[i - start]; }
    assert text[0] == head[0] && text[start - 1] == head[start - 1];
    assert SkipWhile(text, start, Parameter) == |text|;
    assert SkipSequence(text, 0) == |text| && SkipSequence([ESC], 0) == 1;
    assert StripFrom(text, |text|) == [] && StripFrom([ESC], 1) == [];
  }

  // ----- the loops -----

  method SkipCsiLoop(text: string, start: nat) returns (r: nat)
    requires start <= |text|
    ensures r == SkipCsi(text, start)
  {
    var index := start;
    while index < |text| && Parameter(text[index])
      invariant start <= index <= |text|
      invariant SkipWhile(text, start, Parameter) == SkipWhile(text, index, Parameter)
    {
      index := index + 1;
    }
    if index < |text| && CsiFinal(text[index]) {
      return index + 1;
    }
    return index;
  }

  method SkipSequenceLoop(text: string, start: nat) returns (r: nat)
    requires start < |text|
    ensures r == SkipSequence(text, start)
  {
    var opener, index := text[start], start + 1;
    if opener == CSI {
      r := SkipCsiLoop(text, index);
      return;
    }
    if opener in C1_STRING_OPENERS {
      return SkipString(text, index);
    }
    if index >= |text| {
      return index;
    }
    var following := text[index];
    index := index + 1;
    if following == '[' {
      r := SkipCsiLoop(text, index);
      return;
    }
    if following in STRING_OPENERS {
      return SkipString(text, index);
    }
    if Intermediate(following) {
      while index < |text| && Intermediate(text[index])
        invariant start + 2 <= index <= |text|
        invariant SkipWhile(text, start + 2, Intermediate) == SkipWhile(text, index, Intermediate)
      {
        index := index + 1;
      }
      return if index + 1 <= |text| then index + 1 else |text|;
    }
    if '\U{30}' <= following <= '\U{7E}' {
      return index;
    }
    return start + 1;
  }

  /** The next introducer, or none. */
  method FindIntroducer(text: string, pos: nat) returns (found: bool, at: nat)
    requires pos <= |text|
    ensures pos <= at <= |text| && Clean(text[pos..at])
    ensures found ==> at < |text| && IsIntroducer(text[at])
    ensures !found ==> at == |text|
  {
    at := pos;
    while at < |text| && !IsIntroducer(text[at])
      invariant pos <= at <= |text| && forall i :: pos <= i < at ==> !IsIntroducer(text[i])
    {
      at := at + 1;
    }
    found := at < |text|;
  }

  lemma StripFromIsStripOfRest(text: string, pos: nat)
    requires pos <= |text|
    ensures StripFrom(text, pos) == Strip(text[pos..])
  {
    StripShift(text[..pos], text[pos..], 0);
    assert text[..pos] + text[pos..] == text;
  }

  lemma StripFromSkipsClean(text: string, pos: nat, at: nat)
    requires pos <= at <= |text| && Clean(text[pos..at])
    ensures StripFrom(text, pos) == text[pos..at] + StripFrom(text, at)
  {
    hide Strip, StripFrom;
    StripFromIsStripOfRest(text, pos);
    StripFromIsStripOfRest(text, at);
    CleanPrefixStays(text[pos..at], text[at..]);
    assert text[pos..] == text[pos..at] + text[at..];
  }

  method StripEscapes(text: string) returns (result: string)
    ensures result == Strip(text)
  {
    result := [];
    var pos := 0;
    while true
      invariant pos <= |text|
      invariant Strip(text) == result + StripFrom(text, pos)
      decreases |text| - pos
    {
      var found, at := FindIntroducer(text, pos);
      StripFromSkipsClean(text, pos, at);
      ghost var before := result;
      result := result + text[pos..at];
      assert before + (text[pos..at] + StripFrom(text, at)) == result + StripFrom(text, at);
      if !found {
        assert StripFrom(text, at) == [];
        return;
      }
      pos := SkipSequenceLoop(text, at);
    }
  }
}
