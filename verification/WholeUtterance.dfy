/** `_WholeUtterance`: a dictation turn buffered in full, with a provisional transcript
    that may save the final decode.  The decoder is a function of the audio; that a
    decode fails is chosen by the environment.
  */
module WholeUtterance {
  import opened Basics

  const MAX_FEED := 0x10_0000
  const MAX_BUFFER := 16000 * 2 * 600

  type Decoder = Bytes -> string

  datatype Cached = Cached(length: nat, text: string)

  datatype Turn = Turn(pcm: Bytes, provisional: Option<Cached>, open: bool, closed: bool)

  datatype Refusal = IsClosed | NotOpen | FrameTooLong | BufferFull | DecodeFailed

  const Fresh := Turn([], None, false, false)

  // ----- the operations -----

  function ResetTurn(u: Turn): Turn {
    u.(pcm := [], provisional := None)
  }

  /** The frame without half a sample. */
  function Whole(frame: Bytes): Bytes {
    frame[..|frame| - |frame| % 2]
  }

  function Start(u: Turn): (Turn, Result<(), Refusal>) {
    if u.closed then (u, Failure(IsClosed)) else (ResetTurn(u).(open := true), Success(()))
  }

  function Feed(u: Turn, frame: Bytes): (Turn, Result<(), Refusal>) {
    if u.closed then (u, Failure(IsClosed))
    else if !u.open then (u, Failure(NotOpen))
    else if |frame| > MAX_FEED then (u, Failure(FrameTooLong))
    else if |u.pcm| + |Whole(frame)| > MAX_BUFFER then (u, Failure(BufferFull))
    else (u.(pcm := u.pcm + Whole(frame)), Success(()))
  }

  /** What `provisional` does when the decode of `snapshot` has come back. */
  function Judge(u: Turn, snapshot: Bytes, text: string): Turn {
    if text != "" then u.(provisional := Some(Cached(|snapshot|, text)))
    else if |u.pcm| == |snapshot| then ResetTurn(u)
    else u
  }

  function End(decode: Decoder, u: Turn, fails: bool): (Turn, Result<string, Refusal>) {
    if u.closed then (u, Failure(IsClosed))
    else if !u.open then (u, Success(""))
    else
      var t := ResetTurn(u).(open := false);
      if u.pcm == [] then (t, Success(""))
      else if u.provisional.Some? && u.provisional.value.length == |u.pcm| then (t, Success(u.provisional.value.text))
      else if fails then (t, Failure(DecodeFailed))
      else (t, Success(decode(u.pcm)))
  }

  // ----- the turn among threads -----

  type Tid = nat

  /** `Asked` and `Answered` are the beginning and the return of a `provisional` that
      decodes. */
  datatype Happening =
    | Started
    | Heard(data: Bytes)
    | Asked(t: Tid)
    | Answered(t: Tid, snapshot: Bytes, silent: bool)
    | Ended

  /** What the calls of one turn amount to.  `audio` is what was fed since the turn began,
      or since the last provisional that decoded everything fed so far to nothing.
      `missing` is the beginning of it that an answer about other audio, as long as what
      was buffered, made the program drop.  `own` are the calls asked since the buffer was
      last empty; `stray` says that another one was answered in this turn. */
  datatype Record = Record(audio: Bytes, missing: Bytes, own: set<Tid>, stray: bool)

  function Recorded(log: seq<Happening>): Record {
    if log == [] then Record([], [], {}, false) else RecordNext(Recorded(log[..|log| - 1]), log[|log| - 1])
  }

  function RecordNext(r: Record, h: Happening): Record {
    match h
    case Started => Record([], [], {}, false)
    case Ended => Record([], [], {}, false)
    case Heard(data) => r.(audio := r.audio + data)
    case Asked(t) => r.(own := r.own + {t})
    case Answered(t, snapshot, silent) =>
      var s := r.(own := r.own - {t}, stray := r.stray || t !in r.own);
      if !silent then s
      else if r.missing == [] && snapshot == r.audio then s.(audio := [], own := {})
      else if |snapshot| == |r.audio| - |r.missing| then s.(missing := r.audio, own := {})
      else s
  }

  /** `pending` is what each call in progress took to decode; `source` is the audio that the
      cached text is the decoding of.  `source` and `log` are never read. */
  datatype World = World(turn: Turn, pending: map<Tid, Bytes>, source: Option<Bytes>, log: seq<Happening>)

  const Initial := World(Fresh, map[], None, [])

  datatype Action =
    | CallStart
    | CallFeed(frame: Bytes)
    | CallProvisional(t: Tid)
    | ProvisionalReturns(t: Tid, fails: bool)
    | CallEnd(fails: bool)
    | RequestClose

  predicate Enabled(w: World, a: Action) {
    && (a.CallProvisional? ==> a.t !in w.pending)
    && (a.ProvisionalReturns? ==> a.t in w.pending)
  }

  function Do(decode: Decoder, w: World, a: Action): World
    requires Enabled(w, a)
  {
    match a
    case CallStart =>
      var (u, r) := Start(w.turn);
      if r.Success? then World(u, w.pending, None, w.log + [Started]) else w
    case CallFeed(frame) =>
      var (u, r) := Feed(w.turn, frame);
      if r.Success? then w.(turn := u, log := w.log + [Heard(Whole(frame))]) else w
    case CallProvisional(t) =>
      if w.turn.closed || !w.turn.open || w.turn.pcm == [] then w
      else w.(pending := w.pending[t := w.turn.pcm], log := w.log + [Asked(t)])
    case ProvisionalReturns(t, fails) => Return(decode, w, t, fails)
    case CallEnd(fails) =>
      if w.turn.closed || !w.turn.open then w
      else World(End(decode, w.turn, fails).0, w.pending, None, w.log + [Ended])
    case RequestClose => w.(turn := w.turn.(closed := true))
  }

  function Return(decode: Decoder, w: World, t: Tid, fails: bool): World
    requires t in w.pending
  {
    if fails then w.(pending := w.pending - {t})
    else
      var snapshot := w.pending[t];
      var text := decode(snapshot);
      World(Judge(w.turn, snapshot, text), w.pending - {t},
            if text != "" then Some(snapshot) else if |w.turn.pcm| == |snapshot| then None else w.source,
            w.log + [Answered(t, snapshot, text == "")])
  }

  function After(decode: Decoder, schedule: seq<Action>): Option<World>
    decreases |schedule|
  {
    if schedule == [] then Some(Initial)
    else
      var last := |schedule| - 1;
      var before := After(decode, schedule[..last]);
      if before.Some? && Enabled(before.value, schedule[last]) then Some(Do(decode, before.value, schedule[last]))
      else None
  }

  // ----- the invariant -----

  function CacheOf(decode: Decoder, source: Option<Bytes>): Option<Cached> {
    if source == None then None else Some(Cached(|source.value|, decode(source.value)))
  }

  predicate CacheSound(decode: Decoder, w: World) {
    w.turn.provisional == CacheOf(decode, w.source) && (w.source.Some? ==> decode(w.source.value) != "")
  }

  /** The buffer is the audio that counts, without what is missing of it. */
  predicate BufferSound(w: World) {
    && |w.turn.pcm| <= MAX_BUFFER
    && Recorded(w.log).audio == Recorded(w.log).missing + w.turn.pcm
    && (forall t :: t in w.pending ==> w.pending[t] != [])
  }

  /** Calls asked since the buffer was last empty decode beginnings of it. */
  predicate OwnSound(w: World) {
    var r := Recorded(w.log);
    && (forall t :: t in w.pending && t in r.own ==> w.pending[t] <= w.turn.pcm)
    && (!r.stray ==> r.missing == [] && (w.source.Some? ==> w.source.value <= w.turn.pcm))
  }

  predicate Inv(decode: Decoder, w: World) {
    CacheSound(decode, w) && BufferSound(w) && OwnSound(w)
  }

  lemma RecordGrows(log: seq<Happening>, h: Happening)
    ensures Recorded(log + [h]) == RecordNext(Recorded(log), h)
  {
    assert (log + [h])[..|log|] == log;
  }

  lemma StepKeepsInv(decode: Decoder, w: World, a: Action)
    requires Inv(decode, w) && Enabled(w, a)
    ensures Inv(decode, Do(decode, w, a))
  {
    hide Recorded, Return;
    if a.ProvisionalReturns? {
      ReturnKeepsInv(decode, w, a.t, a.fails);
    } else {
      var w' := Do(decode, w, a);
      if w'.log != w.log {
        var h := w'.log[|w.log|];
        assert w'.log == w.log + [h];
        RecordGrows(w.log, h);
      }
    }
  }

  lemma ReturnKeepsInv(decode: Decoder, w: World, t: Tid, fails: bool)
    requires Inv(decode, w) && t in w.pending
    ensures Inv(decode, Return(decode, w, t, fails))
  {
    hide Recorded;
    var snapshot := w.pending[t];
    RecordGrows(w.log, Answered(t, snapshot, decode(snapshot) == ""));
    if |snapshot| == |w.turn.pcm| { assert snapshot <= w.turn.pcm ==> snapshot == w.turn.pcm; }
  }

  lemma {:induction false} RunKeepsInv(decode: Decoder, schedule: seq<Action>)
    requires After(decode, schedule).Some?
    ensures Inv(decode, After(decode, schedule).value)
    decreases |schedule|
  {
    if schedule != [] {
      hide Do, Enabled, Inv;
      var last := |schedule| - 1;
      RunKeepsInv(decode, schedule[..last]);
      StepKeepsInv(decode, After(decode, schedule[..last]).value, schedule[last]);
    } else {
      assert Inv(decode, Initial);
    }
  }

  /** The buffer keeps its ceiling, whatever overlaps. */
  lemma {:induction false} BufferKeepsCeiling(decode: Decoder, schedule: seq<Action>)
    requires After(decode, schedule).Some?
    ensures |After(decode, schedule).value.turn.pcm| <= MAX_BUFFER
  {
    RunKeepsInv(decode, schedule);
  }

  // ----- when the final text is right -----

  /** The text of some audio; no audio has none. */
  function TextOf(decode: Decoder, audio: Bytes): string {
    if audio == [] then "" else decode(audio)
  }

  /** The audio whose text `end_utterance` returns. */
  function Decoded(w: World): Bytes {
    if w.turn.pcm == [] then []
    else if w.source.Some? && |w.source.value| == |w.turn.pcm| then w.source.value
    else w.turn.pcm
  }

  /** Nothing of the turn was dropped on an answer about other audio, and the kept text, if
      it is as long as the turn, is this turn's. */
  predicate Faithful(w: World) {
    var r := Recorded(w.log);
    r.missing == [] && (w.source.Some? && |w.source.value| == |r.audio| ==> w.source.value == r.audio)
  }

  lemma FaithfulIff(decode: Decoder, w: World)
    requires Inv(decode, w)
    ensures Decoded(w) == Recorded(w.log).audio <==> Faithful(w)
  {
    hide Recorded;
    var r := Recorded(w.log);
    assert |r.audio| == |r.missing| + |w.turn.pcm|;
    assert r.missing == [] ==> r.audio == w.turn.pcm;
  }

  lemma EndDecodes(decode: Decoder, w: World, fails: bool)
    requires Inv(decode, w) && w.turn.open && !w.turn.closed
    ensures var r := End(decode, w.turn, fails).1;
      r == Success(TextOf(decode, Decoded(w))) || (fails && r == Failure(DecodeFailed))
    ensures End(decode, w.turn, false).1 == Success(TextOf(decode, Decoded(w)))
  {
  }

  /** A turn in which no provisional returns that was asked before it, or before the buffer
      was last emptied in it, ends with the decoding of exactly the audio that counts,
      whether or not the provisional text is used, and whatever happened in earlier turns. */
  lemma EndDecodesTheTurn(decode: Decoder, schedule: seq<Action>, fails: bool)
    requires After(decode, schedule).Some?
    requires var w := After(decode, schedule).value; w.turn.open && !w.turn.closed && !Recorded(w.log).stray
    ensures var w := After(decode, schedule).value; var r := End(decode, w.turn, fails).1;
      || r == Success(TextOf(decode, Recorded(w.log).audio))
      || (fails && r == Failure(DecodeFailed))
  {
    var w := After(decode, schedule).value;
    RunKeepsInv(decode, schedule);
    EndDecodes(decode, w, fails);
    FaithfulIff(decode, w);
    assert w.source.Some? && |w.source.value| == |w.turn.pcm| ==> w.source.value == w.turn.pcm;
  }

  /** Two decoders that hear words in the same audio lead through the same states, but for
      the text they keep. */
  ghost predicate Alike(d: Decoder, e: Decoder) {
    forall b: Bytes :: Silent(d, b) <==> Silent(e, b)
  }

  predicate Silent(d: Decoder, b: Bytes) {
    d(b) == ""
  }

  function WithTexts(d: Decoder, w: World): World {
    w.(turn := w.turn.(provisional := CacheOf(d, w.source)))
  }

  lemma StepAlike(d: Decoder, e: Decoder, w: World, a: Action)
    requires Alike(d, e) && Inv(e, w) && Enabled(w, a)
    ensures Enabled(WithTexts(d, w), a)
    ensures Do(d, WithTexts(d, w), a) == WithTexts(d, Do(e, w, a))
  {
    hide Recorded;
    if a.ProvisionalReturns? { assert Silent(d, w.pending[a.t]) <==> Silent(e, w.pending[a.t]); }
  }

  lemma {:induction false} RunsAlike(d: Decoder, e: Decoder, schedule: seq<Action>)
    requires Alike(d, e) && After(e, schedule).Some?
    ensures After(d, schedule) == Some(WithTexts(d, After(e, schedule).value))
    decreases |schedule|
  {
    if schedule != [] {
      hide Do, Enabled, Inv, WithTexts, Alike;
      var last := |schedule| - 1;
      RunsAlike(d, e, schedule[..last]);
      RunKeepsInv(e, schedule[..last]);
      StepAlike(d, e, After(e, schedule[..last]).value, schedule[last]);
    }
  }

  predicate EndsExactly(d: Decoder, schedule: seq<Action>) {
    var w := After(d, schedule);
    w.Some? && End(d, w.value.turn, false).1 == Success(TextOf(d, Recorded(w.value.log).audio))
  }

  /** In any run, the final text is right for every decoder with these silences if and only
      if the turn is faithful, or there is nothing to hear either in what is decoded or in
      what should be. */
  lemma EndIsExactIff(decode: Decoder, schedule: seq<Action>)
    requires After(decode, schedule).Some?
    requires var w := After(decode, schedule).value; w.turn.open && !w.turn.closed
    ensures var w := After(decode, schedule).value; var audio := Recorded(w.log).audio;
      (forall d: Decoder :: Alike(d, decode) ==> EndsExactly(d, schedule)) <==>
      Faithful(w) || (TextOf(decode, Decoded(w)) == "" && TextOf(decode, audio) == "")
  {
    hide Recorded, After, Inv, End, Alike;
    var w := After(decode, schedule).value;
    var audio, x := Recorded(w.log).audio, Decoded(w);
    RunKeepsInv(decode, schedule);
    FaithfulIff(decode, w);
    if x == audio || (TextOf(decode, x) == "" && TextOf(decode, audio) == "") {
      forall d: Decoder | Alike(d, decode) ensures EndsExactly(d, schedule) {
        AlikeEnds(d, decode, schedule);
        AlikeTexts(d, decode, x);
        AlikeTexts(d, decode, audio);
      }
    } else {
      var d := Other(decode, x, audio);
      AlikeEnds(d, decode, schedule);
      assert !EndsExactly(d, schedule);
    }
  }

  lemma AlikeEnds(d: Decoder, e: Decoder, schedule: seq<Action>)
    requires Alike(d, e) && After(e, schedule).Some?
    requires var w := After(e, schedule).value; w.turn.open && !w.turn.closed
    ensures var w := After(e, schedule).value;
      && After(d, schedule).Some? && After(d, schedule).value.log == w.log
      && End(d, After(d, schedule).value.turn, false).1 == Success(TextOf(d, Decoded(w)))
  {
    hide Recorded, After, Alike;
    RunsAlike(d, e, schedule);
    RunKeepsInv(d, schedule);
    EndDecodes(d, After(d, schedule).value, false);
  }

  lemma AlikeTexts(d: Decoder, e: Decoder, b: Bytes)
    requires Alike(d, e)
    ensures TextOf(d, b) == "" <==> TextOf(e, b) == ""
  {
    assert Silent(d, b) <==> Silent(e, b);
  }

  /** A decoder with the same silences that tells the two apart. */
  lemma Other(decode: Decoder, x: Bytes, audio: Bytes) returns (d: Decoder)
    requires x != audio && !(TextOf(decode, x) == "" && TextOf(decode, audio) == "")
    ensures Alike(d, decode) && TextOf(d, x) != TextOf(d, audio)
  {
    if TextOf(decode, x) == "" || TextOf(decode, audio) == "" {
      d := decode;
    } else {
      d := b => if b == x then decode(x) + decode(audio) else decode(b);
      assert |d(x)| > |d(audio)|;
    }
  }

  // ----- what a straggler can do -----

  /** A provisional that is asked in one turn and returns in the next can hand the old
      turn's words to the new one, when both are equally long. */
  lemma OverlapReturnsOldText(decode: Decoder, a: Bytes, b: Bytes) returns (s: seq<Action>)
    requires |a| == |b| && 0 < |a| <= MAX_FEED && |a| % 2 == 0 && decode(a) != ""
    ensures EndsWith(decode, s, b, decode(a))
  {
    hide After;
    var w;
    s, w := Straddles(decode, a, b);
    s, w := Then(decode, s, w, ProvisionalReturns(0, false));
    RecordGrows([Started, Heard(a), Asked(0), Started, Heard(b)], Answered(0, a, false));
  }

  /** Or, when it heard nothing in the old turn, it can take the new turn's words away. */
  lemma SilentOverlapLosesWords(decode: Decoder, a: Bytes, b: Bytes) returns (s: seq<Action>)
    requires |a| == |b| && 0 < |a| <= MAX_FEED && |a| % 2 == 0 && decode(a) == "" && a != b
    ensures EndsWith(decode, s, b, "")
  {
    hide After;
    var w;
    s, w := Straddles(decode, a, b);
    s, w := Then(decode, s, w, ProvisionalReturns(0, false));
    RecordGrows([Started, Heard(a), Asked(0), Started, Heard(b)], Answered(0, a, true));
  }

  /** So can a second call in the same turn: two are asked about the same audio, the first
      answer empties the buffer, as much other audio comes in, and the second empties it
      again. */
  lemma SecondAnswerLosesWords(decode: Decoder, a: Bytes, b: Bytes) returns (s: seq<Action>)
    requires |a| == |b| && 0 < |a| <= MAX_FEED && |a| % 2 == 0 && decode(a) == "" && a != b
    ensures EndsWith(decode, s, b, "")
  {
    hide After, Recorded;
    var w;
    s, w := AskedTwice(decode, a);
    var log := w.log;
    s, w := Then(decode, s, w, ProvisionalReturns(0, false));
    RecordGrows(log, Answered(0, a, true));
    s, w := Then(decode, s, w, CallFeed(b));
    assert Whole(b) == b && [] + b == b;
    RecordGrows(log + [Answered(0, a, true)], Heard(b));
    s, w := Then(decode, s, w, ProvisionalReturns(1, false));
    RecordGrows(log + [Answered(0, a, true)] + [Heard(b)], Answered(1, a, true));
  }

  lemma AskedTwice(decode: Decoder, a: Bytes) returns (s: seq<Action>, w: World)
    requires 0 < |a| <= MAX_FEED && |a| % 2 == 0
    ensures After(decode, s) == Some(w)
    ensures w == World(Turn(a, None, true, false), map[0 := a, 1 := a], None, [Started, Heard(a), Asked(0), Asked(1)])
    ensures Recorded(w.log) == Record(a, [], {0, 1}, false)
  {
    s, w := Begun(decode, a);
    hide After;
    s, w := Then(decode, s, w, CallProvisional(0));
    s, w := Then(decode, s, w, CallProvisional(1));
    assert w.pending == map[0 := a, 1 := a];
    hide Recorded;
    assert Recorded([]) == Record([], [], {}, false) by { NothingRecorded(); }
    RecordGrows([], Started);
    RecordGrows([Started], Heard(a));
    RecordGrows([Started, Heard(a)], Asked(0));
    RecordGrows([Started, Heard(a), Asked(0)], Asked(1));
    assert [] + [Started] == [Started] && [] + a == a;
  }

  lemma NothingRecorded()
    ensures Recorded([]) == Record([], [], {}, false)
  {
  }

  /** `audio` counts, and `text` is returned. */
  predicate EndsWith(decode: Decoder, schedule: seq<Action>, audio: Bytes, text: string) {
    var w := After(decode, schedule);
    w.Some? && Recorded(w.value.log).audio == audio && End(decode, w.value.turn, false).1 == Success(text)
  }

  lemma Straddles(decode: Decoder, a: Bytes, b: Bytes) returns (s: seq<Action>, w: World)
    requires |a| == |b| && 0 < |a| <= MAX_FEED && |a| % 2 == 0
    ensures After(decode, s) == Some(w)
    ensures w == World(Turn(b, None, true, false), map[0 := a], None, [Started, Heard(a), Asked(0), Started, Heard(b)])
    ensures Recorded(w.log).audio == b && Recorded(w.log).missing == []
  {
    s, w := Begun(decode, a);
    hide After;
    s, w := Then(decode, s, w, CallProvisional(0));
    s, w := Then(decode, s, w, CallStart);
    s, w := Then(decode, s, w, CallFeed(b));
    assert Whole(b) == b && [] + b == b;
    RecordGrows([Started, Heard(a), Asked(0), Started], Heard(b));
    RecordGrows([Started, Heard(a), Asked(0)], Started);
  }

  lemma Then(decode: Decoder, schedule: seq<Action>, w: World, a: Action)
    returns (longer: seq<Action>, w': World)
    requires After(decode, schedule) == Some(w) && Enabled(w, a)
    ensures longer == schedule + [a] && w' == Do(decode, w, a) && After(decode, longer) == Some(w')
  {
    longer, w' := schedule + [a], Do(decode, w, a);
    assert longer[..|schedule|] == schedule;
  }

  lemma Begun(decode: Decoder, a: Bytes) returns (s: seq<Action>, w: World)
    requires |a| <= MAX_FEED && |a| % 2 == 0
    ensures After(decode, s) == Some(w) && w == World(Turn(a, None, true, false), map[], None, [Started, Heard(a)])
  {
    s, w := [], Initial;
    assert After(decode, s) == Some(w);
    hide After;
    s, w := Then(decode, s, w, CallStart);
    s, w := Then(decode, s, w, CallFeed(a));
    assert Whole(a) == a;
    assert [] + a == a;
  }

  // ----- the object -----

  /** The engine's turn with no calls overlapping. */
  class Utterance {
    const decode: Decoder
    var pcm: Bytes
    var provisional: Option<Cached>
    var open: bool
    var closed: bool
    /** The audio that counts, as in `Record`. */
    ghost var heard: Bytes

    ghost predicate Valid()
      reads this
    {
      && pcm == heard && |heard| <= MAX_BUFFER
      && (provisional.Some? ==>
            && provisional.value.length <= |heard|
            && provisional.value.text == decode(heard[..provisional.value.length]))
    }

    ghost function Snapshot(): Turn
      reads this
    {
      Turn(pcm, provisional, open, closed)
    }

    constructor (decode: Decoder)
      ensures Valid() && Snapshot() == Fresh && heard == [] && this.decode == decode
    {
      this.decode := decode;
      pcm, provisional, open, closed, heard := [], None, false, false, [];
    }

    method ResetPcm()
      modifies this`pcm, this`provisional, this`heard
      ensures Valid() && heard == [] && Snapshot() == ResetTurn(old(Snapshot()))
    {
      pcm, provisional, heard := [], None, [];
    }

    /** Nothing of an earlier turn counts in this one. */
    method StartUtterance() returns (r: Result<(), Refusal>)
      requires Valid()
      modifies this
      ensures Valid() && closed == old(closed)
      ensures r == if closed then Failure(IsClosed) else Success(())
      ensures if r.Success? then open && heard == [] && provisional == None
              else Snapshot() == old(Snapshot()) && heard == old(heard)
    {
      if closed { return Failure(IsClosed); }
      ResetPcm();
      open := true;
      return Success(());
    }

    /** The whole samples of the frame count from now on, or it is refused and nothing
        changes; what was refused first is reported. */
    method FeedFrame(frame: Bytes) returns (r: Result<(), Refusal>)
      requires Valid()
      modifies this`pcm, this`heard
      ensures Valid()
      ensures r.Success? <==> !closed && open && |frame| <= MAX_FEED && |old(heard)| + |frame| - |frame| % 2 <= MAX_BUFFER
      ensures heard == if r.Success? then old(heard) + frame[..|frame| - |frame| % 2] else old(heard)
      ensures r == Failure(IsClosed) <==> closed
      ensures r == Failure(NotOpen) <==> !closed && !open
      ensures r == Failure(BufferFull) ==> |frame| <= MAX_FEED
    {
      if closed { return Failure(IsClosed); }
      if !open { return Failure(NotOpen); }
      if |frame| > MAX_FEED { return Failure(FrameTooLong); }
      var data := Whole(frame);
      if |pcm| + |data| > MAX_BUFFER { return Failure(BufferFull); }
      heard := heard + data;
      pcm := pcm + data;
      if provisional.Some? {
        assert heard[..provisional.value.length] == old(heard)[..provisional.value.length];
      }
      return Success(());
    }

    /** The text so far; audio without words does not count any more. */
    method Provisional(fails: bool) returns (r: Result<string, Refusal>)
      requires Valid()
      modifies this`pcm, this`provisional, this`heard
      ensures Valid()
      ensures r == if closed then Failure(IsClosed)
                   else if !open then Success("")
                   else if fails && old(heard) != [] then Failure(DecodeFailed)
                   else Success(TextOf(decode, old(heard)))
      ensures heard == if open && r == Success("") then [] else old(heard)
    {
      if closed { return Failure(IsClosed); }
      if !open || pcm == [] { return Success(""); }
      var taken := pcm;
      if fails { return Failure(DecodeFailed); }
      var text := decode(taken);
      if text != "" {
        provisional := Some(Cached(|taken|, text));
        assert heard[..|taken|] == taken;
      } else if |pcm| == |taken| {
        ResetPcm();
      }
      return Success(text);
    }

    /** The text of exactly the audio that counts, decoded again or not; the turn is over
        in every case. */
    method EndUtterance(fails: bool) returns (r: Result<string, Refusal>)
      requires Valid()
      modifies this
      ensures Valid() && closed == old(closed)
      ensures closed ==> r == Failure(IsClosed) && Snapshot() == old(Snapshot())
      ensures !closed ==> !open && (old(open) ==> heard == [])
      ensures !closed && !old(open) ==> r == Success("")
      ensures !closed && old(open) ==>
        r == Success(TextOf(decode, old(heard))) || (fails && r == Failure(DecodeFailed))
    {
      if closed { return Failure(IsClosed); }
      if !open { return Success(""); }
      open := false;
      var taken, cached := pcm, provisional;
      assert taken[..|taken|] == taken;
      ResetPcm();
      if taken == [] { return Success(""); }
      if cached != None && cached.value.length == |taken| { return Success(cached.value.text); }
      if fails { return Failure(DecodeFailed); }
      return Success(decode(taken));
    }
  }
}
