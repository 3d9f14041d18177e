/** What may be written under each settings key, what a read makes of it, and a whole
    `update` of the file's contents.

    `str.lower` is a parameter.
  */
module SettingsValues {
  import opened Basics
  import opened Text
  import opened Settings
  import opened SettingsUpdates

  datatype Key =
    | Speak | Dictate | TtsEngine | TtsVoice | TtsRate | TtsExtent | TtsMaxChars
    | SttEngine | SttModel | SttSubmit | SttMaxSeconds | SttSilenceMs | SttPunctuation
    | DeviceIn | DeviceOut | History

  function Name(k: Key): string {
    match k
    case Speak => "KILIX_CHROME_SPEAK"
    case Dictate => "KILIX_CHROME_DICTATE"
    case TtsEngine => "KILIX_VOICE_TTS_ENGINE"
    case TtsVoice => "KILIX_VOICE_TTS_VOICE"
    case TtsRate => "KILIX_VOICE_TTS_RATE"
    case TtsExtent => "KILIX_VOICE_TTS_EXTENT"
    case TtsMaxChars => "KILIX_VOICE_TTS_MAX_CHARS"
    case SttEngine => "KILIX_VOICE_STT_ENGINE"
    case SttModel => "KILIX_VOICE_STT_MODEL"
    case SttSubmit => "KILIX_VOICE_STT_SUBMIT"
    case SttMaxSeconds => "KILIX_VOICE_STT_MAX_SECONDS"
    case SttSilenceMs => "KILIX_VOICE_STT_SILENCE_MS"
    case SttPunctuation => "KILIX_VOICE_STT_PUNCTUATION"
    case DeviceIn => "KILIX_VOICE_DEVICE_IN"
    case DeviceOut => "KILIX_VOICE_DEVICE_OUT"
    case History => "KILIX_VOICE_HISTORY"
  }

  function Default(k: Key): string {
    match k
    case Speak => "1"
    case Dictate => "1"
    case TtsEngine => "espeak"
    case TtsVoice => "en-us"
    case TtsRate => "170"
    case TtsExtent => "screen"
    case TtsMaxChars => "4000"
    case SttEngine => "vosk"
    case SttModel => "small-en-us"
    case SttSubmit => "never"
    case SttMaxSeconds => "30"
    case SttSilenceMs => "900"
    case SttPunctuation => "1"
    case DeviceIn => "default"
    case DeviceOut => "default"
    case History => "off"
  }

  /** The vocabulary of a key; empty for a key without one. */
  function Choices(k: Key): seq<string> {
    match k
    case TtsEngine => ["espeak", "mbrola", "piper", "off"]
    case TtsRate => ["120", "150", "170", "200", "240"]
    case TtsExtent => ["screen", "scrollback", "selection"]
    case TtsMaxChars => ["1000", "4000", "16000", "unlimited"]
    case SttEngine => ["vosk", "vibevoice", "whisper", "whistle", "off"]
    case SttModel => ["small-en-us", "lgraph-en-us", "vibevoice-asr-bitnet", "whisper-small-en", "whistle"]
    case SttSubmit => ["never", "confirm"]
    case SttMaxSeconds => ["15", "30", "60", "120"]
    case SttSilenceMs => ["500", "900", "1500"]
    case History => ["off", "on"]
    case _ => []
  }

  predicate IsBool(k: Key) {
    k.Speak? || k.Dictate? || k.SttPunctuation?
  }

  const FALSE_WORDS := {"", "0", "no", "false", "off", "disabled"}

  predicate VoiceChar(c: char) {
    'A' <= c <= 'Z' || 'a' <= c <= 'z' || '0' <= c <= '9' || c == '_' || c == '+' || c == '-'
  }

  predicate DeviceChar(c: char) {
    VoiceChar(c) || c == '.' || c == ':'
  }

  /** The alphabets that hold free values; true for a key that has none. */
  predicate FitsPattern(k: Key, s: string) {
    match k
    case TtsVoice => 1 <= |s| <= 32 && forall i :: 0 <= i < |s| ==> VoiceChar(s[i])
    case DeviceIn => 1 <= |s| <= 128 && forall i :: 0 <= i < |s| ==> DeviceChar(s[i])
    case DeviceOut => 1 <= |s| <= 128 && forall i :: 0 <= i < |s| ==> DeviceChar(s[i])
    case _ => true
  }

  predicate Truthy(s: string, lower: string -> string) {
    lower(Strip(s)) !in FALSE_WORDS
  }

  /** `_rendered`: the form in which a value is written, or a refusal. */
  function Rendered(k: Key, raw: string, lower: string -> string): Result<string, ()> {
    var text := Strip(raw);
    if IsBool(k) then Success(if Truthy(raw, lower) then "1" else "0")
    else if Choices(k) != [] then
      if lower(text) in Choices(k) then Success(lower(text)) else Failure(())
    else if FitsPattern(k, text) then Success(text) else Failure(())
  }

  /** `value`: what a read makes of a document. */
  function Value(doc: Doc, k: Key, lower: string -> string): string {
    var raw := Strip(if Name(k) in doc then doc[Name(k)] else Default(k));
    if Choices(k) != [] then
      if lower(raw) in Choices(k) then lower(raw) else Default(k)
    else if FitsPattern(k, raw) then raw else Default(k)
  }

  // ----- what is rendered can be written and read back -----

  predicate Token(s: string) {
    s != [] && forall i :: 0 <= i < |s| ==> DeviceChar(s[i])
  }

  lemma TokenIsValid(s: string)
    requires Token(s)
    ensures ValidValue(s)
  {
    assert !IsSpace(s[0]) && !IsSpace(s[|s| - 1]);
  }

  lemma LongChoicesAreTokens()
    ensures Token("small-en-us") && Token("lgraph-en-us") && Token("vibevoice-asr-bitnet")
    ensures Token("whisper-small-en") && Token("whistle") && Token("vibevoice") && Token("whisper")
    ensures Token("scrollback") && Token("selection") && Token("unlimited") && Token("screen") && Token("confirm")
  {
  }

  lemma ChoicesAreTokens(k: Key)
    ensures forall i :: 0 <= i < |Choices(k)| ==> Token(Choices(k)[i])
  {
    LongChoicesAreTokens();
  }

  lemma SpeechNamesAreValid(k: Key)
    requires k.Speak? || k.Dictate? || k.TtsEngine? || k.TtsVoice? || k.TtsRate? || k.TtsExtent? || k.TtsMaxChars?
    ensures ValidKey(Name(k))
  {
  }

  lemma DictationNamesAreValid(k: Key)
    requires k.SttEngine? || k.SttModel? || k.SttSubmit? || k.SttMaxSeconds? || k.SttSilenceMs? || k.SttPunctuation?
    ensures ValidKey(Name(k))
  {
  }

  lemma NamesAreValid(k: Key)
    ensures ValidKey(Name(k))
  {
    if k.DeviceIn? || k.DeviceOut? || k.History? {
    } else {
      hide ValidKey, Name;
      if k.SttEngine? || k.SttModel? || k.SttSubmit? || k.SttMaxSeconds? || k.SttSilenceMs? || k.SttPunctuation? {
        DictationNamesAreValid(k);
      } else {
        SpeechNamesAreValid(k);
      }
    }
  }

  /** Whatever is accepted for writing survives on a line of its own. */
  lemma RenderedIsValid(k: Key, raw: string, lower: string -> string)
    ensures Rendered(k, raw, lower).Success? ==> ValidValue(Rendered(k, raw, lower).value)
  {
    var r := Rendered(k, raw, lower);
    if r.Success? {
      if Choices(k) != [] && !IsBool(k) {
        ChoicesAreTokens(k);
      }
      assert Token(r.value);
      hide Rendered, Choices, DeviceChar;
      TokenIsValid(r.value);
    }
  }

  /** Reading back what was written gives the written form. */
  lemma ValueOfRendered(doc: Doc, k: Key, raw: string, lower: string -> string)
    requires Rendered(k, raw, lower).Success? && lower(lower(Strip(raw))) == lower(Strip(raw))
    requires Name(k) in doc && doc[Name(k)] == Rendered(k, raw, lower).value
    ensures Value(doc, k, lower) == Rendered(k, raw, lower).value
  {
    hide Name, Default;
    RenderedIsValid(k, raw, lower);
  }

  /** A switch is written as 0 for the six false words, in any case and with white space
      around, and as 1 for everything else; what is written means what was asked. */
  lemma SwitchesKeepMeaning(doc: Doc, k: Key, raw: string, lower: string -> string)
    requires IsBool(k) && lower("0") == "0" && lower("1") == "1"
    requires Rendered(k, raw, lower).Success? && Name(k) in doc && doc[Name(k)] == Rendered(k, raw, lower).value
    ensures doc[Name(k)] == if lower(Strip(raw)) in {"", "0", "no", "false", "off", "disabled"} then "0" else "1"
    ensures Truthy(Value(doc, k, lower), lower) <==> Truthy(raw, lower)
  {
    hide Name, Default;
    assert Strip("0") == "0" && Strip("1") == "1";
  }

  lemma SwitchesAreAccepted(k: Key, raw: string, lower: string -> string)
    requires IsBool(k)
    ensures Rendered(k, raw, lower).Success?
  {
  }

  /** Writing refuses exactly what reading would take for the default, and accepts the
      rest as reading takes it. */
  lemma StrictWhereReadsAreLenient(doc: Doc, k: Key, raw: string, lower: string -> string)
    requires !IsBool(k) && Name(k) in doc && doc[Name(k)] == raw
    ensures match Rendered(k, raw, lower)
            case Success(v) => Value(doc, k, lower) == v
            case Failure(_) => Value(doc, k, lower) == Default(k) && Lowered(k, raw, lower) != Default(k)
  {
    hide Name;
    DefaultIsAccepted(k);
  }

  /** What a value comes to before it is judged. */
  function Lowered(k: Key, raw: string, lower: string -> string): string {
    if Choices(k) != [] then lower(Strip(raw)) else Strip(raw)
  }

  lemma DefaultIsAccepted(k: Key)
    requires !IsBool(k)
    ensures if Choices(k) != [] then Default(k) in Choices(k) else FitsPattern(k, Default(k))
  {
    if k.TtsEngine? || k.TtsRate? || k.TtsExtent? || k.TtsMaxChars? {
      assert Choices(k)[0] == Default(k) || Choices(k)[1] == Default(k) || Choices(k)[2] == Default(k);
    } else if Choices(k) != [] {
      assert Choices(k)[0] == Default(k) || Choices(k)[1] == Default(k);
    }
  }

  // ----- a whole update -----

  datatype Change = Change(k: Key, raw: string)

  function RenderAll(changes: seq<Change>, lower: string -> string): Result<seq<(string, string)>, ()> {
    if changes == [] then Success([])
    else
      match (Rendered(changes[0].k, changes[0].raw, lower), RenderAll(changes[1..], lower))
      case (Success(v), Success(rest)) => Success([(Name(changes[0].k), v)] + rest)
      case _ => Failure(())
  }

  /** The document created when there is no file. */
  function InitialText(): string {
    HEADER + "\n\n" + MARKER + "\n"
  }

  /** The text `update` starts from: the file's, as a text stream reads it. */
  function StartText(existing: Option<string>): string {
    if existing.Some? then Universal(existing.value) else InitialText()
  }

  /** The contents `update` writes, given the file's; a refusal writes nothing. */
  function Update(existing: Option<string>, changes: seq<Change>, lower: string -> string): Result<string, ()> {
    match RenderAll(changes, lower)
    case Failure(_) => Failure(())
    case Success(rendered) =>
      Success(SetAll(StartText(existing), rendered))
  }

  lemma {:induction false} RenderAllIsValid(changes: seq<Change>, lower: string -> string)
    ensures RenderAll(changes, lower).Success? <==>
              forall i :: 0 <= i < |changes| ==> Rendered(changes[i].k, changes[i].raw, lower).Success?
    ensures RenderAll(changes, lower).Success? ==>
              var r := RenderAll(changes, lower).value;
              && ValidChanges(r) && |r| == |changes|
              && forall i :: 0 <= i < |changes| ==>
                   r[i] == (Name(changes[i].k), Rendered(changes[i].k, changes[i].raw, lower).value)
  {
    hide Rendered, Name, ValidKey, ValidValue;
    if changes != [] {
      RenderAllIsValid(changes[1..], lower);
      NamesAreValid(changes[0].k);
      RenderedIsValid(changes[0].k, changes[0].raw, lower);
      if forall i :: 0 <= i < |changes| ==> Rendered(changes[i].k, changes[i].raw, lower).Success? {
        assert forall i :: 0 <= i < |changes[1..]| ==> changes[1..][i] == changes[i + 1];
      }
    }
  }

  lemma {:induction false} LastChangeWins(changes: seq<(string, string)>, i: nat)
    requires i < |changes| && forall j :: i < j < |changes| ==> changes[j].0 != changes[i].0
    ensures changes[i].0 in ChangesDoc(changes) && ChangesDoc(changes)[changes[i].0] == changes[i].1
  {
    if i == 0 {
      NotChanged(changes[1..], changes[0].0);
    } else {
      LastChangeWins(changes[1..], i - 1);
    }
  }

  lemma {:induction false} NotChanged(changes: seq<(string, string)>, key: string)
    requires forall j :: 0 <= j < |changes| ==> changes[j].0 != key
    ensures key !in ChangesDoc(changes)
  {
    if changes != [] {
      NotChanged(changes[1..], key);
    }
  }

  predicate NoBreaks(s: string) {
    forall i :: 0 <= i < |s| ==> !IsBreak(s[i])
  }

  lemma NoBreaksConcat(a: string, b: string)
    requires NoBreaks(a) && NoBreaks(b)
    ensures NoBreaks(a + b)
  {
  }

  /** A line that begins with `#` assigns nothing. */
  lemma CommentIsPlain(s: string)
    requires NoBreaks(s) && s != [] && s[0] == '#'
    ensures PlainLine(s) && Parse(s) == map[]
  {
    assert LStrip(s) == s && LineDoc(s) == map[];
    ParseOneLine(s);
  }

  lemma HeaderIsComment()
    ensures NoBreaks(HEADER) && HEADER != [] && HEADER[0] == '#'
  {
    var a, b, c, d := "# GPU Terminal ", "shared settings ", "(KEY=value; ", "not shell code).";
    assert a[0] == '#';
    assert NoBreaks(a) && NoBreaks(b) && NoBreaks(c) && NoBreaks(d);
    NoBreaksConcat(a, b);
    NoBreaksConcat(a + b, c);
    NoBreaksConcat(a + b + c, d);
    assert HEADER[0] == a[0];
  }

  lemma MarkerIsComment()
    ensures NoBreaks(MARKER) && MARKER != [] && MARKER[0] == '#'
  {
  }

  lemma TwoCommentsArePlain(head: string, marker: string)
    requires NoBreaks(head) && head != [] && head[0] == '#'
    requires NoBreaks(marker) && marker != [] && marker[0] == '#'
    ensures Plain(head + "\n\n" + marker + "\n") && Parse(head + "\n\n" + marker + "\n") == map[]
  {
    EmptyLineIsNothing();
    assert PlainLine([]);
    hide NoBreaks, Parse, PlainLine;
    CommentIsPlain(head);
    CommentIsPlain(marker);
    InitialShape(head, marker);
  }

  lemma InitialIsPlain()
    ensures Plain(InitialText()) && Parse(InitialText()) == map[]
  {
    HeaderIsComment();
    MarkerIsComment();
    TwoCommentsArePlain(HEADER, MARKER);
  }

  lemma InitialShape(head: string, marker: string)
    requires PlainLine(head) && PlainLine(marker)
    ensures Lines(head + "\n\n" + marker + "\n") == [head, [], marker, []]
    ensures Parse(head) == map[] && Parse(marker) == map[] ==> Parse(head + "\n\n" + marker + "\n") == map[]
  {
    PiecesWhole(head, IsNewline);
    PiecesWhole(marker, IsNewline);
    SectionLines(head, marker);
    var t := head + "\n\n" + marker;
    LinesAppend(t, []);
    assert t + "\n" + [] == t + "\n";
    assert Lines([]) == [[]];
    ParseEmpty();
    hide Parse;
    ParseConcat(t, []);
    if Parse(marker) == map[] {
      ParseSection(head, marker);
    }
  }

  /** An update of an absent or plain file is refused exactly when one of its values
      is; otherwise the new contents parse to the old settings with exactly the
      changed keys set to their rendered values. */
  lemma UpdateIsExact(existing: Option<string>, changes: seq<Change>, lower: string -> string)
    requires existing.Some? ==> Plain(Universal(existing.value))
    ensures Update(existing, changes, lower).Success? <==>
              forall i :: 0 <= i < |changes| ==> Rendered(changes[i].k, changes[i].raw, lower).Success?
    ensures Update(existing, changes, lower).Success? ==>
              var text := Update(existing, changes, lower).value;
              && Plain(text)
              && Parse(text) == Parse(StartText(existing)) + ChangesDoc(RenderAll(changes, lower).value)
  {
    RenderAllIsValid(changes, lower);
    if Update(existing, changes, lower).Success? {
      InitialIsPlain();
      hide Rendered, Plain, Parse, InitialText, ValidChanges, RenderAll, SetAll;
      SetAllIsExact(StartText(existing), RenderAll(changes, lower).value);
    }
  }

  /** Every key's last change reads back, validated, as it was rendered. */
  lemma UpdateReadsBack(existing: Option<string>, changes: seq<Change>, lower: string -> string, i: nat)
    requires existing.Some? ==> Plain(Universal(existing.value))
    requires Update(existing, changes, lower).Success?
    requires i < |changes| && forall j :: i < j < |changes| ==> Name(changes[j].k) != Name(changes[i].k)
    requires lower(lower(Strip(changes[i].raw))) == lower(Strip(changes[i].raw))
    ensures Rendered(changes[i].k, changes[i].raw, lower).Success?
    ensures Value(Parse(Update(existing, changes, lower).value), changes[i].k, lower) ==
            Rendered(changes[i].k, changes[i].raw, lower).value
  {
    RenderAllIsValid(changes, lower);
    UpdateIsExact(existing, changes, lower);
    hide Rendered, Name, Plain, Parse, Value, Update, RenderAll;
    LastChangeWins(RenderAll(changes, lower).value, i);
    ValueOfRendered(Parse(Update(existing, changes, lower).value), changes[i].k, changes[i].raw, lower);
  }

  /** The settings an update starts from are the file's, carriage returns or not. */
  lemma StartsFromTheFile(raw: string)
    ensures Parse(StartText(Some(raw))) == Parse(raw)
  {
    ReadingKeepsSettings(raw);
  }

  /** For every file, plain or not: one change takes effect exactly if and only if the
      text that was read was safe to edit. */
  lemma UpdateOneIsExact(raw: string, change: Change, lower: string -> string)
    requires Rendered(change.k, change.raw, lower).Success?
    ensures var key, v := Name(change.k), Rendered(change.k, change.raw, lower).value;
      var r := Update(Some(raw), [change], lower);
      r.Success? && (Parse(r.value) == Parse(raw)[key := v] <==> SafeToSet(Universal(raw), key, v))
  {
    hide Rendered, Name, SafeToSet, Parse, SetValue, Universal;
    RenderOne(change, lower);
    NamesAreValid(change.k);
    RenderedIsValid(change.k, change.raw, lower);
    StartsFromTheFile(raw);
    SetValueIsExact(Universal(raw), Name(change.k), Rendered(change.k, change.raw, lower).value);
  }

  /** For every file, plain or not, and any mapping of changes: an update is refused exactly
      when one of its values is; otherwise the new contents parse to the old settings with
      exactly the changed keys set if and only if the text that was read was safe to edit. */
  lemma UpdateIsExactIff(existing: Option<string>, changes: seq<Change>, lower: string -> string)
    requires forall i, j :: 0 <= i < j < |changes| ==> Name(changes[i].k) != Name(changes[j].k)
    ensures Update(existing, changes, lower).Success? <==>
              forall i :: 0 <= i < |changes| ==> Rendered(changes[i].k, changes[i].raw, lower).Success?
    ensures Update(existing, changes, lower).Success? ==>
              var r := RenderAll(changes, lower).value;
              Parse(Update(existing, changes, lower).value) == Parse(StartText(existing)) + ChangesDoc(r) <==>
              SafeToSetAll(StartText(existing), r)
    ensures existing.Some? ==> Parse(StartText(existing)) == Parse(existing.value)
  {
    RenderAllIsValid(changes, lower);
    if existing.Some? { StartsFromTheFile(existing.value); }
    hide Rendered, Name, Parse, StartText, SafeToSetAll, SetAll, ValidChanges;
    if RenderAll(changes, lower).Success? { SetAllIsExactIff(StartText(existing), RenderAll(changes, lower).value); }
  }

  lemma RenderOne(change: Change, lower: string -> string)
    requires Rendered(change.k, change.raw, lower).Success?
    ensures var v := Rendered(change.k, change.raw, lower).value;
      && RenderAll([change], lower) == Success([(Name(change.k), v)])
      && forall text :: SetAll(text, [(Name(change.k), v)]) == SetValue(text, Name(change.k), v)
  {
    hide Rendered, Name, SetValue;
    assert [change][1..] == [];
    assert RenderAll([], lower) == Success([]);
    var v := Rendered(change.k, change.raw, lower).value;
    assert [(Name(change.k), v)] + [] == [(Name(change.k), v)];
    assert [(Name(change.k), v)][1..] == [];
  }

  /** For every file: the lines no changed key owns come out verbatim and in order, as the
      text stream read them; no carriage return is left. */
  lemma UpdateKeepsForeign(raw: string, changes: seq<Change>, lower: string -> string, keys: set<string>)
    requires Update(Some(raw), changes, lower).Success?
    requires forall i :: 0 <= i < |changes| ==> Name(changes[i].k) in keys
    ensures Foreign(Lines(Update(Some(raw), changes, lower).value), keys) == Foreign(Lines(Universal(raw)), keys)
  {
    hide Rendered, Name, Universal, Lines, Foreign, ValidChanges, SetAll;
    RenderAllIsValid(changes, lower);
    SetAllKeepsForeign(Universal(raw), RenderAll(changes, lower).value, keys);
  }

  /** A document with carriage returns is updated as the same lines with newlines are: the
      foreign lines survive, their carriage returns do not. */
  lemma CrlfDocumentsAreRewritten(lines: seq<string>, changes: seq<Change>, lower: string -> string)
    requires |lines| > 0 && forall i :: 0 <= i < |lines| ==> NoReturn(lines[i])
    ensures Update(Some(JoinCrlf(lines)), changes, lower) == Update(Some(Join(lines)), changes, lower)
  {
    CrlfIsTranslated(lines);
    UniversalHasNoReturn(JoinCrlf(lines));
    NoReturnStays(Join(lines));
  }

  /** A foreign setting behind any break that reading leaves alone is lost to an update of
      the key before it. */
  lemma UpdateLosesASetting(change: Change, lower: string -> string, old0: string, other: string, w: string, c: char)
    requires Rendered(change.k, change.raw, lower).Success?
    requires ValidKey(other) && other != Name(change.k) && ValidValue(old0) && ValidValue(w)
    requires IsBreak(c) && c != '\n' && c != '\r'
    ensures var raw := Line(Name(change.k), old0) + [c] + Line(other, w);
      var v := Rendered(change.k, change.raw, lower).value;
      && Parse(raw) == map[Name(change.k) := old0] + map[other := w]
      && Update(Some(raw), [change], lower).Success?
      && Parse(Update(Some(raw), [change], lower).value) == map[Name(change.k) := v]
  {
    hide Rendered, Name, Parse, SetValue, Universal, ValidKey, ValidValue, Line, SafeToSet, IsBreak;
    RenderOne(change, lower);
    NamesAreValid(change.k);
    RenderedIsValid(change.k, change.raw, lower);
    OtherBreakLosesASetting(Name(change.k), old0, other, w, Rendered(change.k, change.raw, lower).value, c);
  }
}
