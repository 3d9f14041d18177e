/** The voice activity detector: a machine clocked by frames.  A frame is its level, a
    real number; how `rms16` gets it from the samples is not part of this model.
  */
module Vad {
  import opened Basics

  datatype Config = Config(
    startFrames: nat,
    suppressedStartFrames: nat,
    endFrames: nat,
    windowFrames: nat,
    margin: real,
    minRms: real,
    fall: real,
    rise: real)

  /** Every frame count is at least one. */
  predicate Counted(g: Config) {
    g.startFrames > 0 && g.suppressedStartFrames > 0 && g.endFrames > 0 && g.windowFrames > 0
  }

  datatype Phase = Silence | Maybe | Speech

  datatype Event = HeardSilence | HeardMaybe | SpeechStart | HeardSpeech | SpeechEnd

  datatype Detector = Detector(phase: Phase, run: nat, quiet: nat, suppressed: bool, floor: real, window: seq<real>)

  function New(g: Config): Detector {
    Detector(Silence, 0, 0, false, g.minRms, [])
  }

  function Max(a: real, b: real): real {
    if a < b then b else a
  }

  function Least(w: seq<real>): real
    requires w != []
  {
    if |w| == 1 then w[0]
    else
      var m := Least(w[..|w| - 1]);
      if w[|w| - 1] < m then w[|w| - 1] else m
  }

  function Threshold(g: Config, d: Detector): real {
    Max(g.minRms, d.floor * g.margin)
  }

  function Need(g: Config, d: Detector): nat {
    if d.suppressed then g.suppressedStartFrames else g.startFrames
  }

  function Reset(d: Detector): Detector {
    d.(phase := Silence, run := 0, quiet := 0)
  }

  /** A deque of bounded length: the oldest level falls out. */
  function Pushed(g: Config, w: seq<real>, level: real): seq<real>
    requires Counted(g)
  {
    if |w| < g.windowFrames then w + [level] else w[|w| - g.windowFrames + 1..] + [level]
  }

  /** The new floor: towards a quieter target at once, towards a louder one only with a
      full window. */
  function Moved(g: Config, floor: real, target: real, full: bool): real {
    if target < floor then floor + g.fall * (target - floor)
    else if full then floor + g.rise * (target - floor)
    else floor
  }

  function Adapted(g: Config, d: Detector, level: real): Detector
    requires Counted(g)
  {
    var window := Pushed(g, d.window, level);
    var target := Least(window);
    d.(window := window,
       floor := Moved(g, d.floor, target, |window| == g.windowFrames))
  }

  function Heard(g: Config, d: Detector, loud: bool): (Detector, Event) {
    if d.phase == Speech then
      if loud then (d.(quiet := 0), HeardSpeech)
      else if d.quiet + 1 >= g.endFrames then (Reset(d), SpeechEnd)
      else (d.(quiet := d.quiet + 1), HeardSpeech)
    else if loud then
      if d.run + 1 >= Need(g, d) then (d.(phase := Speech, run := 0, quiet := 0), SpeechStart)
      else (d.(phase := Maybe, run := d.run + 1), HeardMaybe)
    else
      (d.(phase := Silence, run := 0), HeardSilence)
  }

  /** `feed`: the threshold is read before the floor adapts. */
  function Fed(g: Config, d: Detector, level: real): (Detector, Event)
    requires Counted(g)
  {
    Heard(g, Adapted(g, d, level), level > Threshold(g, d))
  }

  // ----- runs, and the log they leave -----

  datatype Input = Frame(level: real) | Suppress(on: bool) | Restart

  /** One line of the log; `need` is the sustain count in force. */
  datatype Line = Fired(loud: bool, need: nat, event: Event) | Restarted

  datatype Run = Run(d: Detector, log: seq<Line>, levels: seq<real>)

  function Step(g: Config, r: Run, i: Input): Run
    requires Counted(g)
  {
    match i
    case Suppress(on) => r.(d := r.d.(suppressed := on))
    case Restart => r.(d := Reset(r.d), log := r.log + [Restarted])
    case Frame(level) =>
      var (d, event) := Fed(g, r.d, level);
      Run(d, r.log + [Fired(level > Threshold(g, r.d), Need(g, r.d), event)], r.levels + [level])
  }

  function After(g: Config, inputs: seq<Input>): Run
    requires Counted(g)
    decreases |inputs|
  {
    if inputs == [] then Run(New(g), [], [])
    else Step(g, After(g, inputs[..|inputs| - 1]), inputs[|inputs| - 1])
  }

  // ----- what the log says, without the detector's counters -----

  /** Speech was started and neither ended nor cut off since. */
  function InSpeech(log: seq<Line>): bool {
    if log == [] then false
    else
      var last := log[|log| - 1];
      last.Fired? && (last.event.SpeechStart? || (!last.event.SpeechEnd? && InSpeech(log[..|log| - 1])))
  }

  /** Consecutive loud frames at the end of the log, back to the last start, end or
      restart. */
  function LoudRun(log: seq<Line>): nat {
    if log == [] then 0
    else
      var last := log[|log| - 1];
      if last.Fired? && last.loud && !last.event.SpeechStart? && !last.event.SpeechEnd? then 1 + LoudRun(log[..|log| - 1])
      else 0
  }

  /** Consecutive quiet frames at the end of the log. */
  function QuietRun(log: seq<Line>): nat {
    if log == [] then 0
    else
      var last := log[|log| - 1];
      if last.Fired? && !last.loud then 1 + QuietRun(log[..|log| - 1]) else 0
  }

  /** What the event of a frame must be, by the log before it. */
  function Expected(g: Config, before: seq<Line>, loud: bool, need: nat): Event {
    if InSpeech(before) then
      if !loud && QuietRun(before) + 1 == g.endFrames then SpeechEnd else HeardSpeech
    else if loud then
      if LoudRun(before) + 1 >= need then SpeechStart else HeardMaybe
    else HeardSilence
  }

  predicate Explained(g: Config, log: seq<Line>) {
    forall k :: 0 <= k < |log| && log[k].Fired? ==>
      log[k].event == Expected(g, log[..k], log[k].loud, log[k].need)
  }

  predicate Counts(g: Config, r: Run) {
    && (r.d.phase == Speech <==> InSpeech(r.log))
    && (if InSpeech(r.log) then r.d.quiet == QuietRun(r.log) < g.endFrames && r.d.run == 0
        else r.d.run == LoudRun(r.log))
  }

  lemma Grown(log: seq<Line>, x: Line)
    ensures (log + [x])[..|log|] == log
    ensures InSpeech(log + [x]) == (x.Fired? && (x.event.SpeechStart? || (!x.event.SpeechEnd? && InSpeech(log))))
    ensures QuietRun(log + [x]) == if x.Fired? && !x.loud then 1 + QuietRun(log) else 0
  {
    assert (log + [x])[..|log|] == log;
  }

  lemma GrownLoud(log: seq<Line>, x: Line)
    ensures LoudRun(log + [x]) ==
      if x.Fired? && x.loud && !x.event.SpeechStart? && !x.event.SpeechEnd? then 1 + LoudRun(log) else 0
  {
    assert (log + [x])[..|log|] == log;
  }

  lemma AdaptedKeeps(g: Config, d: Detector, level: real)
    requires Counted(g)
    ensures var a := Adapted(g, d, level); a == d.(floor := a.floor, window := Pushed(g, d.window, level))
  {
  }

  lemma StepCounts(g: Config, r: Run, i: Input)
    requires Counted(g) && Counts(g, r)
    ensures Counts(g, Step(g, r, i))
    ensures i.Frame? ==>
      Fed(g, r.d, i.level).1 == Expected(g, r.log, i.level > Threshold(g, r.d), Need(g, r.d))
  {
    hide Threshold, Adapted, Pushed, InSpeech, LoudRun, QuietRun;
    var r' := Step(g, r, i);
    if i.Frame? { AdaptedKeeps(g, r.d, i.level); }
    if !i.Suppress? {
      var x := r'.log[|r.log|];
      assert r'.log == r.log + [x];
      Grown(r.log, x);
      GrownLoud(r.log, x);
    }
  }

  lemma {:induction false} RunCounts(g: Config, inputs: seq<Input>)
    requires Counted(g)
    ensures Counts(g, After(g, inputs)) && Explained(g, After(g, inputs).log)
    decreases |inputs|
  {
    if inputs != [] {
      var last := |inputs| - 1;
      var r, i := After(g, inputs[..last]), inputs[last];
      RunCounts(g, inputs[..last]);
      StepCounts(g, r, i);
      ExplainedStep(g, r, i);
    }
  }

  lemma ExplainedStep(g: Config, r: Run, i: Input)
    requires Counted(g) && Counts(g, r) && Explained(g, r.log)
    ensures Explained(g, Step(g, r, i).log)
  {
    hide Expected, Counts, Fed, Threshold, Need;
    StepCounts(g, r, i);
    var log' := Step(g, r, i).log;
    forall k | 0 <= k < |log'| && log'[k].Fired?
      ensures log'[k].event == Expected(g, log'[..k], log'[k].loud, log'[k].need)
    {
      if k < |r.log| { assert log'[..k] == r.log[..k]; } else { assert log'[..k] == r.log; }
    }
  }

  /** In every run, whatever was suppressed or reset in between: speech starts at a frame
      exactly when the loud frames in a row reach the sustain count then in force, and
      ends exactly at the `endFrames`-th quiet frame in a row. */
  lemma EventsAreExact(g: Config, inputs: seq<Input>, k: nat)
    requires Counted(g) && k < |After(g, inputs).log| && After(g, inputs).log[k].Fired?
    ensures var log := After(g, inputs).log; var before, x := log[..k], log[k];
      && (x.event.SpeechStart? <==> !InSpeech(before) && x.loud && LoudRun(before) + 1 >= x.need)
      && (x.event.SpeechEnd? <==> InSpeech(before) && !x.loud && QuietRun(before) + 1 == g.endFrames)
      && (x.event.HeardSpeech? <==> InSpeech(before) && !x.event.SpeechEnd?)
      && (x.event.HeardMaybe? <==> !InSpeech(before) && x.loud && LoudRun(before) + 1 < x.need)
  {
    hide InSpeech, LoudRun, QuietRun, Counts;
    RunCounts(g, inputs);
  }

  // ----- what is loud -----

  /** A frame counts as loud when its level is above the least level of the configuration
      and above the margin over the floor that the frames before it left. */
  lemma LoudIsOverBoth(g: Config, r: Run, level: real)
    requires Counted(g)
    ensures var log := Step(g, r, Frame(level)).log;
      && |log| == |r.log| + 1 && log[|r.log|].Fired?
      && (log[|r.log|].loud <==> level > g.minRms && level > r.d.floor * g.margin)
  {
    hide Adapted, Heard;
  }

  predicate Whispered(g: Config, i: Input) {
    i.Frame? ==> i.level <= g.minRms
  }

  predicate OnlySilence(log: seq<Line>) {
    forall k :: 0 <= k < |log| && log[k].Fired? ==> log[k].event == HeardSilence
  }

  lemma WhisperIsSilence(g: Config, r: Run, i: Input)
    requires Counted(g) && Whispered(g, i) && r.d.phase == Silence && OnlySilence(r.log)
    ensures Step(g, r, i).d.phase == Silence && OnlySilence(Step(g, r, i).log)
  {
    if i.Frame? {
      LoudIsOverBoth(g, r, i.level);
      AdaptedKeeps(g, r.d, i.level);
      hide Adapted, Threshold, Pushed;
    }
  }

  /** However low the floor has sunk, nothing at or below the least level is ever taken for
      speech. */
  lemma {:induction false} WhispersAreSilence(g: Config, inputs: seq<Input>)
    requires Counted(g) && forall i :: 0 <= i < |inputs| ==> Whispered(g, inputs[i])
    ensures After(g, inputs).d.phase == Silence && OnlySilence(After(g, inputs).log)
    decreases |inputs|
  {
    if inputs != [] {
      var last := |inputs| - 1;
      hide Step, OnlySilence, Whispered;
      WhispersAreSilence(g, inputs[..last]);
      WhisperIsSilence(g, After(g, inputs[..last]), inputs[last]);
    }
  }

  // ----- the grammar of events -----

  /** (silence | maybe)* start speech* end, repeated, and cut off anywhere. */
  predicate Grammar(events: seq<Event>) {
    if events == [] then true
    else if events[0].HeardSilence? || events[0].HeardMaybe? then Grammar(events[1..])
    else events[0].SpeechStart? && Talking(events[1..])
  }

  predicate Talking(events: seq<Event>) {
    if events == [] then true
    else if events[0].HeardSpeech? then Talking(events[1..])
    else events[0].SpeechEnd? && Grammar(events[1..])
  }

  /** Whether a sequence of the grammar breaks off inside speech. */
  predicate BreaksOffTalking(events: seq<Event>) {
    events != [] &&
    (events[|events| - 1].SpeechStart? || events[|events| - 1].HeardSpeech?)
  }

  lemma {:induction false} GrammarGrows(events: seq<Event>, e: Event)
    ensures Grammar(events) && Fits(BreaksOffTalking(events), e) ==> Grammar(events + [e])
    ensures Talking(events) && Fits(events == [] || BreaksOffTalking(events), e) ==> Talking(events + [e])
    decreases |events|
  {
    if events == [] {
      assert events + [e] == [e] && [e][1..] == [];
    } else {
      var rest := events[1..];
      assert (events + [e])[1..] == rest + [e] && (events + [e])[0] == events[0];
      GrammarGrows(rest, e);
      assert rest != [] ==> rest[|rest| - 1] == events[|events| - 1];
    }
  }

  /** The events that may come next. */
  predicate Fits(talking: bool, e: Event) {
    if talking then e.HeardSpeech? || e.SpeechEnd? else e.HeardSilence? || e.HeardMaybe? || e.SpeechStart?
  }

  function EventsOf(log: seq<Line>): seq<Event> {
    if log == [] then []
    else EventsOf(log[..|log| - 1]) + if log[|log| - 1].Fired? then [log[|log| - 1].event] else []
  }

  lemma EventFits(g: Config, r: Run, i: Input)
    requires Counted(g) && Counts(g, r) && i.Frame?
    ensures Fits(InSpeech(r.log), Fed(g, r.d, i.level).1)
    ensures Step(g, r, i).log ==
      r.log + [Fired(i.level > Threshold(g, r.d), Need(g, r.d), Fed(g, r.d, i.level).1)]
  {
    hide InSpeech, LoudRun, QuietRun, Adapted, Threshold;
    StepCounts(g, r, i);
  }

  /** Without a reset the events follow the grammar, however suppression is switched in
      between. */
  lemma {:induction false} EventsFollowGrammar(g: Config, inputs: seq<Input>)
    requires Counted(g) && forall i :: 0 <= i < |inputs| ==> !inputs[i].Restart?
    ensures var log := After(g, inputs).log;
      && Grammar(EventsOf(log)) && (InSpeech(log) <==> BreaksOffTalking(EventsOf(log)))
    decreases |inputs|
  {
    if inputs != [] {
      var before, i := inputs[..|inputs| - 1], inputs[|inputs| - 1];
      var r := After(g, before);
      EventsFollowGrammar(g, before);
      RunCounts(g, before);
      if i.Frame? {
        EventFits(g, r, i);
        var log := Step(g, r, i).log;
        hide Step, Counts, Fed;
        var x := log[|r.log|];
        Grown(r.log, x);
        GrammarGrows(EventsOf(r.log), x.event);
        assert log[..|r.log|] == r.log;
      }
    }
  }

  // ----- the noise floor -----

  /** The last `windowFrames` levels. */
  function Recent(g: Config, levels: seq<real>): seq<real>
  {
    if |levels| <= g.windowFrames then levels else levels[|levels| - g.windowFrames..]
  }

  lemma WindowStep(g: Config, levels: seq<real>, level: real)
    requires Counted(g)
    ensures Pushed(g, Recent(g, levels), level) == Recent(g, levels + [level])
  {
  }

  lemma SomethingRecent(g: Config, levels: seq<real>, level: real)
    requires Counted(g)
    ensures Recent(g, levels + [level]) != []
  {
  }

  lemma StepKeepsWindow(g: Config, r: Run, i: Input)
    requires Counted(g) && r.d.window == Recent(g, r.levels)
    ensures Step(g, r, i).d.window == Recent(g, Step(g, r, i).levels)
  {
    hide Threshold, Adapted, Recent, Pushed;
    if i.Frame? {
      WindowStep(g, r.levels, i.level);
      AdaptedKeeps(g, r.d, i.level);
    }
  }

  lemma {:induction false} WindowIsRecent(g: Config, inputs: seq<Input>)
    requires Counted(g)
    ensures var r := After(g, inputs); r.d.window == Recent(g, r.levels)
    decreases |inputs|
  {
    if inputs != [] {
      hide Step;
      WindowIsRecent(g, inputs[..|inputs| - 1]);
      StepKeepsWindow(g, After(g, inputs[..|inputs| - 1]), inputs[|inputs| - 1]);
    }
  }

  lemma {:induction false} LeastIsLeast(w: seq<real>)
    requires w != []
    ensures Least(w) in w && forall x :: x in w ==> Least(w) <= x
    decreases |w|
  {
    if |w| > 1 {
      LeastIsLeast(w[..|w| - 1]);
      assert w == w[..|w| - 1] + [w[|w| - 1]];
    }
  }

  predicate Rates(g: Config) {
    0.0 <= g.fall <= 1.0 && 0.0 <= g.rise <= 1.0
  }

  /** Moving part of the way leaves a number between where it was and the target. */
  lemma Between(a: real, b: real, rate: real) returns (c: real)
    requires 0.0 <= rate <= 1.0
    ensures c == a + rate * (b - a)
    ensures a <= b ==> a <= c <= b
    ensures b <= a ==> b <= c <= a
  {
    c := a + rate * (b - a);
    var part := if a <= b then Share(rate, b - a) else Share(rate, a - b);
    assert c == if a <= b then a + part else a - part;
  }

  function Share(rate: real, x: real): (part: real)
    requires 0.0 <= rate <= 1.0 && x >= 0.0
    ensures 0.0 <= part <= x && part == rate * x
  {
    var part := rate * x;
    assert 0.0 <= part && part <= 1.0 * x;
    part
  }

  function Window(g: Config, levels: seq<real>, n: nat): seq<real>
    requires g.windowFrames <= n <= |levels|
  {
    levels[n - g.windowFrames..n]
  }

  /** No full window so far was louder than `bound` throughout. */
  predicate WindowsReach(g: Config, levels: seq<real>, bound: real)
    requires Counted(g)
  {
    forall n: nat | g.windowFrames <= n <= |levels| :: Least(Window(g, levels, n)) <= bound
  }

  predicate AllAtLeast(levels: seq<real>, bound: real) {
    forall x :: x in levels ==> bound <= x
  }

  lemma ReachEarlier(g: Config, levels: seq<real>, level: real, bound: real)
    requires Counted(g) && WindowsReach(g, levels + [level], bound)
    ensures WindowsReach(g, levels, bound)
    ensures |levels| + 1 >= g.windowFrames ==> Least(Recent(g, levels + [level])) <= bound
  {
    forall n: nat | g.windowFrames <= n <= |levels|
      ensures Least(Window(g, levels, n)) <= bound
    {
      assert Window(g, levels, n) == Window(g, levels + [level], n);
    }
    if |levels| + 1 >= g.windowFrames {
      assert Recent(g, levels + [level]) == Window(g, levels + [level], |levels| + 1);
    }
  }

  lemma FloorStep(g: Config, d: Detector, level: real, low: real, high: real)
    requires Counted(g) && Rates(g) && low <= d.floor <= high
    requires |Pushed(g, d.window, level)| == g.windowFrames ==> Least(Pushed(g, d.window, level)) <= high
    requires low <= Least(Pushed(g, d.window, level))
    ensures low <= Adapted(g, d, level).floor <= high
  {
    var target := Least(Pushed(g, d.window, level));
    var fallen := Between(d.floor, target, g.fall);
    var risen := Between(d.floor, target, g.rise);
  }

  /** How one frame may move the floor. */
  predicate Settles(g: Config, d: Detector, a: Detector, levels: seq<real>) {
    && a.window == Recent(g, levels) && a.window != []
    && (Rates(g) ==> d.floor <= a.floor <= Least(a.window) || Least(a.window) <= a.floor <= d.floor)
    && (Rates(g) && a.floor > d.floor ==> |a.window| == g.windowFrames)
    && (Rates(g) && g.fall > 0.0 && Least(a.window) < d.floor ==> a.floor < d.floor)
  }

  lemma AdaptedSettles(g: Config, d: Detector, levels: seq<real>, level: real)
    requires Counted(g) && d.window == Recent(g, levels)
    ensures Settles(g, d, Adapted(g, d, level), levels + [level])
  {
    var w := Pushed(g, d.window, level);
    assert w != [];
    hide Recent, Pushed, Least, Moved;
    WindowStep(g, levels, level);
    MovedSettles(g, d.floor, Least(w), |w| == g.windowFrames);
  }

  lemma MovedSettles(g: Config, floor: real, target: real, full: bool)
    ensures var f := Moved(g, floor, target, full);
      && (Rates(g) ==> floor <= f <= target || target <= f <= floor)
      && (Rates(g) && f > floor ==> full)
      && (Rates(g) && g.fall > 0.0 && target < floor ==> f < floor)
  {
    if Rates(g) {
      var fallen := Between(floor, target, g.fall);
      var risen := Between(floor, target, g.rise);
      if g.fall > 0.0 && target < floor { var lower := Falls(g.fall, floor, target); }
    }
  }

  lemma Falls(rate: real, floor: real, target: real) returns (lower: real)
    requires rate > 0.0 && target < floor
    ensures lower == floor + rate * (target - floor) && lower < floor
  {
    lower := floor + rate * (target - floor);
    var part := rate * (floor - target);
    assert part > 0.0;
    assert lower == floor - part;
  }

  lemma FrameKeepsFloor(g: Config, r: Run, level: real, low: real, high: real)
    requires Counted(g) && Rates(g) && r.d.window == Recent(g, r.levels)
    requires WindowsReach(g, r.levels + [level], high) && AllAtLeast(r.levels + [level], low)
    requires low <= r.d.floor <= high
    ensures low <= Adapted(g, r.d, level).floor <= high
  {
    var w := Recent(g, r.levels + [level]);
    WindowStep(g, r.levels, level);
    ReachEarlier(g, r.levels, level, high);
    LeastIsLeast(w);
    assert forall x :: x in w ==> x in r.levels + [level];
    FloorStep(g, r.d, level, low, high);
  }

  lemma ReachBefore(g: Config, r: Run, i: Input, low: real, high: real)
    requires Counted(g)
    requires WindowsReach(g, Step(g, r, i).levels, high) && AllAtLeast(Step(g, r, i).levels, low)
    ensures WindowsReach(g, r.levels, high) && AllAtLeast(r.levels, low)
  {
    hide Adapted, Threshold, Recent, WindowsReach;
    if i.Frame? {
      ReachEarlier(g, r.levels, i.level, high);
      assert forall x :: x in r.levels ==> x in r.levels + [i.level];
    }
  }

  lemma StepKeepsFloor(g: Config, r: Run, i: Input, low: real, high: real)
    requires Counted(g) && Rates(g) && r.d.window == Recent(g, r.levels)
    requires WindowsReach(g, Step(g, r, i).levels, high) && AllAtLeast(Step(g, r, i).levels, low)
    requires low <= r.d.floor <= high
    ensures low <= Step(g, r, i).d.floor <= high
  {
    hide Adapted, Threshold, Recent, WindowsReach, AllAtLeast;
    if i.Frame? { FrameKeepsFloor(g, r, i.level, low, high); }
  }

  /** The floor never climbs over both its start and the quietest frame of every full
      window, so speech with gaps cannot push it up; and it never sinks under its start
      and every level heard. */
  lemma {:induction false} FloorIsBounded(g: Config, inputs: seq<Input>, low: real, high: real)
    requires Counted(g) && Rates(g) && low <= g.minRms <= high
    requires WindowsReach(g, After(g, inputs).levels, high) && AllAtLeast(After(g, inputs).levels, low)
    ensures low <= After(g, inputs).d.floor <= high
    decreases |inputs|
  {
    if inputs != [] {
      hide Step, Recent, WindowsReach, AllAtLeast;
      var before, i := inputs[..|inputs| - 1], inputs[|inputs| - 1];
      ReachBefore(g, After(g, before), i, low, high);
      FloorIsBounded(g, before, low, high);
      WindowIsRecent(g, before);
      StepKeepsFloor(g, After(g, before), i, low, high);
    }
  }

  // ----- a steady noise is learned -----

  /** The detector after `n` more frames of one level. */
  function Steady(g: Config, d: Detector, level: real, n: nat): Detector
    requires Counted(g)
  {
    if n == 0 then d else Fed(g, Steady(g, d, level, n - 1), level).0
  }

  /** The window holds `level` in its last `n` places at least, or throughout. */
  predicate EndsWith(g: Config, w: seq<real>, level: real, n: nat) {
    && |w| <= g.windowFrames
    && (n <= |w| || |w| == g.windowFrames)
    && (forall k :: 0 <= k < |w| && |w| - n <= k ==> w[k] == level)
  }

  lemma PushEnds(g: Config, w: seq<real>, level: real, n: nat)
    requires Counted(g) && EndsWith(g, w, level, n)
    ensures EndsWith(g, Pushed(g, w, level), level, n + 1)
  {
  }

  lemma {:induction false} WindowFills(g: Config, d: Detector, level: real, n: nat)
    requires Counted(g) && |d.window| <= g.windowFrames
    ensures EndsWith(g, Steady(g, d, level, n).window, level, n)
  {
    hide Adapted, Threshold, Pushed;
    if n > 0 {
      WindowFills(g, d, level, n - 1);
      AdaptedKeeps(g, Steady(g, d, level, n - 1), level);
      PushEnds(g, Steady(g, d, level, n - 1).window, level, n - 1);
    }
  }

  lemma FullOfOne(g: Config, w: seq<real>, level: real)
    requires Counted(g) && EndsWith(g, w, level, g.windowFrames)
    ensures |w| == g.windowFrames && EndsWith(g, Pushed(g, w, level), level, g.windowFrames)
    ensures Least(Pushed(g, w, level)) == level
  {
    LeastIsLeast(Pushed(g, w, level));
  }

  /** Of a room that is already too loud, the floor learns a fixed share each frame. */
  lemma Climb(floor: real, level: real, margin: real, rise: real, n: real)
    requires margin > 1.0 && 0.0 <= rise <= 1.0 && level >= 0.0
    requires floor * margin >= n * (rise * level * (margin - 1.0)) && floor * margin < level
    ensures (floor + rise * (level - floor)) * margin >= (n + 1.0) * (rise * level * (margin - 1.0))
  {
    var k := rise * level * (margin - 1.0);
    var gap := level * margin - floor * margin;
    assert rise * gap >= rise * (level * margin - level) by {
      assert gap >= level * margin - level;
      Scale(rise, level * margin - level, gap);
    }
    assert (floor + rise * (level - floor)) * margin == floor * margin + rise * gap;
    assert rise * (level * margin - level) == k;
    assert (n + 1.0) * k == n * k + k;
  }

  lemma Scale(a: real, b: real, c: real)
    requires a >= 0.0 && b <= c
    ensures a * b <= a * c
  {
  }

  /** Too loud still, or not any more. */
  predicate Learned(g: Config, floor: real, level: real, n: real) {
    floor * g.margin >= level || floor * g.margin >= n * (g.rise * level * (g.margin - 1.0))
  }

  lemma LoudIsAbove(floor: real, level: real, margin: real)
    requires margin > 1.0 && level >= 0.0 && floor > level
    ensures floor * margin >= level
  {
    Scale(floor, 1.0, margin);
  }

  /** A level once learned stays learned. */
  lemma StaysLearned(floor: real, level: real, margin: real, rate: real)
    requires margin > 1.0 && level >= 0.0 && floor * margin >= level && 0.0 <= rate <= 1.0
    ensures (floor + rate * (level - floor)) * margin >= level
  {
    var floor' := Between(floor, level, rate);
    if floor <= level {
      Scale(margin, floor, floor');
    } else {
      Scale(margin, level, floor');
      Scale(level, 1.0, margin);
    }
  }

  lemma LearnStep(g: Config, d: Detector, level: real, n: real)
    requires Counted(g) && Rates(g) && g.margin > 1.0 && level >= 0.0
    requires EndsWith(g, d.window, level, g.windowFrames) && Learned(g, d.floor, level, n)
    ensures Learned(g, Adapted(g, d, level).floor, level, n + 1.0)
  {
    hide EndsWith, Learned, Least, Pushed;
    FullOfOne(g, d.window, level);
    FullStays(g, d.window, level);
    LearnFloor(g, d.floor, Adapted(g, d, level).floor, level, n);
  }

  lemma FullStays(g: Config, w: seq<real>, level: real)
    requires Counted(g) && EndsWith(g, w, level, g.windowFrames)
    ensures |Pushed(g, w, level)| == g.windowFrames
  {
  }

  lemma LearnFloor(g: Config, floor: real, floor': real, level: real, n: real)
    requires Rates(g) && g.margin > 1.0 && level >= 0.0 && Learned(g, floor, level, n)
    requires floor' == if level < floor then floor + g.fall * (level - floor) else floor + g.rise * (level - floor)
    ensures Learned(g, floor', level, n + 1.0)
  {
    if floor * g.margin < level {
      if floor > level { LoudIsAbove(floor, level, g.margin); }
      Climb(floor, level, g.margin, g.rise, n);
    } else {
      StaysLearned(floor, level, g.margin, if level < floor then g.fall else g.rise);
    }
  }

  predicate NonNegative(d: Detector) {
    d.floor >= 0.0 && forall x :: x in d.window ==> x >= 0.0
  }

  lemma {:induction false} StaysNonNegative(g: Config, d: Detector, level: real, n: nat)
    requires Counted(g) && Rates(g) && NonNegative(d) && level >= 0.0
    ensures NonNegative(Steady(g, d, level, n))
  {
    hide Adapted, Threshold;
    if n > 0 {
      var e := Steady(g, d, level, n - 1);
      StaysNonNegative(g, d, level, n - 1);
      AdaptedKeeps(g, e, level);
      var w := Pushed(g, e.window, level);
      LeastIsLeast(w);
      FloorStep(g, e, level, 0.0, Max(e.floor, Least(w)));
    }
  }

  lemma {:induction false} SteadyLearns(g: Config, d: Detector, level: real, n: nat)
    requires Counted(g) && Rates(g) && g.margin > 1.0 && level >= 0.0
    requires |d.window| <= g.windowFrames && NonNegative(d)
    ensures Learned(g, Steady(g, d, level, g.windowFrames + n).floor, level, n as real)
  {
    hide Adapted, Threshold;
    if n == 0 {
      StaysNonNegative(g, d, level, g.windowFrames);
      Scale(g.margin, 0.0, Steady(g, d, level, g.windowFrames).floor);
    } else {
      var e := Steady(g, d, level, g.windowFrames + n - 1);
      SteadyLearns(g, d, level, n - 1);
      WindowFills(g, d, level, g.windowFrames + n - 1);
      AdaptedKeeps(g, e, level);
      LearnStep(g, e, level, (n - 1) as real);
    }
  }

  /** Enough frames for the floor to climb over any noise. */
  predicate Enough(g: Config, n: nat) {
    n as real * (g.rise * (g.margin - 1.0)) >= 1.0
  }

  lemma Climbed(level: real, n: real, rise: real, over: real)
    requires level >= 0.0 && n * (rise * over) >= 1.0
    ensures n * (rise * level * over) >= level
  {
    var x := rise * over;
    assert rise * level * over == level * x;
    assert n * (level * x) == level * (n * x);
    Scale(level, 1.0, n * x);
  }

  lemma SteadyIsNotLoud(g: Config, d: Detector, level: real, n: nat)
    requires Counted(g) && Rates(g) && g.margin > 1.0 && level >= 0.0 && Enough(g, n)
    requires |d.window| <= g.windowFrames && NonNegative(d)
    ensures level <= Threshold(g, Steady(g, d, level, g.windowFrames + n))
  {
    hide Steady, NonNegative, Rates;
    SteadyLearns(g, d, level, n);
    Climbed(level, n as real, g.rise, g.margin - 1.0);
  }

  /** After the noise is learned, a speech state has counted every frame since. */
  lemma {:induction false} QuietCounts(g: Config, d: Detector, level: real, n: nat, j: nat)
    requires Counted(g) && Rates(g) && g.margin > 1.0 && level >= 0.0 && Enough(g, n)
    requires |d.window| <= g.windowFrames && NonNegative(d)
    ensures var e := Steady(g, d, level, g.windowFrames + n + j);
      && (e.phase == Speech ==> j <= e.quiet)
      && (j > 0 ==> e.phase == Silence || (e.phase == Speech && e.quiet < g.endFrames))
    decreases j
  {
    hide Adapted, Threshold, Rates, NonNegative;
    if j > 0 {
      var before := g.windowFrames + n + (j - 1);
      var e := Steady(g, d, level, before);
      QuietCounts(g, d, level, n, j - 1);
      EnoughMore(g, n, n + (j - 1));
      SteadyIsNotLoud(g, d, level, n + (j - 1));
      AdaptedKeeps(g, e, level);
    }
  }

  lemma EnoughMore(g: Config, n: nat, m: nat)
    requires Enough(g, n) && n <= m
    ensures Enough(g, m)
  {
    var share := g.rise * (g.margin - 1.0);
    if share <= 0.0 {
      Scale(n as real, share, 0.0);
    } else {
      Scale(share, n as real, m as real);
    }
  }

  /** A detector cannot latch open on a steady noise, however loud: from any state, a
      window of it, then enough frames to learn it, then the trailing silence, and the
      detector is in silence. */
  lemma SteadyNoiseCannotLatch(g: Config, d: Detector, level: real, n: nat)
    requires Counted(g) && Rates(g) && g.margin > 1.0 && level >= 0.0 && Enough(g, n)
    requires |d.window| <= g.windowFrames && NonNegative(d)
    ensures Steady(g, d, level, g.windowFrames + n + g.endFrames).phase == Silence
  {
    QuietCounts(g, d, level, n, g.endFrames);
  }

  // ----- the object -----

  class VoiceDetector {
    const config: Config
    var state: Phase
    var run: nat
    var quiet: nat
    var suppressed: bool
    var floor: real
    var window: seq<real>
    var level: real
    /** What was fed and what came of it. */
    ghost var log: seq<Line>
    ghost var levels: seq<real>

    ghost function Snapshot(): Detector
      reads this
    {
      Detector(state, run, quiet, suppressed, floor, window)
    }

    ghost function Past(): Run
      reads this
    {
      Run(Snapshot(), log, levels)
    }

    ghost predicate Valid()
      reads this
    {
      && Counted(config) && Counts(config, Past()) && Explained(config, log)
      && window == Recent(config, levels)
    }

    constructor (config: Config)
      requires Counted(config)
      ensures Valid() && this.config == config && Past() == After(config, [])
    {
      this.config := config;
      state, run, quiet, suppressed := Silence, 0, 0, false;
      floor, window, level := config.minRms, [], 0.0;
      log, levels := [], [];
    }

    /** Only the sustain count in force changes. */
    method SetSuppressed(on: bool)
      requires Valid()
      modifies this`suppressed
      ensures Valid() && Past() == Step(config, old(Past()), Suppress(on))
      ensures Need(config, Snapshot()) == if on then config.suppressedStartFrames else config.startFrames
      ensures Threshold(config, Snapshot()) == Threshold(config, old(Snapshot()))
    {
      StepCounts(config, Past(), Suppress(on));
      suppressed := on;
    }

    /** Whatever was heard, the next loud frame is the first again; the room is not
        forgotten. */
    method Restart()
      requires Valid()
      modifies this`state, this`run, this`quiet, this`log
      ensures Valid() && log == old(log) + [Restarted]
      ensures !InSpeech(log) && LoudRun(log) == 0
      ensures Threshold(config, Snapshot()) == Threshold(config, old(Snapshot()))
      ensures Snapshot() == Reset(old(Snapshot()))
    {
      StepCounts(config, Past(), Input.Restart);
      Grown(log, Restarted);
      GrownLoud(log, Restarted);
      ExplainedStep(config, Past(), Input.Restart);
      state, run, quiet := Silence, 0, 0;
      log := log + [Restarted];
    }

    /** The oldest level falls out of a full window. */
    method PushLevel()
      requires Counted(config)
      modifies this`window
      ensures window == Pushed(config, old(window), level)
    {
      if |window| >= config.windowFrames { window := window[|window| - config.windowFrames + 1..]; }
      window := window + [level];
    }

    /** The window is the last levels fed.  The floor moves towards their minimum and not
        beyond it, and rises only when the window is full. */
    method AdaptFloor()
      requires Counted(config) && window == Recent(config, levels)
      modifies this`window, this`floor
      ensures Snapshot() == Adapted(config, old(Snapshot()), level)
      ensures Settles(config, old(Snapshot()), Snapshot(), levels + [level])
    {
      hide Settles, Recent, Pushed, Least;
      AdaptedSettles(config, Snapshot(), levels, level);
      PushLevel();
      WindowStep(config, levels, level);
      SomethingRecent(config, levels, level);
      var target := Least(window);
      if target < floor {
        floor := floor + config.fall * (target - floor);
      } else if |window| == config.windowFrames {
        floor := floor + config.rise * (target - floor);
      }
    }

    /** `feed`, given the level of the frame: the event is the one that the log before it
        calls for, with the frame judged by the threshold before the floor adapts. */
    method Feed(heard: real) returns (event: Event)
      requires Valid()
      modifies this
      ensures Valid() && level == heard && levels == old(levels) + [heard]
      ensures var loud, need := heard > old(Threshold(config, Snapshot())), old(Need(config, Snapshot()));
        && event == Expected(config, old(log), loud, need)
        && log == old(log) + [Fired(loud, need, event)]
      ensures suppressed == old(suppressed) && floor == Adapted(config, old(Snapshot()), heard).floor
    {
      hide Adapted, Recent, Explained, Counts, Expected;
      ghost var before := Past();
      StepCounts(config, before, Frame(heard));
      ExplainedStep(config, before, Frame(heard));
      StepKeepsWindow(config, before, Frame(heard));
      event := FeedFields(heard);
      log := Step(config, before, Frame(heard)).log;
      levels := levels + [heard];
      AdaptedKeeps(config, before.d, heard);
    }

    /** The fields of `feed`. */
    method FeedFields(heard: real) returns (event: Event)
      requires Counted(config) && window == Recent(config, levels)
      modifies this`level, this`state, this`run, this`quiet, this`window, this`floor
      ensures level == heard && (Snapshot(), event) == Fed(config, old(Snapshot()), heard)
    {
      hide Adapted, Recent, Settles;
      level := heard;
      var loud := level > Max(config.minRms, floor * config.margin);
      AdaptFloor();
      AdaptedKeeps(config, old(Snapshot()), heard);
      if state == Speech {
        if loud {
          quiet := 0;
          return HeardSpeech;
        }
        quiet := quiet + 1;
        if quiet >= config.endFrames {
          state, run, quiet := Silence, 0, 0;
          return SpeechEnd;
        }
        return HeardSpeech;
      }
      if loud {
        run := run + 1;
        var need := if suppressed then config.suppressedStartFrames else config.startFrames;
        if run >= need {
          state, run, quiet := Speech, 0, 0;
          return SpeechStart;
        }
        state := Maybe;
        return HeardMaybe;
      }
      state, run := Silence, 0;
      return HeardSilence;
    }
  }
}
