/** The document reader: passages synthesised in the background and played one at a
    time.  The synthesis thread ends whenever it likes; what the player says about
    itself is a parameter of each tick.
  */
module DocumentReader {
  import opened Basics

  type Text = string

  /** A background synthesis.  An error of "" is no error, or one without a message. */
  datatype Job = Job(text: Text, cancelled: bool, done: bool, clip: Option<Text>, error: string)

  datatype Status = Ready | Loading | Playing | Paused | Finished | Error

  datatype Event =
    | Reported(status: Status, index: nat, text: Text, error: string)
    | Played(passage: nat, clip: Text)
    | PlayerStopped

  datatype State = State(index: nat, status: Status, job: Option<Job>, active: bool, playing: bool, log: seq<Event>)

  type Document = c: seq<Text> | |c| > 0 witness [""]

  // ----- the synthesis thread -----

  /** How `run` ends: with the text's clip, with an exception, or with nothing because it
      saw the cancellation first. */
  datatype Ending = Spoke | Raised(message: string) | Skipped

  predicate CanEnd(j: Job, e: Ending) {
    !j.done && (e.Skipped? ==> j.cancelled)
  }

  function Ended(j: Job, e: Ending): Job {
    match e
    case Spoke => j.(done := true, clip := Some(j.text))
    case Raised(message) => j.(done := true, error := message)
    case Skipped => j.(done := true)
  }

  // ----- the reader -----

  function Reporting(c: Document, s: State, error: string): State
    requires s.index < |c|
  {
    s.(log := s.log + [Reported(s.status, s.index, c[s.index], error)])
  }

  function Initial(c: Document): State {
    Reporting(c, State(0, Ready, None, false, false, []), "")
  }

  function Moved(c: Document, index: nat, command: char): nat
    requires index < |c|
  {
    if command == 's' then 0
    else if command == 'n' then (if index + 1 < |c| then index + 1 else |c| - 1)
    else if command == 'b' then (if index > 0 then index - 1 else 0)
    else index
  }

  function Command(c: Document, s: State, command: char): State
    requires s.index < |c|
  {
    if command == 'p' then
      if s.active then s else Reporting(c, s.(active := true, status := Loading), "")
    else if command !in "asnb" then s
    else
      Reporting(c, State(Moved(c, s.index, command),
                         if command == 'a' then Paused else Ready,
                         if s.job.Some? then Some(s.job.value.(cancelled := true)) else None,
                         false, false, s.log + [PlayerStopped]), "")
  }

  /** The first part of `tick`: a finished synthesis is taken.  It raises when the job
      failed without a message, for then there is no clip to unpack. */
  function TakeJob(c: Document, s: State): (State, bool)
    requires s.index < |c|
  {
    if s.job == None || !s.job.value.done then (s, false)
    else
      var job := s.job.value;
      var t := s.(job := None);
      if !s.active || job.cancelled then (t, false)
      else if job.error != "" then (Reporting(c, t.(active := false, status := Error), job.error), false)
      else if job.clip == None then (t, true)
      else
        (Reporting(c, t.(playing := true, status := Playing, log := t.log + [Played(t.index, job.clip.value)]), ""), false)
  }

  /** The second part: the player fell silent. */
  function Advance(c: Document, s: State, busy: bool, playerError: string): State
    requires s.index < |c|
  {
    if !s.playing || busy then s
    else if playerError != "" then Reporting(c, s.(playing := false, active := false, status := Error), playerError)
    else if s.index + 1 == |c| then Reporting(c, s.(playing := false, active := false, index := 0, status := Finished), "")
    else s.(playing := false, index := s.index + 1)
  }

  /** The third part: the next synthesis. */
  function Launch(c: Document, s: State): State
    requires s.index < |c|
  {
    if s.active && !s.playing && s.job == None then
      Reporting(c, s.(status := Loading), "").(job := Some(Job(c[s.index], false, false, None, "")))
    else s
  }

  function Tick(c: Document, s: State, busy: bool, playerError: string): (State, bool)
    requires s.index < |c|
  {
    var (taken, raised) := TakeJob(c, s);
    if raised then (taken, true) else (Launch(c, Advance(c, taken, busy, playerError)), false)
  }

  datatype Action = Key(command: char) | Ticked(busy: bool, playerError: string) | JobEnds(ending: Ending)

  predicate Enabled(s: State, a: Action) {
    a.JobEnds? ==> s.job.Some? && CanEnd(s.job.value, a.ending)
  }

  function Do(c: Document, s: State, a: Action): State
    requires s.index < |c| && Enabled(s, a)
  {
    match a
    case Key(command) => Command(c, s, command)
    case Ticked(busy, playerError) => Tick(c, s, busy, playerError).0
    case JobEnds(ending) => s.(job := Some(Ended(s.job.value, ending)))
  }

  // ----- the invariant -----

  /** A job that will be heard is for the current passage. */
  predicate JobSound(c: Document, s: State) {
    s.job.Some? ==>
      var j := s.job.value;
      && (!j.cancelled ==> s.active && s.index < |c| && j.text == c[s.index])
      && (j.clip.Some? ==> j.clip.value == j.text)
      && (!j.done ==> j.error == "" && j.clip == None)
  }

  predicate StatusSound(s: State) {
    && (s.active <==> s.status == Loading || s.status == Playing)
    && (s.playing <==> s.status == Playing)
    && (s.playing ==> s.job == None)
    && (s.status == Finished ==> s.index == 0)
  }

  predicate PlaysSound(c: Document, log: seq<Event>) {
    forall e :: e in log && e.Played? ==> e.passage < |c| && e.clip == c[e.passage]
  }

  predicate Inv(c: Document, s: State) {
    s.index < |c| && JobSound(c, s) && StatusSound(s) && PlaysSound(c, s.log)
  }

  lemma InitialInv(c: Document)
    ensures Inv(c, Initial(c))
  {
  }

  lemma TakeKeepsInv(c: Document, s: State)
    requires Inv(c, s)
    ensures Inv(c, TakeJob(c, s).0)
  {
  }

  lemma RestKeepsInv(c: Document, s: State, busy: bool, playerError: string)
    requires Inv(c, s)
    ensures Inv(c, Launch(c, Advance(c, s, busy, playerError)))
  {
  }

  lemma TickKeepsInv(c: Document, s: State, busy: bool, playerError: string)
    requires Inv(c, s)
    ensures Inv(c, Tick(c, s, busy, playerError).0)
  {
    TakeKeepsInv(c, s);
    RestKeepsInv(c, TakeJob(c, s).0, busy, playerError);
    hide JobSound, StatusSound, PlaysSound, TakeJob, Advance, Launch;
  }

  lemma StepKeepsInv(c: Document, s: State, a: Action)
    requires Inv(c, s) && Enabled(s, a)
    ensures Inv(c, Do(c, s, a))
  {
    hide Tick;
    if a.Ticked? { TickKeepsInv(c, s, a.busy, a.playerError); }
  }

  // ----- whole runs -----

  /** The state after a schedule, if every action was enabled in its turn. */
  function After(c: Document, s: State, schedule: seq<Action>): (r: Option<State>)
    requires s.index < |c|
    decreases |schedule|
  {
    if schedule == [] then Some(s)
    else
      var last := |schedule| - 1;
      var before := After(c, s, schedule[..last]);
      if before.Some? && before.value.index < |c| && Enabled(before.value, schedule[last]) then
        Some(Do(c, before.value, schedule[last]))
      else None
  }

  lemma {:induction false} RunKeepsInv(c: Document, s: State, schedule: seq<Action>)
    requires Inv(c, s) && After(c, s, schedule).Some?
    ensures Inv(c, After(c, s, schedule).value)
    decreases |schedule|
  {
    if schedule != [] {
      var last := |schedule| - 1;
      RunKeepsInv(c, s, schedule[..last]);
      StepKeepsInv(c, After(c, s, schedule[..last]).value, schedule[last]);
    }
  }

  /** In every run, the index stays in range, the reader plays only while it is active
      and nothing is being synthesised, a job that was not cancelled is for the passage
      it stands at, and only the passage it stood at was ever played. */
  lemma OnlyTheCurrentPassage(c: Document, schedule: seq<Action>)
    requires After(c, Initial(c), schedule).Some?
    ensures var s := After(c, Initial(c), schedule).value;
      && s.index < |c|
      && (s.playing ==> s.active && s.job == None)
      && (s.job.Some? && !s.job.value.cancelled ==> s.job.value.text == c[s.index])
      && (forall e :: e in s.log && e.Played? ==> e.passage < |c| && e.clip == c[e.passage])
  {
    InitialInv(c);
    RunKeepsInv(c, Initial(c), schedule);
  }

  /** A tick raises exactly when a synthesis still wanted failed without a message. */
  lemma RaisesIff(c: Document, s: State, busy: bool, playerError: string)
    requires Inv(c, s)
    ensures Tick(c, s, busy, playerError).1 <==>
      s.job.Some? && s.job.value.done && !s.job.value.cancelled && s.job.value.error == "" && s.job.value.clip == None
  {
  }

  /** Next goes one passage on and stays at the last, back goes one back and stays at the
      first, stop goes to the first, and no other key moves; next and back undo each
      other in between. */
  lemma KeysMove(c: Document, s: State, command: char)
    requires s.index < |c|
    ensures command == 'n' ==> Command(c, s, command).index == if s.index == |c| - 1 then s.index else s.index + 1
    ensures command == 'b' ==> Command(c, s, command).index == if s.index == 0 then 0 else s.index - 1
    ensures command == 's' ==> Command(c, s, command).index == 0
    ensures command !in "nbs" ==> Command(c, s, command).index == s.index
    ensures s.index < |c| - 1 ==> Command(c, Command(c, s, 'n'), 'b').index == s.index
    ensures s.index > 0 ==> Command(c, Command(c, s, 'b'), 'n').index == s.index
  {
    if command !in "nbs" && command in "asnb" {
      assert command == 'a';
    }
  }

  /** Asking to play after any interruption asks for the passage moved to. */
  lemma PlayAsksWhereMoved(c: Document, s: State, command: char)
    requires Inv(c, s) && command in "asnb"
    ensures var t := Command(c, s, command); Asked(Command(c, t, 'p'), t.index) && Inv(c, Command(c, t, 'p'))
  {
    StepKeepsInv(c, s, Key(command));
    var t := Command(c, s, command);
    StepKeepsInv(c, t, Key('p'));
    assert command != 'p';
  }

  /** What was shown last is where the reader stands: its state, index and passage, with a
      message exactly for an error. */
  predicate Shown(c: Document, s: State) {
    && s.log != [] && s.index < |c|
    && var e := s.log[|s.log| - 1];
       && e.Reported? && e.status == s.status && e.index == s.index && e.text == c[s.index]
       && (e.error != "" <==> s.status == Error)
  }

  lemma TakeShows(c: Document, s: State)
    requires Inv(c, s) && Shown(c, s)
    ensures Shown(c, TakeJob(c, s).0)
  {
    hide PlaysSound;
  }

  lemma RestShows(c: Document, s: State, busy: bool, playerError: string)
    requires Inv(c, s) && Shown(c, s)
    ensures Shown(c, Launch(c, Advance(c, s, busy, playerError)))
  {
    hide PlaysSound;
  }

  lemma StepShows(c: Document, s: State, a: Action)
    requires Inv(c, s) && Shown(c, s) && Enabled(s, a)
    ensures Shown(c, Do(c, s, a))
  {
    if a.Ticked? {
      TakeShows(c, s);
      TakeKeepsInv(c, s);
      RestShows(c, TakeJob(c, s).0, a.busy, a.playerError);
      hide Shown, Inv, TakeJob, Advance, Launch;
    }
  }

  lemma {:induction false} LastReportIsTrue(c: Document, schedule: seq<Action>)
    requires After(c, Initial(c), schedule).Some?
    ensures Shown(c, After(c, Initial(c), schedule).value)
    decreases |schedule|
  {
    if schedule != [] {
      hide Do, Shown, Inv, Enabled;
      var last := |schedule| - 1;
      var before := After(c, Initial(c), schedule[..last]);
      LastReportIsTrue(c, schedule[..last]);
      InitialInv(c);
      RunKeepsInv(c, Initial(c), schedule[..last]);
      StepShows(c, before.value, schedule[last]);
    }
  }

  // ----- an uninterrupted run -----

  function Passages(log: seq<Event>): seq<nat> {
    if log == [] then []
    else
      var last := |log| - 1;
      Passages(log[..last]) + if log[last].Played? then [log[last].passage] else []
  }

  lemma PassagesAppend(log: seq<Event>, e: Event)
    ensures Passages(log + [e]) == Passages(log) + if e.Played? then [e.passage] else []
  {
    assert (log + [e])[..|log|] == log;
  }

  /** A step plays at most one passage: the one the reader stands at, and only while it
      is active, whatever an old synthesis does. */
  lemma PlaysWhereItStands(c: Document, s: State, a: Action)
    requires Inv(c, s) && Enabled(s, a)
    ensures var t := Do(c, s, a);
      || Passages(t.log) == Passages(s.log)
      || (s.active && a.Ticked? && Passages(t.log) == Passages(s.log) + [s.index])
  {
    hide Passages;
    forall log: seq<Event>, e: Event ensures Passages(log + [e]) == Passages(log) + if e.Played? then [e.passage] else [] {
      PassagesAppend(log, e);
    }
  }

  function Range(from: nat, to: nat): seq<nat>
    requires from <= to
  {
    seq(to - from, k requires 0 <= k < to - from => from + k)
  }

  /** Ticks while the player has no error, and syntheses that succeed.  An old cancelled
      synthesis may end in any way. */
  predicate Calm(s: State, a: Action) {
    match a
    case Key(_) => false
    case Ticked(_, playerError) => playerError == ""
    case JobEnds(ending) => ending.Spoke? || (s.job.Some? && s.job.value.cancelled)
  }

  ghost predicate CalmRun(c: Document, s: State, schedule: seq<Action>)
    requires s.index < |c|
    decreases |schedule|
  {
    schedule != [] ==>
      var last := |schedule| - 1;
      var before := After(c, s, schedule[..last]);
      && CalmRun(c, s, schedule[..last])
      && (before.Some? ==> Calm(before.value, schedule[last]))
  }

  /** Just asked to play from `from`. */
  predicate Asked(s: State, from: nat) {
    s.active && !s.playing && s.index == from && (s.job.Some? ==> s.job.value.cancelled)
  }

  predicate WellDone(s: State) {
    s.job.Some? && s.job.value.done && !s.job.value.cancelled ==> s.job.value.error == "" && s.job.value.clip.Some?
  }

  /** Everything from `from` up to where the reader stands has been played, once, in
      order. */
  predicate Progress(c: Document, before: seq<nat>, from: nat, s: State) {
    if s.active then
      && from <= s.index && WellDone(s)
      && (s.job.Some? && s.job.value.error != "" ==> s.job.value.cancelled)
      && Passages(s.log) == before + Range(from, if s.playing then s.index + 1 else s.index)
    else
      && s.status == Finished && s.index == 0 && from <= |c|
      && Passages(s.log) == before + Range(from, |c|)
  }

  lemma CalmStepProgresses(c: Document, before: seq<nat>, from: nat, s: State, a: Action)
    requires Inv(c, s) && Enabled(s, a) && Calm(s, a) && Progress(c, before, from, s)
    ensures Progress(c, before, from, Do(c, s, a))
  {
    hide Passages;
    forall log: seq<Event>, e: Event ensures Passages(log + [e]) == Passages(log) + if e.Played? then [e.passage] else [] {
      PassagesAppend(log, e);
    }
    if s.active { assert Range(from, s.index + 1) == Range(from, s.index) + [s.index]; }
  }

  lemma {:induction false} CalmRunProgresses(c: Document, from: nat, s: State, schedule: seq<Action>)
    requires Inv(c, s) && Asked(s, from) && After(c, s, schedule).Some? && CalmRun(c, s, schedule)
    ensures Progress(c, Passages(s.log), from, After(c, s, schedule).value)
    decreases |schedule|
  {
    if schedule == [] {
      assert Range(from, from) == [];
    } else {
      var last := |schedule| - 1;
      RunKeepsInv(c, s, schedule[..last]);
      CalmRunProgresses(c, from, s, schedule[..last]);
      CalmStepProgresses(c, Passages(s.log), from, After(c, s, schedule[..last]).value, schedule[last]);
    }
  }

  /** Without interruption or error, the reader plays each passage from the one it was
      asked at exactly once and in order, and when it stops of itself it has played the
      last one and stands at the first. */
  lemma ReadsEachPassageOnce(c: Document, from: nat, s: State, schedule: seq<Action>)
    requires Inv(c, s) && Asked(s, from) && After(c, s, schedule).Some? && CalmRun(c, s, schedule)
    ensures var t := After(c, s, schedule).value;
      if t.active then
        from <= t.index < |c| && Passages(t.log) == Passages(s.log) + Range(from, if t.playing then t.index + 1 else t.index)
      else
        from <= |c| && t.status == Finished && t.index == 0 && Passages(t.log) == Passages(s.log) + Range(from, |c|)
  {
    hide Passages, Do, Calm;
    RunKeepsInv(c, s, schedule);
    CalmRunProgresses(c, from, s, schedule);
  }

  /** How far it is to the end of the document. */
  function Left(c: Document, s: State): nat
    requires s.index < |c|
  {
    if s.active then 6 * (|c| - s.index) + Stage(s) else 0
  }

  function Stage(s: State): nat {
    if s.playing then 0
    else match s.job
         case None => 3
         case Some(j) => if j.cancelled then (if j.done then 4 else 5) else if j.done then 1 else 2
  }

  /** The end of a synthesis, or a tick that does not just wait for one or for the player. */
  predicate Useful(s: State, a: Action) {
    match a
    case Key(_) => false
    case JobEnds(_) => s.active
    case Ticked(busy, _) => s.active && if s.playing then !busy else s.job.Some? ==> s.job.value.done
  }

  /** Every useful step of an uninterrupted run brings the end nearer, no other takes it
      further away. */
  lemma CalmGetsOn(c: Document, s: State, a: Action)
    requires Inv(c, s) && Enabled(s, a) && Calm(s, a) && WellDone(s)
    ensures Do(c, s, a).index < |c| && Left(c, Do(c, s, a)) <= Left(c, s)
    ensures Useful(s, a) ==> Left(c, Do(c, s, a)) < Left(c, s)
  {
  }

  /** And until the end is reached, there is one. */
  lemma CalmIsNeverStuck(c: Document, s: State) returns (a: Action)
    requires Inv(c, s) && s.active
    ensures Enabled(s, a) && Calm(s, a) && Useful(s, a)
  {
    a := if s.job.Some? && !s.job.value.done then JobEnds(Spoke) else Ticked(false, "");
  }

  // ----- interruption -----

  /** What a tick makes of the end of a synthesis.  A cancelled one is dropped however it
      ended; one still wanted is played where the reader stands, or reported, or, failing
      without a message, makes the tick raise. */
  lemma EndingDecidesTick(c: Document, s: State, e: Ending, busy: bool, playerError: string)
    requires Inv(c, s) && s.job.Some? && CanEnd(s.job.value, e)
    ensures var (t, raised) := Tick(c, Do(c, s, JobEnds(e)), busy, playerError);
      var heard := Passages(t.log) == Passages(s.log) + [s.index];
      var nothing := Passages(t.log) == Passages(s.log);
      if s.job.value.cancelled then !raised && nothing
      else match e
           case Spoke => !raised && heard
           case Raised(m) => nothing && raised == (m == "") && (m != "" ==> t.status == Error && !t.active && t.job == None)
           case Skipped => false
  {
    hide Passages;
    forall log: seq<Event>, x: Event ensures Passages(log + [x]) == Passages(log) + if x.Played? then [x.passage] else [] {
      PassagesAppend(log, x);
    }
  }

  lemma InactiveStep(c: Document, s: State, a: Action)
    requires Inv(c, s) && Enabled(s, a) && !s.active && a != Key('p')
    ensures !Do(c, s, a).active && Passages(Do(c, s, a).log) == Passages(s.log)
  {
    PlaysWhereItStands(c, s, a);
    hide Passages;
  }

  lemma {:induction false} InactiveStaysSilent(c: Document, s: State, schedule: seq<Action>)
    requires Inv(c, s) && !s.active && Key('p') !in schedule && After(c, s, schedule).Some?
    ensures var t := After(c, s, schedule).value; !t.active && Passages(t.log) == Passages(s.log)
    decreases |schedule|
  {
    if schedule != [] {
      hide Passages, Do, Inv, Enabled;
      var last := |schedule| - 1;
      InactiveStaysSilent(c, s, schedule[..last]);
      RunKeepsInv(c, s, schedule[..last]);
      InactiveStep(c, After(c, s, schedule[..last]).value, schedule[last]);
    }
  }

  /** After a pause, stop, next or back nothing is played, whatever the synthesis in the
      background does, until the reader is asked to play again. */
  lemma InterruptionSilences(c: Document, s: State, command: char, schedule: seq<Action>)
    requires Inv(c, s) && command in "asnb" && Key('p') !in schedule
    requires After(c, Command(c, s, command), schedule).Some?
    ensures var before, t := Command(c, s, command), After(c, Command(c, s, command), schedule).value;
      && Passages(t.log) == Passages(s.log) && !t.active
      && (before.job.Some? ==> before.job.value.cancelled)
  {
    StepKeepsInv(c, s, Key(command));
    PlaysWhereItStands(c, s, Key(command));
    assert command != 'p';
    InactiveStaysSilent(c, Command(c, s, command), schedule);
  }

  // ----- the objects -----

  /** One `Synthesis`.  Its thread is `Finish`. */
  class Synthesis {
    const text: Text
    var cancelled: bool
    var done: bool
    var clip: Option<Text>
    var error: string

    function AsJob(): Job
      reads this
    {
      Job(text, cancelled, done, clip, error)
    }

    constructor (text: Text)
      ensures AsJob() == Job(text, false, false, None, "")
    {
      this.text := text;
      cancelled, done, clip, error := false, false, None, "";
    }

    method Cancel()
      modifies this
      ensures AsJob() == old(AsJob()).(cancelled := true)
    {
      cancelled := true;
    }

    /** How `run` ends. */
    method Finish(ending: Ending)
      requires CanEnd(AsJob(), ending)
      modifies this
      ensures AsJob() == Ended(old(AsJob()), ending)
    {
      if ending.Spoke? {
        clip := Some(text);
      } else if ending.Raised? {
        error := ending.message;
      }
      done := true;
    }
  }

  class Reader {
    const chunks: Document
    var index: nat
    var status: Status
    var job: Synthesis?
    var active: bool
    var playing: bool
    ghost var log: seq<Event>

    ghost function Snapshot(): State
      reads this, job
    {
      State(index, status, if job == null then None else Some(job.AsJob()), active, playing, log)
    }

    ghost predicate Valid()
      reads this, job
    {
      Inv(chunks, Snapshot())
    }

    constructor (chunks: Document)
      ensures Valid() && this.chunks == chunks && Snapshot() == Initial(chunks)
    {
      this.chunks := chunks;
      index, status, job, active, playing := 0, Status.Ready, null, false, false;
      log := [Reported(Status.Ready, 0, chunks[0], "")];
      new;
      InitialInv(chunks);
    }

    method Press(command: char)
      requires Valid()
      modifies this, job
      ensures Valid() && job == old(job)
      ensures Snapshot() == Command(chunks, old(Snapshot()), command)
    {
      StepKeepsInv(chunks, Snapshot(), Key(command));
      if command == 'p' {
        if !active {
          active, status := true, Status.Loading;
          Report("");
        }
      } else if command in "asnb" {
        Interrupt(command);
      }
    }

    method Interrupt(command: char)
      requires index < |chunks| && command in "asnb"
      modifies this, job
      ensures job == old(job) && Snapshot() == Command(chunks, old(Snapshot()), command)
    {
      active, playing := false, false;
      if job != null { job.Cancel(); }
      log := log + [PlayerStopped];
      if command == 's' {
        index := 0;
      } else if command == 'n' {
        index := if index + 1 < |chunks| - 1 then index + 1 else |chunks| - 1;
      } else if command == 'b' {
        index := if index > 0 then index - 1 else 0;
      }
      status := if command == 'a' then Status.Paused else Status.Ready;
      Report("");
    }

    method Report(error: string)
      requires index < |chunks|
      modifies this`log
      ensures Snapshot() == Reporting(chunks, old(Snapshot()), error)
    {
      log := log + [Reported(status, index, chunks[index], error)];
    }

    /** `tick`.  `busy` and `playerError` are what the player says after the first part. */
    method OnTick(busy: bool, playerError: string) returns (raised: bool)
      requires Valid()
      modifies this
      ensures Valid() && (job == old(job) || job == null || fresh(job))
      ensures (Snapshot(), raised) == Tick(chunks, old(Snapshot()), busy, playerError)
    {
      StepKeepsInv(chunks, Snapshot(), Ticked(busy, playerError));
      hide TakeJob, Advance, Launch, Inv;
      raised := TakeFinished();
      if !raised {
        FallSilent(busy, playerError);
        LaunchNext();
      }
    }

    method TakeFinished() returns (raised: bool)
      requires index < |chunks|
      modifies this
      ensures index < |chunks| && (job == old(job) || job == null)
      ensures (Snapshot(), raised) == TakeJob(chunks, old(Snapshot()))
    {
      raised := false;
      if job != null && job.done {
        var taken := job;
        job := null;
        if active && !taken.cancelled {
          if taken.error != "" {
            active, status := false, Status.Error;
            Report(taken.error);
          } else if taken.clip == None {
            raised := true;
          } else {
            log := log + [Played(index, taken.clip.value)];
            playing, status := true, Status.Playing;
            Report("");
          }
        }
      }
    }

    method FallSilent(busy: bool, playerError: string)
      requires index < |chunks|
      modifies this
      ensures index < |chunks| && job == old(job)
      ensures Snapshot() == Advance(chunks, old(Snapshot()), busy, playerError)
    {
      if playing && !busy {
        playing := false;
        if playerError != "" {
          active, status := false, Status.Error;
          Report(playerError);
        } else if index + 1 == |chunks| {
          active, index, status := false, 0, Status.Finished;
          Report("");
        } else {
          index := index + 1;
        }
      }
    }

    method LaunchNext()
      requires index < |chunks|
      modifies this
      ensures index < |chunks| && (job == old(job) || fresh(job))
      ensures Snapshot() == Launch(chunks, old(Snapshot()))
    {
      if active && !playing && job == null {
        status := Status.Loading;
        Report("");
        job := new Synthesis(chunks[index]);
      }
    }
  }
}
