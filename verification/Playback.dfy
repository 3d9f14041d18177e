/** `Player`: the queue of clips, the worker that plays them, and the threads that
    play, stop and close.  A step is one section under the player's lock, one turn of
    the drain loop in `stop`, or one queue operation outside the lock.

    That `play` and `_play_clip` are refused after a close request, and that the close
    body runs only when neither is in progress, is what LifecycleRuns proves.
  */
module Playback {
  import opened Basics

  type Tid = nat
  type ClipId = nat

  /** A clip, stamped with the generation it was queued in. */
  datatype Ticket = Ticket(id: ClipId, generation: nat)

  /** A queue entry; `End` is the sentinel of `close`. */
  datatype Entry = Clip(ticket: Ticket) | End

  /** Where the worker stands with the clip it took. */
  datatype Worker =
    | Absent
    | Unstarted                // its thread object is stored, but could not be started
    | Waiting
    | Taken(clip: Ticket)      // outside `_play_clip`, before it
    | Admitted(clip: Ticket)   // inside, before the locked start of the sink
    | Sounding(clip: Ticket)   // its sink runs
    | Finishing(clip: Ticket)  // outside `_play_clip`, before the last locked section
    | Gone

  datatype Happening = Queued(id: ClipId) | Stopped | SinkStarted(id: ClipId)

  /** What `play`, `stop` and the worker share.  `interrupted` says that the running
      sink was signalled, `escaped` that signalling it failed with an OSError, which `stop`
      swallows.  `log` is never read. */
  datatype Deck = Deck(
    queue: seq<Entry>,
    generation: nat,
    pending: int,
    idle: bool,
    worker: Worker,
    interrupted: bool,
    escaped: bool,
    log: seq<Happening>)

  const EmptyDeck := Deck([], 0, 0, true, Absent, false, false, [])

  predicate InPlayClip(k: Worker) {
    k.Admitted? || k.Sounding?
  }

  predicate InHand(k: Worker) {
    k.Taken? || k.Admitted? || k.Sounding? || k.Finishing?
  }

  // ----- steps on the deck -----

  /** `_clip_done_locked`, clamp included. */
  function ClipDone(d: Deck): Deck {
    var p := d.pending - 1;
    if p <= 0 then d.(pending := 0, idle := true) else d.(pending := p)
  }

  /** How starting the first worker ends: it runs; or its thread is stored and then cannot
      be started; or not even that.  `play` raises in the last two cases, but only for the
      first clip: a later one is queued for a worker that is not there. */
  datatype Launch = Runs | OnlyStored | Refused

  /** What `play` does under the lock. */
  function Enqueue(d: Deck, id: ClipId, launch: Launch): Deck {
    if d.worker.Absent? && launch != Runs then (if launch == OnlyStored then d.(worker := Unstarted) else d)
    else d.(worker := if d.worker.Absent? then Waiting else d.worker,
            pending := d.pending + 1,
            idle := false,
            queue := d.queue + [Clip(Ticket(id, d.generation))],
            log := d.log + [Queued(id)])
  }

  function Bump(d: Deck): Deck {
    d.(generation := d.generation + 1, log := d.log + [Stopped])
  }

  /** One turn of the drain loop. */
  function Drain(d: Deck): Deck {
    if d.queue == [] then d
    else if d.queue[0].End? then d.(queue := d.queue[1..] + [End])
    else ClipDone(d.(queue := d.queue[1..]))
  }

  /** The end of `stop`: a running sink is signalled, or cannot be. */
  function Silence(d: Deck, signalled: bool): Deck {
    if !d.worker.Sounding? then d else if signalled then d.(interrupted := true) else d.(escaped := true)
  }

  function PutEnd(d: Deck): Deck {
    d.(queue := d.queue + [End])
  }

  function Dismiss(d: Deck): Deck {
    d.(worker := Absent)
  }

  /** What the worker does next. */
  datatype Turn = Takes | Enters | Starts(succeeds: bool) | Leaves | Finishes(dies: bool)

  predicate NeedsLock(turn: Turn) {
    turn.Starts? || turn.Finishes?
  }

  predicate CanWork(d: Deck, turn: Turn) {
    match turn
    case Takes => d.worker == Waiting && d.queue != []
    case Enters => d.worker.Taken?
    case Starts(_) => d.worker.Admitted?
    case Leaves => InPlayClip(d.worker)
    case Finishes(_) => d.worker.Finishing?
  }

  /** `Starts` is the locked section of `_play_clip`: the generation is compared and the
      sink started under the lock, or not at all. */
  function Work(d: Deck, turn: Turn, requested: bool): Deck
    requires CanWork(d, turn)
  {
    match turn
    case Takes =>
      d.(queue := d.queue[1..], worker := if d.queue[0].End? then Gone else Taken(d.queue[0].ticket))
    case Enters =>
      d.(worker := if requested then Finishing(d.worker.clip) else Admitted(d.worker.clip))
    case Starts(succeeds) =>
      if succeeds && d.worker.clip.generation == d.generation then
        d.(worker := Sounding(d.worker.clip), interrupted := false, escaped := false,
           log := d.log + [SinkStarted(d.worker.clip.id)])
      else
        d.(worker := Finishing(d.worker.clip))
    case Leaves => d.(worker := Finishing(d.worker.clip))
    case Finishes(dies) => ClipDone(d).(worker := if dies then Gone else Waiting)
  }

  // ----- the threads -----

  /** Where a calling thread stands. */
  datatype Caller =
    | Idle
    | InPlay                           // inside `play`, before its locked section
    | Draining(closing: Option<bool>)  // inside `stop`, holding the lock
    | Silencing(closing: Option<bool>) // the same, after the drain
    | CloseMarking                     // at the start of the close body
    | CloseStopping(first: bool)       // about to call `stop`
    | CloseEnding(first: bool)         // about to put the sentinel
    | CloseJoining

  datatype World = World(deck: Deck, closed: bool, requested: bool, lock: Option<Tid>, callers: map<Tid, Caller>)

  const Start := World(EmptyDeck, false, false, None, map[])

  predicate IsCloser(c: Caller) {
    || c.CloseMarking? || c.CloseStopping? || c.CloseEnding? || c.CloseJoining?
    || ((c.Draining? || c.Silencing?) && c.closing.Some?)
  }

  predicate HoldsLock(c: Caller) {
    c.Draining? || c.Silencing?
  }

  function At(w: World, t: Tid): Caller {
    if t in w.callers then w.callers[t] else Idle
  }

  function Move(w: World, t: Tid, c: Caller): World {
    w.(callers := w.callers[t := c])
  }

  /** No `using` call is in progress. */
  ghost predicate Drained(w: World) {
    !InPlayClip(w.deck.worker) && forall t: Tid :: !At(w, t).InPlay?
  }

  /** `stop` takes the lock and bumps the generation. */
  function BeginStop(w: World, t: Tid, closing: Option<bool>): World {
    Move(w, t, Draining(closing)).(lock := Some(t), deck := Bump(w.deck))
  }

  datatype Action =
    | RequestClose
    | EnterPlay(t: Tid)
    | PlayLocked(t: Tid, id: ClipId, launch: Launch)
    | CallStop(t: Tid)
    | DrainOne(t: Tid)
    | EndStop(t: Tid, signalled: bool)
    | BeginClose(t: Tid)
    | MarkClosed(t: Tid)
    | StopForClose(t: Tid)
    | EndQueue(t: Tid)
    | Joined(t: Tid, inTime: bool)
    | WorkerTurn(turn: Turn)

  ghost predicate Next(w: World, w': World, a: Action) {
    match a
    case RequestClose => w' == w.(requested := true)
    case EnterPlay(t) => At(w, t) == Idle && w' == if w.requested then w else Move(w, t, InPlay)
    case PlayLocked(t, id, launch) =>
      && At(w, t) == InPlay && w.lock == None && Queued(id) !in w.deck.log
      && w' == Move(w, t, Idle).(deck := Enqueue(w.deck, id, launch))
    case CallStop(t) => At(w, t) == Idle && w.lock == None && w' == BeginStop(w, t, None)
    case DrainOne(t) =>
      && At(w, t).Draining?
      && var last := w.deck.queue == [] || w.deck.queue[0].End?;
         w' == (if last then Move(w, t, Silencing(At(w, t).closing)) else w).(deck := Drain(w.deck))
    case EndStop(t, signalled) =>
      && At(w, t).Silencing?
      && var closing := At(w, t).closing;
         w' == Move(w, t, if closing.Some? then CloseEnding(closing.value) else Idle)
                 .(lock := None, deck := Silence(w.deck, signalled))
    case BeginClose(t) =>
      && At(w, t) == Idle && w.requested && Drained(w)
      && (forall u: Tid :: !IsCloser(At(w, u)))
      && w' == Move(w, t, CloseMarking)
    case MarkClosed(t) =>
      At(w, t) == CloseMarking && w.lock == None && w' == Move(w, t, CloseStopping(!w.closed)).(closed := true)
    case StopForClose(t) =>
      At(w, t).CloseStopping? && w.lock == None && w' == BeginStop(w, t, Some(At(w, t).first))
    case EndQueue(t) =>
      && At(w, t).CloseEnding?
      && w' == if w.deck.worker.Absent? || w.deck.worker.Unstarted? then Move(w, t, Idle).(deck := Dismiss(w.deck))
               else Move(w, t, CloseJoining).(deck := if At(w, t).first then PutEnd(w.deck) else w.deck)
    case Joined(t, inTime) =>
      && At(w, t) == CloseJoining && (inTime ==> w.deck.worker == Gone)
      && w' == Move(w, t, Idle).(deck := if inTime then Dismiss(w.deck) else w.deck)
    case WorkerTurn(turn) =>
      && CanWork(w.deck, turn) && (NeedsLock(turn) ==> w.lock == None)
      && w' == w.(deck := Work(w.deck, turn, w.requested))
  }

  // ----- the invariant of the deck -----

  function Clips(q: seq<Entry>): nat {
    if q == [] then 0 else (if q[0].Clip? then 1 else 0) + Clips(q[1..])
  }

  function InHandCount(k: Worker): nat {
    if InHand(k) then 1 else 0
  }

  /** `_pending` counts the clips queued and the one in flight, and idle is set exactly
      when there are none. */
  predicate Balanced(d: Deck) {
    && d.pending == Clips(d.queue) + InHandCount(d.worker)
    && (d.idle <==> d.pending == 0)
  }

  predicate LastOnly(q: seq<Entry>) {
    forall i :: 0 <= i < |q| && q[i].End? ==> i == |q| - 1
  }

  /** `id` was queued, and some stop came after that. */
  predicate StoppedAfter(log: seq<Happening>, id: ClipId) {
    exists i, j :: 0 <= i < j < |log| && log[i] == Queued(id) && log[j] == Stopped
  }

  /** Queued, and current exactly if no stop came since. */
  predicate TicketSound(log: seq<Happening>, generation: nat, c: Ticket) {
    && c.generation <= generation && Queued(c.id) in log
    && (c.generation == generation <==> !StoppedAfter(log, c.id))
  }

  predicate TicketsSound(d: Deck) {
    && (forall e :: e in d.queue && e.Clip? ==> TicketSound(d.log, d.generation, e.ticket))
    && (InHand(d.worker) ==> TicketSound(d.log, d.generation, d.worker.clip))
  }

  /** No sink ever started for a clip queued before a stop that came earlier. */
  predicate LogSound(log: seq<Happening>) {
    forall k :: 0 <= k < |log| && log[k].SinkStarted? ==> !StoppedAfter(log[..k], log[k].id)
  }

  predicate DeckInv(d: Deck) {
    Balanced(d) && LastOnly(d.queue) && TicketsSound(d) && LogSound(d.log)
  }

  // ----- the deck's steps keep it -----

  lemma {:induction false} ClipsAppend(q: seq<Entry>, e: Entry)
    ensures Clips(q + [e]) == Clips(q) + Clips([e])
  {
    if q == [] {
      assert q + [e] == [e];
    } else {
      assert (q + [e])[1..] == q[1..] + [e];
      ClipsAppend(q[1..], e);
    }
  }

  lemma Appended(log: seq<Happening>, x: Happening, id: ClipId)
    ensures StoppedAfter(log + [x], id) <==> StoppedAfter(log, id) || (x == Stopped && Queued(id) in log)
  {
    if StoppedAfter(log + [x], id) {
      var i, j :| 0 <= i < j < |log + [x]| && (log + [x])[i] == Queued(id) && (log + [x])[j] == Stopped;
      assert log[i] == Queued(id);
      if j < |log| { assert log[j] == Stopped; }
    }
    if StoppedAfter(log, id) {
      var i, j :| 0 <= i < j < |log| && log[i] == Queued(id) && log[j] == Stopped;
      assert (log + [x])[i] == Queued(id) && (log + [x])[j] == Stopped;
    }
    if x == Stopped && Queued(id) in log {
      var i :| 0 <= i < |log| && log[i] == Queued(id);
      assert (log + [x])[i] == Queued(id) && (log + [x])[|log|] == Stopped;
    }
  }

  lemma LogGrows(log: seq<Happening>, x: Happening)
    requires LogSound(log)
    requires x.SinkStarted? ==> !StoppedAfter(log, x.id)
    ensures LogSound(log + [x])
  {
    forall k | 0 <= k < |log + [x]| && (log + [x])[k].SinkStarted?
      ensures !StoppedAfter((log + [x])[..k], (log + [x])[k].id)
    {
      assert (log + [x])[..k] == log[..k];
      assert k == |log| ==> log[..k] == log;
    }
  }

  /** A happening leaves every ticket as sound as it was. */
  lemma TicketsLater(d: Deck, x: Happening)
    requires TicketsSound(d)
    ensures TicketsSound(d.(log := d.log + [x], generation := if x == Stopped then d.generation + 1 else d.generation))
  {
    hide StoppedAfter;
    forall c: Ticket | TicketSound(d.log, d.generation, c)
      ensures TicketSound(d.log + [x], if x == Stopped then d.generation + 1 else d.generation, c)
    {
      Appended(d.log, x, c.id);
    }
  }

  lemma NeverQueued(log: seq<Happening>, id: ClipId)
    requires Queued(id) !in log
    ensures !StoppedAfter(log, id)
  {
  }

  lemma EnqueueKeeps(d: Deck, id: ClipId, launch: Launch)
    requires DeckInv(d) && Queued(id) !in d.log && End !in d.queue
    ensures DeckInv(Enqueue(d, id, launch))
  {
    hide StoppedAfter, LogSound;
    ClipsAppend(d.queue, Clip(Ticket(id, d.generation)));
    LogGrows(d.log, Queued(id));
    TicketsLater(d, Queued(id));
    Appended(d.log, Queued(id), id);
    NeverQueued(d.log, id);
  }

  lemma BumpKeeps(d: Deck)
    requires DeckInv(d)
    ensures DeckInv(Bump(d))
  {
    hide TicketSound, LogSound;
    LogGrows(d.log, Stopped);
    TicketsLater(d, Stopped);
  }

  lemma DrainKeeps(d: Deck)
    requires DeckInv(d)
    ensures DeckInv(Drain(d))
    ensures d.queue != [] && d.queue[0].End? ==> Drain(d) == d
    ensures End in Drain(d).queue ==> End in d.queue
  {
    hide TicketSound, LogSound;
    if d.queue != [] && d.queue[0].End? { assert d.queue[1..] + [End] == d.queue; }
  }

  lemma PutEndKeeps(d: Deck)
    requires DeckInv(d) && End !in d.queue
    ensures DeckInv(PutEnd(d))
  {
    hide TicketSound, LogSound;
    ClipsAppend(d.queue, End);
  }

  lemma WorkKeeps(d: Deck, turn: Turn, requested: bool)
    requires DeckInv(d) && CanWork(d, turn)
    ensures DeckInv(Work(d, turn, requested))
    ensures End in Work(d, turn, requested).queue ==> End in d.queue
  {
    hide StoppedAfter, LogSound;
    if turn.Starts? {
      var x := SinkStarted(d.worker.clip.id);
      if d.worker.clip.generation == d.generation { LogGrows(d.log, x); }
      TicketsLater(d, x);
    }
  }

  // ----- the invariant of the threads -----

  /** Plays are over for good. */
  ghost predicate Quiet(w: World) {
    w.requested && Drained(w)
  }

  ghost predicate CloseIsQuiet(w: World) {
    && (w.closed ==> Quiet(w))
    && (forall t: Tid :: IsCloser(At(w, t)) ==> Quiet(w))
  }

  ghost predicate OneCloser(w: World) {
    forall t: Tid, u: Tid :: IsCloser(At(w, t)) && IsCloser(At(w, u)) ==> t == u
  }

  /** A first close that has not put its sentinel yet. */
  predicate AboutToEnd(c: Caller) {
    || ((c.CloseStopping? || c.CloseEnding?) && c.first)
    || ((c.Draining? || c.Silencing?) && c.closing == Some(true))
  }

  /** Only the first close puts a sentinel. */
  ghost predicate OneEnd(w: World) {
    && (End in w.deck.queue ==> w.closed)
    && (forall t: Tid :: AboutToEnd(At(w, t)) ==> w.closed && End !in w.deck.queue)
  }

  ghost predicate LockSound(w: World) {
    forall t: Tid :: HoldsLock(At(w, t)) <==> w.lock == Some(t)
  }

  /** A sink that runs unsignalled while no stop is in progress was started after every
      stop. */
  predicate SinkSound(w: World) {
    var d := w.deck;
    d.worker.Sounding? && !d.interrupted && !d.escaped && w.lock == None ==> d.worker.clip.generation == d.generation
  }

  ghost predicate Inv(w: World) {
    && DeckInv(w.deck)
    && CloseIsQuiet(w) && OneCloser(w) && OneEnd(w)
    && LockSound(w) && SinkSound(w)
  }

  // ----- what a step can change -----

  function Mover(a: Action): Option<Tid> {
    if a.RequestClose? || a.WorkerTurn? then None else Some(a.t)
  }

  lemma OthersStay(w: World, w': World, a: Action)
    requires Next(w, w', a)
    ensures forall t: Tid :: Mover(a) != Some(t) ==> At(w', t) == At(w, t)
  {
    hide Enqueue, Bump, Drain, Silence, Work;
  }

  /** How the thread that moves relates to its old place. */
  lemma MoverStep(w: World, w': World, a: Action, t: Tid)
    requires Next(w, w', a) && Mover(a) == Some(t)
    ensures IsCloser(At(w', t)) ==> IsCloser(At(w, t)) || a.BeginClose?
    ensures At(w', t).InPlay? ==> At(w, t).InPlay? || !w.requested
    ensures AboutToEnd(At(w', t)) ==> AboutToEnd(At(w, t)) || (a.MarkClosed? && !w.closed)
  {
    hide Enqueue, Bump, Drain, Silence, Work;
  }

  lemma LockStep(w: World, w': World, a: Action, t: Tid)
    requires Next(w, w', a) && Mover(a) == Some(t) && (HoldsLock(At(w, t)) <==> w.lock == Some(t))
    ensures HoldsLock(At(w', t)) <==> w'.lock == Some(t)
    ensures w'.lock != w.lock ==> w.lock == None || w'.lock == None
    ensures w.lock.Some? && w'.lock == None ==> w.lock == Some(t)
    ensures w'.lock.Some? && w.lock == None ==> w'.lock == Some(t)
  {
    hide Enqueue, Bump, Drain, Silence, Work;
  }

  lemma Flags(w: World, w': World, a: Action)
    requires Next(w, w', a)
    ensures w.requested ==> w'.requested
    ensures w'.closed == (w.closed || a.MarkClosed?)
    ensures InPlayClip(w'.deck.worker) ==> InPlayClip(w.deck.worker) || !w.requested
    ensures Mover(a) == None ==> w'.lock == w.lock
  {
  }

  lemma ClosingStep(w: World, w': World, a: Action)
    requires Next(w, w', a)
    ensures a.MarkClosed? ==> At(w, a.t) == CloseMarking
    ensures a.EndQueue? ==> IsCloser(At(w, a.t)) && !AboutToEnd(At(w', a.t))
    ensures a.PlayLocked? ==> At(w, a.t).InPlay?
    ensures a.BeginClose? ==> Quiet(w) && forall u: Tid :: !IsCloser(At(w, u))
  {
  }

  // ----- every step keeps the invariant -----

  lemma StartInv()
    ensures Inv(Start)
  {
    hide DeckInv;
    EmptyDeckInv(EmptyDeck);
  }

  lemma EmptyDeckInv(d: Deck)
    requires d.queue == [] && d.log == [] && d.pending == 0 && d.idle && d.worker == Absent
    ensures DeckInv(d)
  {
  }

  lemma StepKeepsQuiet(w: World, w': World, a: Action)
    requires CloseIsQuiet(w) && Next(w, w', a)
    ensures CloseIsQuiet(w')
  {
    hide Next, At;
    OthersStay(w, w', a);
    Flags(w, w', a);
    ClosingStep(w, w', a);
    var m := Mover(a);
    if m.Some? { MoverStep(w, w', a, m.value); }
    assert Quiet(w) ==> Quiet(w');
    if a.MarkClosed? { assert IsCloser(At(w, a.t)); }
  }

  lemma StepKeepsOneCloser(w: World, w': World, a: Action)
    requires OneCloser(w) && Next(w, w', a)
    ensures OneCloser(w')
  {
    hide Next, At;
    OthersStay(w, w', a);
    ClosingStep(w, w', a);
    var m := Mover(a);
    if m.Some? { MoverStep(w, w', a, m.value); }
    forall t: Tid, u: Tid | IsCloser(At(w', t)) && IsCloser(At(w', u))
      ensures t == u
    {
      assert IsCloser(At(w, t)) || m == Some(t);
      assert IsCloser(At(w, u)) || m == Some(u);
    }
  }

  lemma StepKeepsDeck(w: World, w': World, a: Action)
    requires DeckInv(w.deck) && CloseIsQuiet(w) && OneEnd(w) && Next(w, w', a)
    ensures DeckInv(w'.deck)
    ensures End in w'.deck.queue && End !in w.deck.queue ==> a.EndQueue? && AboutToEnd(At(w, a.t))
  {
    hide DeckInv, Drain, Work;
    var d := w.deck;
    match a
    case PlayLocked(t, id, launch) =>
      assert At(w, t).InPlay?;
      EnqueueKeeps(d, id, launch);
    case CallStop(t) => BumpKeeps(d);
    case StopForClose(t) => BumpKeeps(d);
    case DrainOne(t) => DrainKeeps(d);
    case EndQueue(t) =>
      if d.worker.Absent? || d.worker.Unstarted? { DismissKeeps(d); }
      else if w'.deck != d { PutEndKeeps(d); }
    case EndStop(t, signalled) => SilenceKeeps(d, signalled);
    case Joined(t, inTime) => if inTime { DismissKeeps(d); }
    case WorkerTurn(turn) => WorkKeeps(d, turn, w.requested);
    case _ =>
  }

  lemma SilenceKeeps(d: Deck, signalled: bool)
    requires DeckInv(d)
    ensures DeckInv(Silence(d, signalled))
  {
  }

  lemma DismissKeeps(d: Deck)
    requires DeckInv(d) && !InHand(d.worker)
    ensures DeckInv(Dismiss(d))
  {
  }

  lemma StepKeepsOneEnd(w: World, w': World, a: Action)
    requires DeckInv(w.deck) && CloseIsQuiet(w) && OneCloser(w) && OneEnd(w) && Next(w, w', a)
    ensures OneEnd(w')
  {
    hide Next, At, DeckInv;
    OthersStay(w, w', a);
    Flags(w, w', a);
    ClosingStep(w, w', a);
    StepKeepsDeck(w, w', a);
    var m := Mover(a);
    if m.Some? { MoverStep(w, w', a, m.value); }
    forall t: Tid | AboutToEnd(At(w', t))
      ensures w'.closed && End !in w'.deck.queue
    {
      assert AboutToEnd(At(w, t)) || (m == Some(t) && a.MarkClosed? && !w.closed);
      if a.EndQueue? { assert IsCloser(At(w, t)) && IsCloser(At(w, a.t)); }
    }
  }

  lemma StepKeepsLock(w: World, w': World, a: Action)
    requires LockSound(w) && Next(w, w', a)
    ensures LockSound(w')
  {
    hide Next, At;
    OthersStay(w, w', a);
    Flags(w, w', a);
    var m := Mover(a);
    if m.Some? { LockStep(w, w', a, m.value); }
  }

  lemma StepKeepsSink(w: World, w': World, a: Action)
    requires SinkSound(w) && LockSound(w) && Next(w, w', a)
    ensures SinkSound(w')
  {
  }

  lemma NextKeepsInv(w: World, w': World, a: Action)
    requires Inv(w) && Next(w, w', a)
    ensures Inv(w')
  {
    hide Next, DeckInv, CloseIsQuiet, OneCloser, OneEnd, LockSound, SinkSound;
    StepKeepsDeck(w, w', a);
    StepKeepsQuiet(w, w', a);
    StepKeepsOneCloser(w, w', a);
    StepKeepsOneEnd(w, w', a);
    StepKeepsLock(w, w', a);
    StepKeepsSink(w, w', a);
  }

  // ----- every run -----

  ghost predicate Step(w: World, w': World) {
    exists a :: Next(w, w', a)
  }

  ghost predicate Run(run: seq<World>) {
    && |run| > 0 && run[0] == Start
    && forall i :: 0 <= i < |run| - 1 ==> Step(run[i], run[i + 1])
  }

  lemma {:induction false} RunKeepsInv(run: seq<World>, i: nat)
    requires Run(run) && i < |run|
    ensures Inv(run[i])
  {
    if i == 0 {
      StartInv();
    } else {
      RunKeepsInv(run, i - 1);
      assert Step(run[i - 1], run[i - 1 + 1]);
      var a :| Next(run[i - 1], run[i], a);
      NextKeepsInv(run[i - 1], run[i], a);
    }
  }

  lemma NoClips(q: seq<Entry>)
    ensures Clips(q) == 0 <==> forall e :: e in q ==> e == End
  {
    if q != [] && Clips(q) == 0 {
      NoClips(q[1..]);
      forall e | e in q ensures e == End { assert e == q[0] || e in q[1..]; }
    }
    if q != [] && (forall e :: e in q ==> e == End) {
      assert q[0] in q;
      forall e | e in q[1..] ensures e == End { assert e in q; }
      NoClips(q[1..]);
    }
  }

  /** `_pending` is the clips queued plus the one in flight; idle is set exactly when
      nothing is queued and nothing is in flight. */
  lemma PendingIsExact(run: seq<World>, i: nat)
    requires Run(run) && i < |run|
    ensures var d := run[i].deck;
      && d.pending == Clips(d.queue) + InHandCount(d.worker)
      && (d.idle <==> (forall e :: e in d.queue ==> e == End) && !InHand(d.worker))
  {
    RunKeepsInv(run, i);
    NoClips(run[i].deck.queue);
  }

  /** Every clip that is dropped or finished was counted: the clamp never fires. */
  lemma ClampNeverFires(run: seq<World>, i: nat, a: Action)
    requires Run(run) && i < |run| - 1 && Next(run[i], run[i + 1], a)
    ensures var d := run[i].deck; var d' := run[i + 1].deck;
      && (a.DrainOne? ==> d'.pending == d.pending - (Clips(d.queue) - Clips(d'.queue)))
      && (a.WorkerTurn? && a.turn.Finishes? ==> d'.pending == d.pending - 1)
  {
    hide At, CloseIsQuiet, OneCloser, OneEnd, LockSound, TicketsSound, LogSound;
    RunKeepsInv(run, i);
    DrainKeeps(run[i].deck);
  }

  /** The close sentinel is put once and is always last: no clip ever waits behind it. */
  lemma SentinelIsLast(run: seq<World>, i: nat, k: nat)
    requires Run(run) && i < |run| && k < |run[i].deck.queue| && run[i].deck.queue[k] == End
    ensures k == |run[i].deck.queue| - 1
    ensures run[i].closed && Quiet(run[i])
  {
    RunKeepsInv(run, i);
  }

  /** A clip queued before a stop starts no sink after it. */
  lemma StoppedClipsStaySilent(run: seq<World>, n: nat, i: nat, j: nat, k: nat, id: ClipId)
    requires Run(run) && n < |run| && i < j < k < |run[n].deck.log|
    requires run[n].deck.log[i] == Queued(id) && run[n].deck.log[j] == Stopped
    ensures run[n].deck.log[k] != SinkStarted(id)
  {
    var log := run[n].deck.log;
    RunKeepsInv(run, n);
    assert log[..k][i] == Queued(id) && log[..k][j] == Stopped;
  }

  /** Once a stop has returned, a sink still running for a clip queued before it has
      been signalled, or could not be. */
  lemma StopSilences(run: seq<World>, i: nat)
    requires Run(run) && i < |run|
    ensures var d := run[i].deck;
      d.worker.Sounding? && run[i].lock == None && StoppedAfter(d.log, d.worker.clip.id) ==> d.interrupted || d.escaped
  {
    RunKeepsInv(run, i);
  }

  /** The same, with the actions named. */
  ghost predicate RunBy(run: seq<World>, acts: seq<Action>) {
    && |run| == |acts| + 1 && run[0] == Start
    && forall i :: 0 <= i < |acts| ==> Next(run[i], run[i + 1], acts[i])
  }

  lemma ActsAreSteps(run: seq<World>, acts: seq<Action>)
    requires RunBy(run, acts)
    ensures Run(run)
  {
    hide Next;
    forall i | 0 <= i < |run| - 1 ensures Step(run[i], run[i + 1]) { assert Next(run[i], run[i + 1], acts[i]); }
  }

  lemma EscapeStep(w: World, w': World, a: Action)
    requires Next(w, w', a) && w'.deck.escaped && !w.deck.escaped
    ensures a.EndStop? && !a.signalled
  {
    hide At;
  }

  /** If every stop so far could signal, then once no stop is in progress every sink still
      running for a clip queued before one has been signalled. */
  lemma {:induction false} SignallingStopsSilence(run: seq<World>, acts: seq<Action>, i: nat)
    requires RunBy(run, acts) && i < |run|
    requires forall k :: 0 <= k < i && acts[k].EndStop? ==> acts[k].signalled
    ensures !run[i].deck.escaped
    ensures var d := run[i].deck;
      d.worker.Sounding? && run[i].lock == None && StoppedAfter(d.log, d.worker.clip.id) ==> d.interrupted
  {
    hide Next, StoppedAfter;
    if i > 0 {
      SignallingStopsSilence(run, acts, i - 1);
      assert Next(run[i - 1], run[i - 1 + 1], acts[i - 1]);
      if run[i].deck.escaped { EscapeStep(run[i - 1], run[i], acts[i - 1]); }
    }
    ActsAreSteps(run, acts);
    StopSilences(run, i);
  }

  /** A worker that could not be started is never tried again: until a close is requested
      no sink starts, whatever is queued. */
  lemma {:induction false} UnstartedNeverPlays(run: seq<World>, i: nat, j: nat)
    requires Run(run) && i <= j < |run| && run[i].deck.worker == Unstarted && !run[j].requested
    ensures run[j].deck.worker == Unstarted && !run[i].requested
    ensures SilentSince(run[i].deck.log, run[j].deck.log)
  {
    hide Next, Inv;
    if i < j {
      assert Step(run[j - 1], run[j - 1 + 1]);
      var a :| Next(run[j - 1], run[j], a);
      RunKeepsInv(run, j - 1);
      UnstartedStep(run[j - 1], run[j], a);
      UnstartedNeverPlays(run, i, j - 1);
    }
  }

  /** No sink started since. */
  predicate SilentSince(before: seq<Happening>, log: seq<Happening>) {
    before <= log && forall k :: |before| <= k < |log| ==> !log[k].SinkStarted?
  }

  lemma CloserRequested(w: World, w': World, a: Action)
    requires CloseIsQuiet(w) && Next(w, w', a) && (a.EndQueue? || a.Joined?)
    ensures w'.requested
  {
    assert IsCloser(At(w, a.t));
  }

  lemma UnstartedStep(w: World, w': World, a: Action)
    requires Inv(w) && Next(w, w', a) && !w'.requested
    ensures !w.requested
    ensures w.deck.worker == Unstarted ==> w'.deck.worker == Unstarted && SilentSince(w.deck.log, w'.deck.log)
  {
    hide DeckInv, LockSound, SinkSound, OneCloser;
    if a.EndQueue? || a.Joined? { CloserRequested(w, w', a); }
  }

  // ----- the object -----

  /** The whole drain loop: everything up to the sentinel is dropped. */
  function DrainAll(d: Deck): Deck
    decreases |d.queue|
  {
    if d.queue == [] || d.queue[0].End? then Drain(d) else DrainAll(Drain(d))
  }

  /** After the loop no clip is queued, and only the one in flight is pending. */
  lemma {:induction false} DrainAllEmpties(d: Deck)
    requires DeckInv(d)
    ensures var e := DrainAll(d);
      && DeckInv(e)
      && (forall x :: x in e.queue ==> x == End)
      && e.pending == InHandCount(d.worker) && e.worker == d.worker && e.log == d.log
    decreases |d.queue|
  {
    DrainKeeps(d);
    if d.queue != [] && d.queue[0].Clip? {
      DrainAllEmpties(Drain(d));
    } else {
      NoClips(d.queue);
    }
  }

  /** The player as a thread that holds its lock sees it. */
  /** A whole `stop` with the worker standing still. */
  lemma StopLeaves(d: Deck, signalled: bool)
    requires DeckInv(d)
    ensures var e := Silence(DrainAll(Bump(d)), signalled);
      && DeckInv(e) && (forall x :: x in e.queue ==> x == End) && e.pending == InHandCount(e.worker)
      && (e.worker.Sounding? ==> if signalled then e.interrupted else e.escaped)
  {
    BumpKeeps(d);
    DrainAllEmpties(Bump(d));
    hide Bump, DrainAll, DeckInv;
    SilenceKeeps(DrainAll(Bump(d)), signalled);
  }

  class Player {
    var queue: seq<Entry>
    var generation: nat
    var pending: int
    var idle: bool
    var worker: Worker
    var interrupted: bool
    var escaped: bool
    ghost var log: seq<Happening>

    ghost function Snapshot(): Deck
      reads this
      requires pending >= 0
    {
      Deck(queue, generation, pending, idle, worker, interrupted, escaped, log)
    }

    constructor ()
      ensures pending >= 0 && Snapshot() == EmptyDeck
    {
      queue, generation, pending, idle := [], 0, 0, true;
      worker, interrupted, escaped, log := Absent, false, false, [];
    }

    method ClipDoneLocked()
      requires pending >= 0
      modifies this`pending, this`idle
      ensures pending >= 0 && Snapshot() == ClipDone(old(Snapshot()))
    {
      pending := pending - 1;
      if pending <= 0 {
        pending := 0;
        idle := true;
      }
    }

    /** The clip is the last in the queue, stamped and counted, unless the first worker
        could not be started; it is the same to `play` whether a worker is there later. */
    method PlayLocked(id: ClipId, launch: Launch) returns (raised: bool)
      requires pending >= 0
      modifies this
      ensures raised <==> old(worker) == Absent && launch != Runs
      ensures raised ==> queue == old(queue) && pending == old(pending) && idle == old(idle) && log == old(log)
      ensures !raised ==>
        queue == old(queue) + [Clip(Ticket(id, generation))] && pending == old(pending) + 1 && !idle
      ensures generation == old(generation) && (worker != Absent || launch == Refused)
      ensures pending >= 0 && Snapshot() == Enqueue(old(Snapshot()), id, launch)
    {
      raised := false;
      if worker == Absent {
        if launch == Refused { return true; }
        if launch == OnlyStored {
          worker := Unstarted;
          return true;
        }
        worker := Waiting;
      }
      pending := pending + 1;
      idle := false;
      queue := queue + [Clip(Ticket(id, generation))];
      log := log + [Queued(id)];
    }

    method DrainQueue()
      requires pending >= 0
      modifies this`queue, this`pending, this`idle
      ensures pending >= 0 && Snapshot() == DrainAll(old(Snapshot()))
    {
      ghost var all := DrainAll(Snapshot());
      var drained := false;
      while queue != [] && !drained
        invariant pending >= 0
        invariant (if drained then Snapshot() else DrainAll(Snapshot())) == all
        decreases !drained, |queue|
      {
        var item := queue[0];
        queue := queue[1..];
        if item.End? {
          queue := queue + [item];
          drained := true;
        } else {
          ClipDoneLocked();
        }
      }
    }

    /** `stop`, with the worker standing still: no clip stays queued, only the one in
        flight stays pending, and a running sink is signalled, or known not to be. */
    method Stop(signalled: bool)
      requires pending >= 0 && DeckInv(Snapshot())
      modifies this
      ensures pending >= 0 && DeckInv(Snapshot())
      ensures Snapshot() == Silence(DrainAll(Bump(old(Snapshot()))), signalled)
      ensures (forall x :: x in queue ==> x == End) && pending == InHandCount(worker)
      ensures worker.Sounding? ==> if signalled then interrupted else escaped
    {
      hide DeckInv, DrainAll, InHandCount;
      ghost var left := Silence(DrainAll(Bump(Snapshot())), signalled);
      StopLeaves(Snapshot(), signalled);
      generation := generation + 1;
      log := log + [Stopped];
      DrainQueue();
      if worker.Sounding? {
        if signalled { interrupted := true; } else { escaped := true; }
      }
      assert Snapshot() == left;
    }
  }
}
