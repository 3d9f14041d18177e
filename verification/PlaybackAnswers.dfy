/** What becomes of a clip that is played: it starts a sink, once and in its turn, unless it
    is stopped, refused after a close request, given up early or its sink cannot start.
    And what becomes of the worker: a close sends it home, and nothing plays after that.
  */
module PlaybackAnswers {
  import opened Basics
  import opened Sequences
  import opened Playback

  // ----- in turn, and once -----

  function QueuedIds(log: seq<Happening>): seq<ClipId> {
    if log == [] then []
    else QueuedIds(log[..|log| - 1]) + if log[|log| - 1].Queued? then [log[|log| - 1].id] else []
  }

  function StartedIds(log: seq<Happening>): seq<ClipId> {
    if log == [] then []
    else StartedIds(log[..|log| - 1]) + if log[|log| - 1].SinkStarted? then [log[|log| - 1].id] else []
  }

  function IdsOf(q: seq<Entry>): seq<ClipId> {
    if q == [] then [] else (if q[0].Clip? then [q[0].ticket.id] else []) + IdsOf(q[1..])
  }

  /** The clips that may still start: the one in hand, then the queue. */
  function Upcoming(d: Deck): seq<ClipId> {
    (if d.worker.Taken? || d.worker.Admitted? then [d.worker.clip.id] else []) + IdsOf(d.queue)
  }

  predicate Turns(started: seq<ClipId>, upcoming: seq<ClipId>, queued: seq<ClipId>) {
    Subsequence(started + upcoming, queued) && Distinct(queued)
  }

  predicate InTurn(d: Deck) {
    Turns(StartedIds(d.log), Upcoming(d), QueuedIds(d.log))
  }

  lemma IdsGrow(log: seq<Happening>, x: Happening)
    ensures QueuedIds(log + [x]) == if x.Queued? then QueuedIds(log) + [x.id] else QueuedIds(log)
    ensures StartedIds(log + [x]) == if x.SinkStarted? then StartedIds(log) + [x.id] else StartedIds(log)
  {
    assert (log + [x])[..|log|] == log;
  }

  lemma {:induction false} IdsAppend(q: seq<Entry>, e: Entry)
    ensures IdsOf(q + [e]) == if e.Clip? then IdsOf(q) + [e.ticket.id] else IdsOf(q)
  {
    if q == [] {
      assert q + [e] == [e] && [e][1..] == [];
    } else {
      IdsAppend(q[1..], e);
      assert (q + [e])[0] == q[0] && (q + [e])[1..] == q[1..] + [e];
    }
  }

  lemma {:induction false} OnlyQueued(log: seq<Happening>, id: ClipId)
    ensures id in QueuedIds(log) <==> Queued(id) in log
    ensures id in StartedIds(log) <==> SinkStarted(id) in log
  {
    if log != [] {
      var last := |log| - 1;
      OnlyQueued(log[..last], id);
      assert log == log[..last] + [log[last]];
    }
  }

  // ----- what the steps do to three sequences -----

  lemma NewComesLast(started: seq<ClipId>, upcoming: seq<ClipId>, queued: seq<ClipId>, id: ClipId)
    requires Turns(started, upcoming, queued) && id !in queued
    ensures Turns(started, upcoming + [id], queued + [id])
  {
    BothGrow(started + upcoming, queued, id);
    assert (started + upcoming) + [id] == started + (upcoming + [id]);
  }

  /** A clip that leaves without starting. */
  lemma OneLeaves(started: seq<ClipId>, head: seq<ClipId>, x: ClipId, tail: seq<ClipId>, queued: seq<ClipId>)
    requires Turns(started, head + [x] + tail, queued)
    ensures Turns(started, head + tail, queued)
  {
    hide Subsequence;
    assert started + (head + [x] + tail) == (started + head) + [x] + tail;
    LeftOut(started + head, x, tail, queued);
    assert started + (head + tail) == (started + head) + tail;
  }

  lemma FirstStarts(started: seq<ClipId>, x: ClipId, tail: seq<ClipId>, queued: seq<ClipId>)
    requires Turns(started, [x] + tail, queued)
    ensures Turns(started + [x], tail, queued)
  {
    assert (started + [x]) + tail == started + ([x] + tail);
  }

  function HandIds(k: Worker): seq<ClipId> {
    if k.Taken? || k.Admitted? then [k.clip.id] else []
  }

  lemma EnqueueInTurn(d: Deck, id: ClipId, launch: Launch)
    requires InTurn(d) && Queued(id) !in d.log
    ensures InTurn(Enqueue(d, id, launch))
  {
    hide Turns;
    UpcomingGrows(d, id, launch);
    IdsGrow(d.log, Queued(id));
    OnlyQueued(d.log, id);
    hide Upcoming, QueuedIds, StartedIds;
    if Enqueue(d, id, launch).log != d.log {
      NewComesLast(StartedIds(d.log), Upcoming(d), QueuedIds(d.log), id);
    }
  }

  lemma UpcomingGrows(d: Deck, id: ClipId, launch: Launch)
    ensures var d' := Enqueue(d, id, launch);
      if d'.log == d.log then Upcoming(d') == Upcoming(d)
      else d'.log == d.log + [Queued(id)] && Upcoming(d') == Upcoming(d) + [id]
  {
    IdsAppend(d.queue, Clip(Ticket(id, d.generation)));
    hide IdsOf;
    assert HandIds(d.worker) + (IdsOf(d.queue) + [id]) == Upcoming(d) + [id];
  }

  lemma BumpInTurn(d: Deck)
    requires InTurn(d)
    ensures InTurn(Bump(d))
  {
    hide Turns;
    IdsGrow(d.log, Stopped);
    assert Upcoming(Bump(d)) == Upcoming(d);
  }

  lemma DrainInTurn(d: Deck)
    requires InTurn(d)
    ensures InTurn(Drain(d))
  {
    hide Turns, QueuedIds, StartedIds;
    var d', hand := Drain(d), HandIds(d.worker);
    if d.queue != [] && d.queue[0].Clip? {
      var x, tail := d.queue[0].ticket.id, IdsOf(d.queue[1..]);
      assert Upcoming(d) == hand + [x] + tail && Upcoming(d') == hand + tail;
      OneLeaves(StartedIds(d.log), hand, x, tail, QueuedIds(d.log));
    } else if d.queue != [] {
      IdsAppend(d.queue[1..], End);
      assert [] + IdsOf(d.queue[1..]) == IdsOf(d.queue[1..]);
      assert Upcoming(d') == Upcoming(d);
    }
  }

  lemma WorkInTurn(d: Deck, turn: Turn, requested: bool)
    requires InTurn(d) && CanWork(d, turn)
    ensures InTurn(Work(d, turn, requested))
  {
    hide Turns, QueuedIds, StartedIds, IdsOf;
    var d' := Work(d, turn, requested);
    if turn.Takes? {
      TakesInTurn(d, d');
    } else if d'.log != d.log {
      StartInTurn(d, d');
    } else if (d.worker.Taken? || d.worker.Admitted?) && d'.worker.Finishing? {
      LetGo(d, d');
    } else {
      assert Upcoming(d') == Upcoming(d);
    }
  }

  lemma TakesInTurn(d: Deck, d': Deck)
    requires InTurn(d) && CanWork(d, Takes) && d' == Work(d, Takes, false)
    ensures InTurn(d')
  {
    hide Turns, QueuedIds, StartedIds;
    assert Upcoming(d') == Upcoming(d);
  }

  lemma StartInTurn(d: Deck, d': Deck)
    requires InTurn(d) && d.worker.Admitted? && d'.worker.Sounding? && d'.queue == d.queue
    requires d'.log == d.log + [SinkStarted(d.worker.clip.id)]
    ensures InTurn(d')
  {
    var id := d.worker.clip.id;
    IdsGrow(d.log, SinkStarted(id));
    hide Turns, QueuedIds, StartedIds;
    assert Upcoming(d) == [id] + IdsOf(d.queue) && Upcoming(d') == IdsOf(d.queue);
    FirstStarts(StartedIds(d.log), id, IdsOf(d.queue), QueuedIds(d.log));
  }

  lemma LetGo(d: Deck, d': Deck)
    requires InTurn(d) && (d.worker.Taken? || d.worker.Admitted?)
    requires d'.log == d.log && d'.queue == d.queue && d'.worker.Finishing?
    ensures InTurn(d')
  {
    hide Turns, QueuedIds, StartedIds;
    var id, tail := d.worker.clip.id, IdsOf(d.queue);
    assert Upcoming(d) == [] + [id] + tail && Upcoming(d') == [] + tail;
    OneLeaves(StartedIds(d.log), [], id, tail, QueuedIds(d.log));
  }

  lemma StepInTurn(w: World, w': World, a: Action)
    requires InTurn(w.deck) && Next(w, w', a)
    requires DeckInv(w.deck)
    ensures InTurn(w'.deck)
  {
    hide InTurn, Drain, Work, DeckInv;
    var d := w.deck;
    match a
    case PlayLocked(t, id, launch) => EnqueueInTurn(d, id, launch);
    case CallStop(t) => BumpInTurn(d);
    case StopForClose(t) => BumpInTurn(d);
    case DrainOne(t) => DrainInTurn(d);
    case WorkerTurn(turn) => WorkInTurn(d, turn, w.requested);
    case _ => QuietInTurn(w, w', a);
  }

  lemma QuietInTurn(w: World, w': World, a: Action)
    requires InTurn(w.deck) && Next(w, w', a)
    requires !a.PlayLocked? && !a.CallStop? && !a.StopForClose? && !a.DrainOne? && !a.WorkerTurn?
    ensures InTurn(w'.deck)
  {
    QuietKeepsDeck(w, w', a);
    hide Turns, QueuedIds, StartedIds, Next;
    IdsAppend(w.deck.queue, End);
    assert Upcoming(w'.deck) == Upcoming(w.deck);
  }

  lemma QuietKeepsDeck(w: World, w': World, a: Action)
    requires Next(w, w', a)
    requires !a.PlayLocked? && !a.CallStop? && !a.StopForClose? && !a.DrainOne? && !a.WorkerTurn?
    ensures w'.deck.log == w.deck.log && (w'.deck.queue == w.deck.queue || w'.deck.queue == w.deck.queue + [End])
    ensures w'.deck.worker == w.deck.worker || (!InHand(w.deck.worker) && !InHand(w'.deck.worker))
  {
    hide At;
  }

  lemma {:induction false} RunInTurn(run: seq<World>, acts: seq<Action>, i: nat)
    requires RunBy(run, acts) && i < |run|
    ensures InTurn(run[i].deck)
  {
    hide Next, InTurn;
    if i == 0 {
      assert InTurn(Start.deck) by { NothingYet(); }
    } else {
      RunInTurn(run, acts, i - 1);
      ActsAreSteps(run, acts);
      RunKeepsInv(run, i - 1);
      assert Next(run[i - 1], run[i - 1 + 1], acts[i - 1]);
      StepInTurn(run[i - 1], run[i], acts[i - 1]);
    }
  }

  lemma NothingYet()
    ensures InTurn(EmptyDeck)
  {
  }

  /** Sinks start in the order in which their clips were queued, and no clip starts one
      twice. */
  lemma SinksStartInTurn(run: seq<World>, acts: seq<Action>, i: nat)
    requires RunBy(run, acts) && i < |run|
    ensures Subsequence(StartedIds(run[i].deck.log), QueuedIds(run[i].deck.log))
    ensures Distinct(StartedIds(run[i].deck.log))
  {
    var d := run[i].deck;
    RunInTurn(run, acts, i);
    hide Subsequence;
    TakeFront(StartedIds(d.log), Upcoming(d), QueuedIds(d.log));
    StaysDistinct(StartedIds(d.log), QueuedIds(d.log));
  }

  lemma {:induction false} TakeFront(a: seq<ClipId>, c: seq<ClipId>, b: seq<ClipId>)
    requires Subsequence(a + c, b)
    ensures Subsequence(a, b)
    decreases |c|
  {
    if c == [] {
      assert a + c == a;
    } else {
      var last := |c| - 1;
      assert a + c == (a + c[..last]) + [c[last]] + [];
      LeftOut(a + c[..last], c[last], [], b);
      assert (a + c[..last]) + [] == a + c[..last];
      TakeFront(a, c[..last], b);
    }
  }

  // ----- a clip that is played -----

  /** Why a clip may end without a sink: its thread was refused after a close request, or
      left before the sink was due, or a stop had come since it was queued, or the sink
      could not start. */
  predicate GivesUp(w: World, a: Action, c: Ticket) {
    && a.WorkerTurn? && CanWork(w.deck, a.turn) && InHand(w.deck.worker) && w.deck.worker.clip == c
    && match a.turn
       case Enters => w.requested
       case Leaves => w.deck.worker.Admitted?
       case Starts(succeeds) => !succeeds || StoppedAfter(w.deck.log, c.id)
       case _ => false
  }

  ghost predicate GaveUp(run: seq<World>, acts: seq<Action>, i: nat, c: Ticket) {
    exists k: nat :: k < i && k < |acts| < |run| && GivesUp(run[k], acts[k], c)
  }

  /** Whoever is past the start of its sink has started it, or given up. */
  ghost predicate Accounted(run: seq<World>, acts: seq<Action>, i: nat)
    requires i < |run|
  {
    var d := run[i].deck;
    && (d.worker.Sounding? ==> SinkStarted(d.worker.clip.id) in d.log)
    && (d.worker.Finishing? ==> SinkStarted(d.worker.clip.id) in d.log || GaveUp(run, acts, i, d.worker.clip))
  }

  lemma WorkAccounts(w: World, w': World, turn: Turn)
    requires Inv(w) && Next(w, w', WorkerTurn(turn))
    ensures w'.deck.worker.Sounding? ==> SinkStarted(w'.deck.worker.clip.id) in w'.deck.log
    ensures w'.deck.worker.Finishing? ==>
      InHand(w.deck.worker) && w.deck.worker.clip == w'.deck.worker.clip
      && (w.deck.worker.Sounding? || GivesUp(w, WorkerTurn(turn), w'.deck.worker.clip))
    ensures forall x :: x in w.deck.log ==> x in w'.deck.log
  {
    hide StoppedAfter, LogSound, CloseIsQuiet, OneCloser, OneEnd, LockSound;
  }

  lemma OthersLeaveWorker(w: World, w': World, a: Action)
    requires Next(w, w', a) && !a.WorkerTurn?
    ensures InHand(w'.deck.worker) ==> w'.deck.worker == w.deck.worker
    ensures forall x :: x in w.deck.log ==> x in w'.deck.log
  {
    hide At;
  }

  lemma GaveUpLater(run: seq<World>, acts: seq<Action>, i: nat, c: Ticket)
    requires GaveUp(run, acts, i, c)
    ensures GaveUp(run, acts, i + 1, c)
  {
    var k: nat :| k < i && k < |acts| < |run| && GivesUp(run[k], acts[k], c);
    assert k < i + 1;
  }

  lemma {:induction false} RunAccounts(run: seq<World>, acts: seq<Action>, i: nat)
    requires RunBy(run, acts) && i < |run|
    ensures Accounted(run, acts, i)
  {
    hide Next, Inv, GivesUp;
    if i > 0 {
      RunAccounts(run, acts, i - 1);
      ActsAreSteps(run, acts);
      RunKeepsInv(run, i - 1);
      var w, w', a := run[i - 1], run[i], acts[i - 1];
      assert Next(w, run[i - 1 + 1], a);
      if a.WorkerTurn? {
        WorkAccounts(w, w', a.turn);
        if w'.deck.worker.Finishing? && !w.deck.worker.Sounding? {
          assert GivesUp(run[i - 1], acts[i - 1], w'.deck.worker.clip);
        }
      } else {
        OthersLeaveWorker(w, w', a);
        if w.deck.worker.Finishing? && GaveUp(run, acts, i - 1, w.deck.worker.clip) {
          GaveUpLater(run, acts, i - 1, w.deck.worker.clip);
        }
      }
    }
  }

  /** A clip that the worker is done with has started its sink, unless its turn was refused
      after a close request, or it was left early, or stopped since it was queued, or its
      sink could not start. */
  lemma FinishedClipWasPlayed(run: seq<World>, acts: seq<Action>, i: nat)
    requires RunBy(run, acts) && i < |acts| && acts[i].WorkerTurn? && acts[i].turn.Finishes?
    ensures run[i].deck.worker.Finishing?
    ensures var c := run[i].deck.worker.clip;
      SinkStarted(c.id) in run[i].deck.log || GaveUp(run, acts, i, c)
  {
    RunAccounts(run, acts, i);
    assert Next(run[i], run[i + 1], acts[i]);
  }

  // ----- the worker gets on -----

  function WorkLeft(d: Deck): nat {
    5 * |d.queue| +
    match d.worker
    case Taken(_) => 4
    case Admitted(_) => 3
    case Sounding(_) => 2
    case Finishing(_) => 1
    case _ => 0
  }

  /** Each of its turns brings the worker nearer to an empty queue, and unless that is
      reached, or the sentinel taken, it has one. */
  lemma WorkerGetsOn(d: Deck, turn: Turn, requested: bool)
    requires CanWork(d, turn)
    ensures WorkLeft(Work(d, turn, requested)) < WorkLeft(d)
  {
  }

  lemma WorkerHasATurn(d: Deck, requested: bool) returns (turn: Turn)
    requires InHand(d.worker) || (d.worker == Waiting && d.queue != [])
    ensures CanWork(d, turn)
  {
    turn := match d.worker
      case Taken(_) => Enters
      case Admitted(_) => Starts(true)
      case Sounding(_) => Leaves
      case Finishing(_) => Finishes(false)
      case _ => Takes;
  }

  predicate Dies(a: Action) {
    a.WorkerTurn? && a.turn.Finishes? && a.turn.dies
  }

  lemma GoneStep(w: World, w': World, a: Action)
    requires Inv(w) && Next(w, w', a) && !w.deck.worker.Gone? && w'.deck.worker.Gone?
    ensures Dies(a) || w.closed
  {
    hide At, DeckInv;
  }

  /** A worker that no exception ended is there until a close has put the sentinel. */
  lemma {:induction false} WorkerLivesUntilClose(run: seq<World>, acts: seq<Action>, i: nat)
    requires RunBy(run, acts) && i < |run| && run[i].deck.worker.Gone?
    requires forall k :: 0 <= k < i ==> !Dies(acts[k])
    ensures run[i].closed
  {
    if i > 0 {
      hide Inv, Next, Dies;
      ActsAreSteps(run, acts);
      RunKeepsInv(run, i - 1);
      assert Next(run[i - 1], run[i - 1 + 1], acts[i - 1]);
      Flags(run[i - 1], run[i], acts[i - 1]);
      if run[i - 1].deck.worker.Gone? {
        WorkerLivesUntilClose(run, acts, i - 1);
      } else {
        GoneStep(run[i - 1], run[i], acts[i - 1]);
      }
    }
  }

  // ----- close sends the worker home -----

  predicate NoWorker(d: Deck) {
    d.worker.Absent? || d.worker.Unstarted?
  }

  /** The worker is gone, or will come to the sentinel. */
  predicate Leaving(d: Deck) {
    d.worker.Gone? || End in d.queue
  }

  ghost predicate SentHome(w: World) {
    && (forall t: Tid :: IsCloser(At(w, t)) && !At(w, t).CloseMarking? ==> w.closed)
    && (forall t: Tid :: At(w, t).CloseJoining? ==> !NoWorker(w.deck))
    && (w.closed && NobodyToEnd(w) ==> NoWorker(w.deck) || Leaving(w.deck))
  }

  ghost predicate NobodyToEnd(w: World) {
    forall t: Tid :: !AboutToEnd(At(w, t))
  }

  lemma DeckStaysSentHome(w: World, w': World, a: Action)
    requires Next(w, w', a) && (a.PlayLocked? ==> !At(w, a.t).InPlay?)
    requires NoWorker(w.deck) || Leaving(w.deck)
    ensures NoWorker(w'.deck) || Leaving(w'.deck)
  {
    hide At;
    if a.WorkerTurn? {
      WorkSendsHome(w.deck, a.turn, w.requested);
    } else {
      hide Work;
    }
  }

  lemma WorkSendsHome(d: Deck, turn: Turn, requested: bool)
    requires CanWork(d, turn) && (NoWorker(d) || Leaving(d))
    ensures NoWorker(Work(d, turn, requested)) || Leaving(Work(d, turn, requested))
  {
  }

  /** Only the first close puts the sentinel, and it does so before it joins. */
  lemma FirstClosePutsIt(w: World, w': World, a: Action, t: Tid)
    requires Next(w, w', a) && AboutToEnd(At(w, t)) && !AboutToEnd(At(w', t))
    ensures NoWorker(w'.deck) || Leaving(w'.deck)
  {
    assert a.EndQueue? && a.t == t;
  }

  lemma MarkingPromises(w: World, w': World, a: Action)
    requires Next(w, w', a)
    ensures !w.closed && w'.closed ==> a.MarkClosed? && AboutToEnd(At(w', a.t))
  {
  }

  /** What the one who moves was, if it is closing now. */
  lemma CloserStep(w: World, w': World, a: Action, t: Tid)
    requires Next(w, w', a)
    ensures IsCloser(At(w', t)) && !At(w', t).CloseMarking? ==> w'.closed || (IsCloser(At(w, t)) && !At(w, t).CloseMarking?)
    ensures At(w', t).CloseJoining? ==> IsCloser(At(w, t)) && (At(w, t).CloseJoining? || !NoWorker(w'.deck))
    ensures a.EndQueue? ==> IsCloser(At(w, a.t))
    ensures a.Joined? ==> IsCloser(At(w, a.t)) && !At(w', a.t).CloseJoining?
  {
    hide Enqueue, Bump, Drain, Silence, Work;
  }

  lemma WorkerStaysStep(w: World, w': World, a: Action)
    requires Next(w, w', a)
    ensures NoWorker(w'.deck) ==> NoWorker(w.deck) || (a.PlayLocked? && At(w, a.t).InPlay?) || (a.Joined? && a.inTime)
  {
    hide At;
  }

  lemma StepSendsHome(w: World, w': World, a: Action)
    requires Inv(w) && SentHome(w) && Next(w, w', a)
    ensures SentHome(w')
  {
    Flags(w, w', a);
    MarkingPromises(w, w', a);
    OthersStay(w, w', a);
    WorkerStaysStep(w, w', a);
    hide Next, At, DeckInv, OneEnd, LockSound, SinkSound;
    forall t: Tid ensures IsCloser(At(w', t)) && !At(w', t).CloseMarking? ==> w'.closed {
      CloserStep(w, w', a, t);
    }
    forall t: Tid | At(w', t).CloseJoining? ensures !NoWorker(w'.deck) {
      CloserStep(w, w', a, t);
    }
    if w'.closed && NobodyToEnd(w') {
      assert w.closed;
      if NobodyToEnd(w) {
        DeckStaysSentHome(w, w', a);
      } else {
        var t: Tid :| AboutToEnd(At(w, t));
        FirstClosePutsIt(w, w', a, t);
      }
    }
  }

  lemma {:induction false} RunSendsHome(run: seq<World>, acts: seq<Action>, i: nat)
    requires RunBy(run, acts) && i < |run|
    ensures SentHome(run[i])
  {
    if i > 0 {
      hide Next, SentHome, Inv;
      RunSendsHome(run, acts, i - 1);
      ActsAreSteps(run, acts);
      RunKeepsInv(run, i - 1);
      assert Next(run[i - 1], run[i - 1 + 1], acts[i - 1]);
      StepSendsHome(run[i - 1], run[i], acts[i - 1]);
    }
  }

  /** A close that waits for the worker waits for one that is gone, or has a turn to take
      and the sentinel in its queue. */
  lemma JoinedWorkerLeaves(run: seq<World>, acts: seq<Action>, i: nat, t: Tid)
    requires RunBy(run, acts) && i < |run| && At(run[i], t).CloseJoining?
    ensures var d := run[i].deck;
      d.worker.Gone? || (End in d.queue && (InHand(d.worker) || d.worker.Waiting?))
  {
    RunSendsHome(run, acts, i);
    ActsAreSteps(run, acts);
    RunKeepsInv(run, i);
    assert NobodyToEnd(run[i]) by {
      forall u: Tid ensures !AboutToEnd(At(run[i], u)) {
        assert AboutToEnd(At(run[i], u)) ==> IsCloser(At(run[i], u));
      }
    }
  }

  function TurnsIn(acts: seq<Action>): nat {
    if acts == [] then 0
    else TurnsIn(acts[..|acts| - 1]) + if acts[|acts| - 1].WorkerTurn? then 1 else 0
  }

  lemma WorkStep(w: World, w': World, a: Action, t: Tid)
    requires Inv(w) && Next(w, w', a) && At(w, t).CloseJoining? && At(w', t).CloseJoining?
    ensures WorkLeft(w'.deck) + (if a.WorkerTurn? then 1 else 0) <= WorkLeft(w.deck)
  {
    assert IsCloser(At(w, t));
  }

  lemma TurnsGrow(acts: seq<Action>, i: nat, j: nat)
    requires i < j <= |acts|
    ensures TurnsIn(acts[i..j]) == TurnsIn(acts[i..j - 1]) + if acts[j - 1].WorkerTurn? then 1 else 0
  {
    assert acts[i..j][..j - 1 - i] == acts[i..j - 1];
  }

  lemma NoTurnsYet(run: seq<World>, acts: seq<Action>, i: nat)
    requires RunBy(run, acts) && i < |run|
    ensures |run| == |acts| + 1 && TurnsIn(acts[i..i]) == 0
  {
    assert acts[i..i] == [];
  }

  /** And it is gone after as many turns as are left: each clip in the queue takes five. */
  lemma {:induction false} JoinTakes(run: seq<World>, acts: seq<Action>, i: nat, j: nat, t: Tid)
    requires RunBy(run, acts) && i <= j < |run| && forall k :: i <= k <= j ==> At(run[k], t).CloseJoining?
    ensures |run| == |acts| + 1
    ensures TurnsIn(acts[i..j]) + WorkLeft(run[j].deck) <= WorkLeft(run[i].deck)
    decreases j
  {
    hide Next, Inv, WorkLeft, At, RunBy, TurnsIn;
    NoTurnsYet(run, acts, i);
    if i < j {
      JoinTakes(run, acts, i, j - 1, t);
      TurnsGrow(acts, i, j);
      var w, w', a := StepInRun(run, acts, j - 1);
      WorkStep(w, w', a, t);
    }
  }

  /** The close of thread `t` ends, and not because time ran out. */
  predicate CloseEnds(run: seq<World>, acts: seq<Action>, i: nat, t: Tid) {
    && i < |acts| < |run|
    && (acts[i] == Joined(t, true) || (acts[i] == EndQueue(t) && At(run[i + 1], t).Idle?))
  }

  lemma EndingStep(w: World, w': World, a: Action)
    requires Inv(w) && SentHome(w) && Next(w, w', a)
    requires (a.Joined? && a.inTime) || (a.EndQueue? && At(w', a.t).Idle?)
    ensures w'.closed && w'.deck.worker.Absent? && Inv(w')
  {
    NextKeepsInv(w, w', a);
    hide Inv;
    assert IsCloser(At(w, a.t)) && !At(w, a.t).CloseMarking?;
  }

  lemma ClosedStep(w: World, w': World, a: Action)
    requires Inv(w) && Next(w, w', a) && w.closed && w.deck.worker.Absent?
    ensures w'.closed && w'.deck.worker.Absent? && SilentSince(w.deck.log, w'.deck.log)
  {
    hide DeckInv;
  }

  lemma {:induction false} ClosedStaysSilent(run: seq<World>, acts: seq<Action>, i: nat, j: nat)
    requires RunBy(run, acts) && i <= j < |run| && run[i].closed && run[i].deck.worker.Absent?
    ensures run[j].closed && run[j].deck.worker.Absent? && SilentSince(run[i].deck.log, run[j].deck.log)
    decreases j
  {
    hide Inv, Next, SilentSince, RunBy;
    if i < j {
      ClosedStaysSilent(run, acts, i, j - 1);
      var w, w', a := StepInRun(run, acts, j - 1);
      ClosedStep(w, w', a);
      SilentTwice(run[i].deck.log, w.deck.log, w'.deck.log);
    } else {
      SilentTwice(run[i].deck.log, run[i].deck.log, run[i].deck.log);
    }
  }

  lemma StepInRun(run: seq<World>, acts: seq<Action>, k: nat) returns (w: World, w': World, a: Action)
    requires RunBy(run, acts) && k + 1 < |run|
    ensures |run| == |acts| + 1 && w == run[k] && w' == run[k + 1] && a == acts[k]
    ensures Inv(w) && Next(w, w', a)
  {
    w, w', a := run[k], run[k + 1], acts[k];
    ActsAreSteps(run, acts);
    hide Inv, Next;
    RunKeepsInv(run, k);
  }

  lemma SilentTwice(a: seq<Happening>, b: seq<Happening>, c: seq<Happening>)
    ensures SilentSince(a, a)
    ensures SilentSince(a, b) && SilentSince(b, c) ==> SilentSince(a, c)
  {
  }

  /** Once a close has ended in time there is no worker any more, and no sink starts. */
  lemma ClosedPlayerIsSilent(run: seq<World>, acts: seq<Action>, i: nat, t: Tid, j: nat)
    requires RunBy(run, acts) && CloseEnds(run, acts, i, t) && i < j < |run|
    ensures run[j].deck.worker.Absent? && SilentSince(run[i + 1].deck.log, run[j].deck.log)
  {
    ActsAreSteps(run, acts);
    RunKeepsInv(run, i);
    RunSendsHome(run, acts, i);
    assert Next(run[i], run[i + 1], acts[i]);
    hide Inv, Next, SentHome;
    EndingStep(run[i], run[i + 1], acts[i]);
    ClosedStaysSilent(run, acts, i + 1, j);
  }
}
