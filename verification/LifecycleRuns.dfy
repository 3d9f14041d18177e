/** Every interleaving of threads that start, use, publish into and close one
    resource.

    `calls` lists the wrapper calls in progress, over all threads, oldest first, so
    the last call of a thread is the one that is running.
  */
module LifecycleRuns {
  import opened Basics
  import opened Lifecycle

  /** A call in progress and how far it has got. */
  datatype Frame =
    | StartCall                               // inside a `starting` method
    | UseCall                                 // inside a `using` method
    | Allocating(field: Field)                // inside `_publish`, before the allocator returns
    | Allocated(field: Field, handle: Handle) // the allocator returned, nothing is stored yet
    | Published                               // the handle is in its field
    | Notifying                               // in `close`, before its wait
    | Disposing                               // in `close`, running the dispose function
    | Judged(proven: bool)                    // in `close`, before its last locked section

  datatype Call = Call(tid: Tid, frame: Frame)

  /** `fields` are the owner's handle fields; the three sets record which handles
      ever existed, which were released, and which were overwritten in a field. */
  datatype World = World(
    life: Life,
    calls: seq<Call>,
    fields: map<Field, Handle>,
    issued: set<Handle>,
    released: set<Handle>,
    overwritten: set<Handle>)

  predicate IsStarter(f: Frame) {
    f.StartCall? || f.Allocating? || f.Allocated? || f.Published?
  }

  predicate IsCloser(f: Frame) {
    f.Notifying? || f.Disposing? || f.Judged?
  }

  predicate Entered(f: Frame) {
    IsStarter(f) || f.UseCall?
  }

  function One(b: bool): nat {
    if b then 1 else 0
  }

  function Starters(cs: seq<Call>): nat {
    if cs == [] then 0 else Starters(cs[..|cs| - 1]) + One(IsStarter(cs[|cs| - 1].frame))
  }

  function Users(cs: seq<Call>): nat {
    if cs == [] then 0 else Users(cs[..|cs| - 1]) + One(cs[|cs| - 1].frame.UseCall?)
  }

  function Closers(cs: seq<Call>): nat {
    if cs == [] then 0 else Closers(cs[..|cs| - 1]) + One(IsCloser(cs[|cs| - 1].frame))
  }

  function EnteredBy(cs: seq<Call>, t: Tid): nat {
    if cs == [] then 0
    else EnteredBy(cs[..|cs| - 1], t) + One(cs[|cs| - 1].tid == t && Entered(cs[|cs| - 1].frame))
  }

  /** The handles that allocators have returned and nobody has stored yet. */
  function InFlight(cs: seq<Call>): set<Handle> {
    set i | 0 <= i < |cs| && cs[i].frame.Allocated? :: cs[i].frame.handle
  }

  /** Call `i` is what its thread is running. */
  predicate Running(cs: seq<Call>, i: nat) {
    i < |cs| && forall j :: i < j < |cs| ==> cs[j].tid != cs[i].tid
  }

  function Without(cs: seq<Call>, i: nat): seq<Call>
    requires i < |cs|
  {
    cs[..i] + cs[i + 1..]
  }

  // ----- steps -----

  datatype Action =
    | BeginEnter(t: Tid, frame: Frame)
    | AllocatorReturns(i: nat, h: Handle)
    | Store(i: nat)
    | LeaveCall(i: nat)
    | UserReleases(i: nat, field: Field)
    | CallClose(t: Tid)
    | WaitOver(i: nat, drained: bool)
    | DisposeReleases(i: nat, field: Field)
    | Judge(i: nat, raised: bool, complete: bool)
    | FinishClose(i: nat)
    | CallRequestClose

  /** A thread calls a wrapper; a refused call changes nothing. */
  predicate EnterStep(w: World, w': World, t: Tid, f: Frame) {
    && (f.StartCall? || f.UseCall? || f.Allocating?)
    && w' == match Enter(w.life, t, !f.UseCall?)
             case None => w
             case Some(l) => w.(life := l, calls := w.calls + [Call(t, f)])
  }

  predicate AllocateStep(w: World, w': World, i: nat, h: Handle) {
    && Running(w.calls, i) && w.calls[i].frame.Allocating? && h !in w.issued
    && w' == w.(calls := w.calls[i := Call(w.calls[i].tid, Allocated(w.calls[i].frame.field, h))],
                issued := w.issued + {h})
  }

  /** `setattr(self, field, value)`, whatever the field held before. */
  predicate StoreStep(w: World, w': World, i: nat) {
    && Running(w.calls, i) && w.calls[i].frame.Allocated?
    && var f := w.calls[i].frame;
       w' == w.(calls := w.calls[i := Call(w.calls[i].tid, Published)],
                fields := w.fields[f.field := f.handle],
                overwritten := if f.field in w.fields then w.overwritten + {w.fields[f.field]} else w.overwritten)
  }

  /** The `finally` of a wrapper.  A `_publish` whose allocator raised leaves without
      a handle; one whose allocator returned has stored it. */
  predicate LeaveStep(w: World, w': World, i: nat) {
    && Running(w.calls, i)
    && (w.calls[i].frame.StartCall? || w.calls[i].frame.UseCall? || w.calls[i].frame.Allocating? || w.calls[i].frame.Published?)
    && Holds(w.life, w.calls[i].tid, IsStarter(w.calls[i].frame))
    && w' == w.(life := Leave(w.life, w.calls[i].tid, IsStarter(w.calls[i].frame)), calls := Without(w.calls, i))
  }

  function Released(w: World, field: Field): World
    requires field in w.fields
  {
    w.(fields := w.fields - {field}, released := w.released + {w.fields[field]})
  }

  predicate CloseStep(w: World, w': World, t: Tid) {
    var (l, proceeds) := BeginClose(w.life);
    w' == w.(life := l, calls := if proceeds then w.calls + [Call(t, Notifying)] else w.calls)
  }

  /** The wait loop ends: nobody is inside, or the deadline passed, or the
      close-requested hook raised. */
  predicate WaitStep(w: World, w': World, i: nat, drained: bool) {
    && Running(w.calls, i) && w.calls[i].frame.Notifying?
    && (drained ==> Drained(w.life))
    && w' == w.(calls := w.calls[i := Call(w.calls[i].tid, if drained then Disposing else Judged(false))])
  }

  /** The dispose function ends; `complete` is what the owner's `_dispose_complete`
      answers, whatever its fields hold. */
  predicate JudgeStep(w: World, w': World, i: nat, raised: bool, complete: bool) {
    && Running(w.calls, i) && w.calls[i].frame.Disposing?
    && w' == w.(calls := w.calls[i := Call(w.calls[i].tid, Judged(!raised && complete))])
  }

  predicate FinishStep(w: World, w': World, i: nat) {
    && Running(w.calls, i) && w.calls[i].frame.Judged?
    && w' == w.(life := EndClose(w.life, w.calls[i].frame.proven), calls := Without(w.calls, i))
  }

  predicate Next(w: World, w': World, a: Action) {
    match a
    case BeginEnter(t, f) => EnterStep(w, w', t, f)
    case AllocatorReturns(i, h) => AllocateStep(w, w', i, h)
    case Store(i) => StoreStep(w, w', i)
    case LeaveCall(i) => LeaveStep(w, w', i)
    case UserReleases(i, field) =>
      Running(w.calls, i) && Entered(w.calls[i].frame) && field in w.fields && w' == Released(w, field)
    case CallClose(t) => CloseStep(w, w', t)
    case WaitOver(i, drained) => WaitStep(w, w', i, drained)
    case DisposeReleases(i, field) =>
      Running(w.calls, i) && w.calls[i].frame.Disposing? && field in w.fields && w' == Released(w, field)
    case Judge(i, raised, complete) => JudgeStep(w, w', i, raised, complete)
    case FinishClose(i) => FinishStep(w, w', i)
    case CallRequestClose => w' == w.(life := RequestClose(w.life))
  }

  const Start := World(Fresh, [], map[], {}, {}, {})

  // ----- counting calls -----

  lemma CountAppend(cs: seq<Call>, c: Call)
    ensures Starters(cs + [c]) == Starters(cs) + One(IsStarter(c.frame))
    ensures Users(cs + [c]) == Users(cs) + One(c.frame.UseCall?)
    ensures Closers(cs + [c]) == Closers(cs) + One(IsCloser(c.frame))
    ensures forall t :: EnteredBy(cs + [c], t) == EnteredBy(cs, t) + One(c.tid == t && Entered(c.frame))
  {
    assert (cs + [c])[..|cs|] == cs;
  }

  lemma {:induction false} CountConcat(a: seq<Call>, b: seq<Call>)
    ensures Starters(a + b) == Starters(a) + Starters(b)
    ensures Users(a + b) == Users(a) + Users(b)
    ensures Closers(a + b) == Closers(a) + Closers(b)
    ensures forall t :: EnteredBy(a + b, t) == EnteredBy(a, t) + EnteredBy(b, t)
  {
    if b == [] {
      assert a + b == a;
    } else {
      var b', c := b[..|b| - 1], b[|b| - 1];
      CountConcat(a, b');
      CountAppend(a + b', c);
      CountAppend(b', c);
      assert a + b == (a + b') + [c];
      assert b == b' + [c];
    }
  }

  lemma CountSplit(cs: seq<Call>, i: nat)
    requires i < |cs|
    ensures Starters(cs) == Starters(Without(cs, i)) + One(IsStarter(cs[i].frame))
    ensures Users(cs) == Users(Without(cs, i)) + One(cs[i].frame.UseCall?)
    ensures Closers(cs) == Closers(Without(cs, i)) + One(IsCloser(cs[i].frame))
    ensures forall t :: EnteredBy(cs, t) == EnteredBy(Without(cs, i), t) + One(cs[i].tid == t && Entered(cs[i].frame))
  {
    assert cs == (cs[..i] + [cs[i]]) + cs[i + 1..];
    CountAppend(cs[..i], cs[i]);
    CountConcat(cs[..i] + [cs[i]], cs[i + 1..]);
    CountConcat(cs[..i], cs[i + 1..]);
  }

  lemma CountUpdate(cs: seq<Call>, i: nat, c: Call)
    requires i < |cs| && c.tid == cs[i].tid && Entered(c.frame) == Entered(cs[i].frame)
    requires IsStarter(c.frame) == IsStarter(cs[i].frame) && IsCloser(c.frame) == IsCloser(cs[i].frame)
    ensures Starters(cs[i := c]) == Starters(cs)
    ensures Users(cs[i := c]) == Users(cs)
    ensures Closers(cs[i := c]) == Closers(cs)
    ensures forall t :: EnteredBy(cs[i := c], t) == EnteredBy(cs, t)
  {
    CountSplit(cs, i);
    CountSplit(cs[i := c], i);
    assert Without(cs[i := c], i) == Without(cs, i);
  }

  /** Nobody counted means nobody there. */
  lemma {:induction false} NoneCounted(cs: seq<Call>)
    ensures Starters(cs) == 0 && Users(cs) == 0 ==>
              (forall i :: 0 <= i < |cs| ==> !Entered(cs[i].frame)) && forall t :: EnteredBy(cs, t) == 0
    ensures Closers(cs) == 0 ==> forall i :: 0 <= i < |cs| ==> !IsCloser(cs[i].frame)
    ensures Closers(cs) == 1 ==>
              forall i, j :: 0 <= i < j < |cs| ==> !(IsCloser(cs[i].frame) && IsCloser(cs[j].frame))
  {
    if cs != [] {
      NoneCounted(cs[..|cs| - 1]);
    }
  }

  // ----- the invariant -----

  /** The counters are exactly the calls in progress. */
  ghost predicate Counted(w: World) {
    && w.life.starting == Starters(w.calls)
    && w.life.users == Users(w.calls)
    && (forall t :: Count(w.life, t) == EnteredBy(w.calls, t))
    && Closers(w.calls) == One(w.life.disposing)
  }

  ghost predicate ClosersSound(w: World) {
    && (forall i :: 0 <= i < |w.calls| && IsCloser(w.calls[i].frame) ==> w.life.requested)
    && (forall i :: 0 <= i < |w.calls| && (w.calls[i].frame.Disposing? || w.calls[i].frame == Judged(true)) ==>
          Drained(w.life))
    && (w.life.state == Closed ==> w.life.requested && Drained(w.life) && !w.life.disposing)
  }

  /** Every handle an allocator ever returned is still in flight under a counted
      starter, or in its field, or released, or overwritten. */
  ghost predicate HandlesSound(w: World) {
    w.issued == InFlight(w.calls) + w.fields.Values + w.released + w.overwritten
  }

  ghost predicate Inv(w: World) {
    Counted(w) && ClosersSound(w) && HandlesSound(w)
  }

  lemma StartInv()
    ensures Inv(Start)
  {
  }

  // ----- every step keeps it -----

  /** Allocators returning and stores change no count. */
  lemma SameRoleKeepsCounts(w: World, w': World, i: nat, c: Call)
    requires Inv(w) && i < |w.calls| && w'.calls == w.calls[i := c] && w'.life == w.life
    requires c.tid == w.calls[i].tid && Entered(c.frame) == Entered(w.calls[i].frame)
    requires IsStarter(c.frame) == IsStarter(w.calls[i].frame) && IsCloser(c.frame) == IsCloser(w.calls[i].frame)
    ensures Counted(w')
  {
    CountUpdate(w.calls, i, c);
  }

  lemma EnterKeepsInv(w: World, w': World, t: Tid, f: Frame)
    requires Inv(w) && EnterStep(w, w', t, f)
    ensures Inv(w')
  {
    CountAppend(w.calls, Call(t, f));
    DrainedMeansNobody(w);
    assert forall h :: h in InFlight(w'.calls) <==> h in InFlight(w.calls);
  }

  /** With no starter and no user counted, no thread is inside, so the refusal in
      `enter` cannot be passed. */
  lemma DrainedMeansNobody(w: World)
    requires Counted(w)
    ensures Drained(w.life) ==> forall t :: Count(w.life, t) == 0
    ensures Drained(w.life) ==> forall i :: 0 <= i < |w.calls| ==> !Entered(w.calls[i].frame)
    ensures Drained(w.life) ==> InFlight(w.calls) == {}
  {
    NoneCounted(w.calls);
  }

  /** A handle is in flight while its call says so, and no other call holds it. */
  lemma InFlightUpdate(cs: seq<Call>, i: nat, c: Call)
    requires i < |cs|
    ensures c.frame.Allocated? && !cs[i].frame.Allocated? ==>
              InFlight(cs[i := c]) == InFlight(cs) + {c.frame.handle}
    ensures !c.frame.Allocated? && cs[i].frame.Allocated? ==>
              InFlight(cs[i := c]) + {cs[i].frame.handle} == InFlight(cs)
    ensures !c.frame.Allocated? && !cs[i].frame.Allocated? ==> InFlight(cs[i := c]) == InFlight(cs)
  {
    var cs' := cs[i := c];
    forall j | 0 <= j < |cs| && j != i ensures cs'[j] == cs[j] {
    }
    assert cs'[i] == c;
  }

  lemma InFlightWithout(cs: seq<Call>, i: nat)
    requires i < |cs| && !cs[i].frame.Allocated?
    ensures InFlight(Without(cs, i)) == InFlight(cs)
  {
    var cs' := Without(cs, i);
    forall j | 0 <= j < |cs| && j != i ensures cs[j] == cs'[if j < i then j else j - 1] {
    }
    forall j | 0 <= j < |cs'| ensures cs'[j] == cs[if j < i then j else j + 1] {
    }
  }

  lemma AllocateKeepsInv(w: World, w': World, i: nat, h: Handle)
    requires Inv(w) && AllocateStep(w, w', i, h)
    ensures Inv(w')
  {
    SameRoleKeepsCounts(w, w', i, w'.calls[i]);
    InFlightUpdate(w.calls, i, w'.calls[i]);
  }

  lemma StoreKeepsInv(w: World, w': World, i: nat)
    requires Inv(w) && StoreStep(w, w', i)
    ensures Inv(w')
  {
    var f := w.calls[i].frame;
    SameRoleKeepsCounts(w, w', i, w'.calls[i]);
    InFlightUpdate(w.calls, i, w'.calls[i]);
    DrainedMeansNobody(w);
    ValuesAfterStore(w.fields, f.field, f.handle);
  }

  lemma ValuesAfterStore(m: map<Field, Handle>, field: Field, h: Handle)
    ensures m[field := h].Values + (if field in m then {m[field]} else {}) == m.Values + {h}
  {
    var m' := m[field := h];
    forall v | v in m.Values + {h} ensures v in m'.Values + (if field in m then {m[field]} else {}) {
      if v == h {
        assert m'[field] == h;
      } else {
        var k :| k in m && m[k] == v;
        assert k != field ==> m'[k] == v;
      }
    }
  }

  lemma ValuesAfterRelease(m: map<Field, Handle>, field: Field)
    requires field in m
    ensures (m - {field}).Values + {m[field]} == m.Values
  {
    var m' := m - {field};
    forall v | v in m.Values ensures v in m'.Values + {m[field]} {
      var k :| k in m && m[k] == v;
      assert k != field ==> k in m' && m'[k] == v;
    }
  }

  lemma ReleaseKeepsInv(w: World, w': World, field: Field)
    requires Inv(w) && field in w.fields && w' == Released(w, field)
    ensures Inv(w')
  {
    ValuesAfterRelease(w.fields, field);
  }

  lemma LeaveKeepsInv(w: World, w': World, i: nat)
    requires Inv(w) && LeaveStep(w, w', i)
    ensures Inv(w')
  {
    CountSplit(w.calls, i);
    InFlightWithout(w.calls, i);
    DrainedMeansNobody(w);
    var cs' := w'.calls;
    forall j | 0 <= j < |cs'| ensures cs'[j] == w.calls[if j < i then j else j + 1] {
    }
  }

  lemma CloseKeepsInv(w: World, w': World, t: Tid)
    requires Inv(w) && CloseStep(w, w', t)
    ensures Inv(w')
  {
    CountAppend(w.calls, Call(t, Notifying));
    NoneCounted(w.calls);
    assert InFlight(w'.calls) == InFlight(w.calls);
  }

  lemma WaitKeepsInv(w: World, w': World, i: nat, drained: bool)
    requires Inv(w) && WaitStep(w, w', i, drained)
    ensures Inv(w')
  {
    SameRoleKeepsCounts(w, w', i, w'.calls[i]);
    InFlightUpdate(w.calls, i, w'.calls[i]);
  }

  lemma JudgeKeepsInv(w: World, w': World, i: nat, raised: bool, complete: bool)
    requires Inv(w) && JudgeStep(w, w', i, raised, complete)
    ensures Inv(w')
  {
    SameRoleKeepsCounts(w, w', i, w'.calls[i]);
    InFlightUpdate(w.calls, i, w'.calls[i]);
  }

  lemma FinishKeepsInv(w: World, w': World, i: nat)
    requires Inv(w) && FinishStep(w, w', i)
    ensures Inv(w')
  {
    CountSplit(w.calls, i);
    InFlightWithout(w.calls, i);
    NoneCounted(w'.calls);
  }

  lemma NextKeepsInv(w: World, w': World, a: Action)
    requires Inv(w) && Next(w, w', a)
    ensures Inv(w')
  {
    match a
    case BeginEnter(t, f) => EnterKeepsInv(w, w', t, f);
    case AllocatorReturns(i, h) => AllocateKeepsInv(w, w', i, h);
    case Store(i) => StoreKeepsInv(w, w', i);
    case LeaveCall(i) => LeaveKeepsInv(w, w', i);
    case UserReleases(i, field) => ReleaseKeepsInv(w, w', field);
    case CallClose(t) => CloseKeepsInv(w, w', t);
    case WaitOver(i, drained) => WaitKeepsInv(w, w', i, drained);
    case DisposeReleases(i, field) => ReleaseKeepsInv(w, w', field);
    case Judge(i, raised, complete) => JudgeKeepsInv(w, w', i, raised, complete);
    case FinishClose(i) => FinishKeepsInv(w, w', i);
    case CallRequestClose =>
  }

  // ----- whole runs -----

  predicate Run(ws: seq<World>, acts: seq<Action>) {
    && |ws| == |acts| + 1
    && ws[0] == Start
    && forall i :: 0 <= i < |acts| ==> Next(ws[i], ws[i + 1], acts[i])
  }

  lemma {:induction false} RunKeepsInv(ws: seq<World>, acts: seq<Action>, i: nat)
    requires Run(ws, acts) && i < |ws|
    ensures Inv(ws[i])
  {
    if i == 0 {
      StartInv();
    } else {
      RunKeepsInv(ws, acts, i - 1);
      NextKeepsInv(ws[i - 1], ws[i], acts[i - 1]);
    }
  }

  /** The counters tell the truth in every interleaving: they add up to the calls in
      progress, thread by thread, and at most one of those calls is a disposal. */
  lemma CountersAreCalls(ws: seq<World>, acts: seq<Action>, i: nat, t: Tid)
    requires Run(ws, acts) && i < |ws|
    ensures ws[i].life.starting + ws[i].life.users == Starters(ws[i].calls) + Users(ws[i].calls)
    ensures Count(ws[i].life, t) == EnteredBy(ws[i].calls, t)
    ensures forall a, b :: 0 <= a < b < |ws[i].calls| ==>
              !(IsCloser(ws[i].calls[a].frame) && IsCloser(ws[i].calls[b].frame))
  {
    RunKeepsInv(ws, acts, i);
    NoneCounted(ws[i].calls);
  }

  /** A call that entered can always leave: no counter ever goes below zero. */
  lemma LeaveNeverUnderflows(ws: seq<World>, acts: seq<Action>, i: nat, c: nat)
    requires Run(ws, acts) && i < |ws| && c < |ws[i].calls| && Entered(ws[i].calls[c].frame)
    ensures Holds(ws[i].life, ws[i].calls[c].tid, IsStarter(ws[i].calls[c].frame))
  {
    RunKeepsInv(ws, acts, i);
    CountSplit(ws[i].calls, c);
  }

  /** "Requested and drained" cannot be left again: this is why dropping the lock
      before dispose is safe. */
  lemma DrainedStep(w: World, w': World, a: Action)
    requires Inv(w) && Next(w, w', a) && w.life.requested && Drained(w.life)
    ensures w'.life.requested && Drained(w'.life) && w'.issued == w.issued && w'.overwritten == w.overwritten
  {
    DrainedMeansNobody(w);
  }

  lemma {:induction false} DrainedIsForever(ws: seq<World>, acts: seq<Action>, i: nat, j: nat)
    requires Run(ws, acts) && i <= j < |ws| && ws[i].life.requested && Drained(ws[i].life)
    ensures ws[j].life.requested && Drained(ws[j].life)
    ensures ws[j].issued == ws[i].issued && ws[j].overwritten == ws[i].overwritten
  {
    hide Next, Inv;
    if i < j {
      DrainedIsForever(ws, acts, i, j - 1);
      RunKeepsInv(ws, acts, j - 1);
      assert Next(ws[j - 1], ws[j - 1 + 1], acts[j - 1]);
      DrainedStep(ws[j - 1], ws[j], acts[j - 1]);
    }
  }

  /** While a dispose function runs nobody starts, uses or allocates, and every
      handle ever allocated has already reached its field. */
  lemma DisposeRunsAlone(ws: seq<World>, acts: seq<Action>, i: nat, c: nat)
    requires Run(ws, acts) && i < |ws| && c < |ws[i].calls| && ws[i].calls[c].frame.Disposing?
    ensures forall j :: 0 <= j < |ws[i].calls| ==> !Entered(ws[i].calls[j].frame)
    ensures forall j :: 0 <= j < |ws[i].calls| && IsCloser(ws[i].calls[j].frame) ==> j == c
    ensures ws[i].issued == ws[i].fields.Values + ws[i].released + ws[i].overwritten
  {
    RunKeepsInv(ws, acts, i);
    DrainedMeansNobody(ws[i]);
    NoneCounted(ws[i].calls);
  }

  lemma ClosedStep(w: World, w': World, a: Action)
    requires Inv(w) && Next(w, w', a) && w.life.state == Closed
    ensures w'.life.state == Closed && w'.fields == w.fields && w'.released == w.released
  {
    DrainedMeansNobody(w);
    NoneCounted(w.calls);
  }

  lemma {:induction false} ClosedIsForever(ws: seq<World>, acts: seq<Action>, i: nat, j: nat)
    requires Run(ws, acts) && i <= j < |ws| && ws[i].life.state == Closed
    ensures ws[j].life.state == Closed
    ensures ws[j].fields == ws[i].fields && ws[j].released == ws[i].released
  {
    hide Next, Inv;
    if i < j {
      RunKeepsInv(ws, acts, j - 1);
      ClosedIsForever(ws, acts, i, j - 1);
      assert Next(ws[j - 1], ws[j - 1 + 1], acts[j - 1]);
      ClosedStep(ws[j - 1], ws[j], acts[j - 1]);
    }
  }

  /** `cleanup_complete` is permanent, whatever the owner's answer rests on: from then
      on nothing is inside, nothing new is ever allocated, and every handle there ever
      was is released, or was overwritten in its field, or is still in a field. */
  lemma CleanupCompleteIsFinal(ws: seq<World>, acts: seq<Action>, i: nat, j: nat)
    requires Run(ws, acts) && i <= j < |ws| && CleanupComplete(ws[i].life)
    ensures CleanupComplete(ws[j].life)
    ensures ws[j].issued == ws[i].issued == ws[i].released + ws[i].overwritten + ws[i].fields.Values
    ensures ws[j].(life := ws[i].life, calls := ws[i].calls) == ws[i]
    ensures forall c :: 0 <= c < |ws[j].calls| ==> !Entered(ws[j].calls[c].frame) && !IsCloser(ws[j].calls[c].frame)
  {
    ClosedIsForever(ws, acts, i, j);
    RunKeepsInv(ws, acts, i);
    RunKeepsInv(ws, acts, j);
    DrainedIsForever(ws, acts, i, j);
    DrainedMeansNobody(ws[i]);
    DrainedMeansNobody(ws[j]);
    NoneCounted(ws[j].calls);
  }

  predicate StoresIntoEmpty(w: World, i: nat) {
    i < |w.calls| && w.calls[i].frame.Allocated? ==> w.calls[i].frame.field !in w.fields
  }

  /** Owners that publish only into an empty field lose nothing at all. */
  lemma {:induction false} NothingIsOverwritten(ws: seq<World>, acts: seq<Action>, i: nat)
    requires Run(ws, acts) && i < |ws|
    requires forall k :: 0 <= k < |acts| && acts[k].Store? ==> StoresIntoEmpty(ws[k], acts[k].i)
    ensures ws[i].overwritten == {}
  {
    if i > 0 {
      NothingIsOverwritten(ws, acts, i - 1);
      assert Next(ws[i - 1], ws[i], acts[i - 1]);
    }
  }

  // ----- when a proven close means a full release -----

  /** Fields hold different handles, and what is stored or in flight was neither released
      nor overwritten. */
  ghost predicate Apart(w: World) {
    && OneEach(w.fields)
    && (forall i, j :: 0 <= i < j < |w.calls| && w.calls[i].frame.Allocated? && w.calls[j].frame.Allocated? ==>
          w.calls[i].frame.handle != w.calls[j].frame.handle)
    && InFlight(w.calls) !! w.fields.Values
    && (InFlight(w.calls) + w.fields.Values) !! (w.released + w.overwritten)
  }

  ghost predicate OneEach(fields: map<Field, Handle>) {
    forall f, g :: f in fields && g in fields && f != g ==> fields[f] != fields[g]
  }

  lemma StoreKeepsApart(w: World, w': World, i: nat)
    requires Inv(w) && Apart(w) && StoreStep(w, w', i)
    ensures Apart(w')
  {
    var f := w.calls[i].frame;
    InFlightUpdate(w.calls, i, w'.calls[i]);
    assert f.handle in InFlight(w.calls);
    forall j | 0 <= j < |w'.calls| && w'.calls[j].frame.Allocated? ensures w'.calls[j].frame.handle != f.handle {
      assert w.calls[j] == w'.calls[j];
    }
    StoredValues(w.fields, f.field, f.handle);
  }

  lemma StoredValues(m: map<Field, Handle>, field: Field, h: Handle)
    requires OneEach(m) && h !in m.Values
    ensures OneEach(m[field := h]) && h in m[field := h].Values
    ensures m[field := h].Values <= m.Values + {h}
    ensures field in m ==> m[field] !in m[field := h].Values
  {
    forall f | f in m ensures m[f] != h { assert m[f] in m.Values; }
    assert m[field := h][field] == h;
  }

  lemma ReleaseKeepsApart(w: World, w': World, field: Field)
    requires Apart(w) && field in w.fields && w' == Released(w, field)
    ensures Apart(w')
  {
    assert w.fields[field] in w.fields.Values;
    assert w.fields[field] !in w'.fields.Values;
    assert w'.fields.Values <= w.fields.Values;
  }

  lemma AllocateKeepsApart(w: World, w': World, i: nat, h: Handle)
    requires Inv(w) && Apart(w) && AllocateStep(w, w', i, h)
    ensures Apart(w')
  {
    InFlightUpdate(w.calls, i, w'.calls[i]);
    forall j | 0 <= j < |w.calls| && w.calls[j].frame.Allocated? ensures w.calls[j].frame.handle != h {
      assert w.calls[j].frame.handle in InFlight(w.calls);
    }
  }

  /** Calls that come, go and move on without a handle. */
  lemma OthersKeepApart(w: World, w': World, a: Action)
    requires Apart(w) && Next(w, w', a)
    requires !a.AllocatorReturns? && !a.Store? && !a.UserReleases? && !a.DisposeReleases?
    ensures Apart(w')
  {
    if a.LeaveCall? || a.FinishClose? {
      InFlightWithout(w.calls, a.i);
      var cs' := w'.calls;
      forall j | 0 <= j < |cs'| ensures cs'[j] == w.calls[if j < a.i then j else j + 1] {
      }
    } else if a.WaitOver? || a.Judge? {
      InFlightUpdate(w.calls, a.i, w'.calls[a.i]);
    } else if a.BeginEnter? || a.CallClose? {
      assert forall h :: h in InFlight(w'.calls) ==> h in InFlight(w.calls);
    }
  }

  lemma {:induction false} RunKeepsApart(ws: seq<World>, acts: seq<Action>, i: nat)
    requires Run(ws, acts) && i < |ws|
    ensures Apart(ws[i])
  {
    if i > 0 {
      RunKeepsApart(ws, acts, i - 1);
      RunKeepsInv(ws, acts, i - 1);
      var w, w', a := ws[i - 1], ws[i], acts[i - 1];
      assert Next(w, w', a);
      hide Apart, Inv, StoreStep, AllocateStep, EnterStep, CloseStep, WaitStep, JudgeStep, FinishStep, LeaveStep;
      match a
      case AllocatorReturns(c, h) => AllocateKeepsApart(w, w', c, h);
      case Store(c) => StoreKeepsApart(w, w', c);
      case UserReleases(c, field) => ReleaseKeepsApart(w, w', field);
      case DisposeReleases(c, field) => ReleaseKeepsApart(w, w', field);
      case _ => OthersKeepApart(w, w', a);
    }
  }

  predicate FullyReleased(w: World) {
    w.issued == w.released + w.overwritten
  }

  /** What a proven close left behind is exactly what the fields still hold. */
  lemma ReleasedIffFieldsEmpty(ws: seq<World>, acts: seq<Action>, i: nat)
    requires Run(ws, acts) && i < |ws| && CleanupComplete(ws[i].life)
    ensures FullyReleased(ws[i]) <==> ws[i].fields == map[]
  {
    CleanupCompleteIsFinal(ws, acts, i, i);
    RunKeepsApart(ws, acts, i);
    var fields := ws[i].fields;
    if fields != map[] {
      var f :| f in fields;
      assert fields[f] in fields.Values;
    }
  }

  /** An owner whose `_dispose_complete` is this function of its fields. */
  type Owner = map<Field, Handle> -> bool

  predicate RunOf(owner: Owner, ws: seq<World>, acts: seq<Action>) {
    && Run(ws, acts)
    && forall k :: 0 <= k < |acts| && acts[k].Judge? ==> acts[k].complete == owner(ws[k].fields)
  }

  /** Every proven close of every run of this owner released every handle. */
  ghost predicate AlwaysReleases(owner: Owner) {
    forall ws: seq<World>, acts: seq<Action>, i: nat ::
      RunOf(owner, ws, acts) && i < |ws| && CleanupComplete(ws[i].life) ==> FullyReleased(ws[i])
  }

  /** The owner answers that it is complete only when no field holds a handle. */
  ghost predicate AnswersOnlyWhenEmpty(owner: Owner) {
    forall fields :: OneEach(fields) && owner(fields) ==> fields == map[]
  }

  ghost predicate ProvenIsEmpty(w: World) {
    && (w.life.state == Closed ==> w.fields == map[])
    && (forall c :: 0 <= c < |w.calls| && w.calls[c].frame == Judged(true) ==> w.fields == map[])
  }

  lemma ProvenStep(w: World, w': World, a: Action)
    requires Inv(w) && ProvenIsEmpty(w) && Next(w, w', a)
    requires a.Judge? && a.complete ==> w.fields == map[]
    ensures ProvenIsEmpty(w')
  {
    DrainedMeansNobody(w);
    if a.LeaveCall? || a.FinishClose? {
      var cs' := w'.calls;
      forall j | 0 <= j < |cs'| ensures cs'[j] == w.calls[if j < a.i then j else j + 1] {
      }
    }
  }

  lemma {:induction false} ProvenRun(owner: Owner, ws: seq<World>, acts: seq<Action>, i: nat)
    requires AnswersOnlyWhenEmpty(owner) && RunOf(owner, ws, acts) && i < |ws|
    ensures ProvenIsEmpty(ws[i])
  {
    if i > 0 {
      ProvenRun(owner, ws, acts, i - 1);
      RunKeepsInv(ws, acts, i - 1);
      RunKeepsApart(ws, acts, i - 1);
      assert Next(ws[i - 1], ws[i], acts[i - 1]);
      hide Inv, ProvenIsEmpty, Next;
      ProvenStep(ws[i - 1], ws[i], acts[i - 1]);
    }
  }

  /** The state of an owner that has stored these handles and is otherwise as new. */
  function Loaded(fields: map<Field, Handle>): World {
    World(Fresh, [], fields, fields.Values, {}, {})
  }

  lemma OneMore(w: World, field: Field, h: Handle) returns (ws: seq<World>, acts: seq<Action>)
    requires w == Loaded(w.fields) && field !in w.fields && h !in w.fields.Values
    ensures |ws| == |acts| + 1 && ws[0] == w && ws[|acts|] == Loaded(w.fields[field := h])
    ensures forall i :: 0 <= i < |acts| ==> Next(ws[i], ws[i + 1], acts[i]) && !acts[i].Judge?
  {
    acts := [BeginEnter(0, Allocating(field)), AllocatorReturns(0, h), Store(0), LeaveCall(0)];
    var busy := Enter(Fresh, 0, true).value;
    var fields := w.fields[field := h];
    var issued := w.issued + {h};
    ws := [w,
           w.(life := busy, calls := [Call(0, Allocating(field))]),
           w.(life := busy, calls := [Call(0, Allocated(field, h))], issued := issued),
           w.(life := busy, calls := [Call(0, Published)], issued := issued, fields := fields),
           Loaded(fields)];
    assert Leave(busy, 0, true) == Fresh by { assert busy.threads - {0} == map[]; }
    ValuesAfterStore(w.fields, field, h);
    assert fields.Values == issued;
    assert Without([Call(0, Published)], 0) == [];
  }

  lemma {:induction false} Load(owner: Owner, fields: map<Field, Handle>) returns (ws: seq<World>, acts: seq<Action>)
    requires OneEach(fields)
    ensures RunOf(owner, ws, acts) && ws[|acts|] == Loaded(fields)
    decreases |fields|
  {
    if fields == map[] {
      ws, acts := [Start], [];
    } else {
      var f :| f in fields;
      var rest := fields - {f};
      ws, acts := Load(owner, rest);
      var more, steps := OneMore(ws[|acts|], f, fields[f]);
      assert rest[f := fields[f]] == fields;
      Joined(owner, ws, acts, more, steps);
      ws, acts := ws + more[1..], acts + steps;
    }
  }

  lemma Joined(owner: Owner, ws: seq<World>, acts: seq<Action>, more: seq<World>, steps: seq<Action>)
    requires RunOf(owner, ws, acts) && |more| == |steps| + 1 && more[0] == ws[|acts|]
    requires forall i :: 0 <= i < |steps| ==> Next(more[i], more[i + 1], steps[i])
    requires forall i :: 0 <= i < |steps| && steps[i].Judge? ==> steps[i].complete == owner(more[i].fields)
    ensures RunOf(owner, ws + more[1..], acts + steps)
    ensures (ws + more[1..])[|acts + steps|] == more[|steps|]
  {
    var ws', acts' := ws + more[1..], acts + steps;
    hide Next;
    forall i | 0 <= i < |acts'|
      ensures Next(ws'[i], ws'[i + 1], acts'[i])
      ensures acts'[i].Judge? ==> acts'[i].complete == owner(ws'[i].fields)
    {
      if i < |acts| {
        assert ws'[i] == ws[i] && ws'[i + 1] == ws[i + 1];
      } else {
        assert ws'[i] == more[i - |acts|] && ws'[i + 1] == more[i + 1 - |acts|] && acts'[i] == steps[i - |acts|];
      }
    }
  }

  /** Any owner that answers true over a stored handle has a run that proves its close
      and leaves the handle. */
  lemma LeavesAHandle(owner: Owner, fields: map<Field, Handle>) returns (ws: seq<World>, acts: seq<Action>)
    requires OneEach(fields) && fields != map[] && owner(fields)
    ensures RunOf(owner, ws, acts) && CleanupComplete(ws[|acts|].life) && !FullyReleased(ws[|acts|])
  {
    ws, acts := Load(owner, fields);
    var w := Loaded(fields);
    var closing := BeginClose(Fresh).0;
    var steps := [CallClose(0), WaitOver(0, true), Judge(0, false, true), FinishClose(0)];
    var more := [w,
                 w.(life := closing, calls := [Call(0, Notifying)]),
                 w.(life := closing, calls := [Call(0, Disposing)]),
                 w.(life := closing, calls := [Call(0, Judged(true))]),
                 w.(life := EndClose(closing, true))];
    assert Without([Call(0, Judged(true))], 0) == [];
    assert forall i :: 0 <= i < |steps| ==> Next(more[i], more[i + 1], steps[i]);
    Joined(owner, ws, acts, more, steps);
    ws, acts := ws + more[1..], acts + steps;
    var f :| f in fields;
    assert fields[f] in fields.Values;
  }

  /** A proven close releases everything, in every run, if and only if the owner answers
      true only with empty fields. */
  lemma FullReleaseIff(owner: Owner)
    ensures AlwaysReleases(owner) <==> AnswersOnlyWhenEmpty(owner)
  {
    if AnswersOnlyWhenEmpty(owner) {
      forall ws: seq<World>, acts: seq<Action>, i: nat
        | RunOf(owner, ws, acts) && i < |ws| && CleanupComplete(ws[i].life)
        ensures FullyReleased(ws[i])
      {
        ProvenRun(owner, ws, acts, i);
        ReleasedIffFieldsEmpty(ws, acts, i);
      }
    } else {
      var fields :| OneEach(fields) && owner(fields) && fields != map[];
      var ws, acts := LeavesAHandle(owner, fields);
    }
  }

  /** With such an owner, `cleanup_complete` is a permanent proof that every handle there
      ever was is released, or was overwritten in its field. */
  lemma CleanupCompleteIsProof(owner: Owner, ws: seq<World>, acts: seq<Action>, i: nat, j: nat)
    requires AnswersOnlyWhenEmpty(owner) && RunOf(owner, ws, acts)
    requires i <= j < |ws| && CleanupComplete(ws[i].life)
    ensures CleanupComplete(ws[j].life) && FullyReleased(ws[j]) && ws[j].issued == ws[i].issued
  {
    hide Run;
    CleanupCompleteIsFinal(ws, acts, i, j);
    FullReleaseIff(owner);
  }

  /** `Resource._dispose_complete` answers true whatever the fields hold, so an owner that
      inherits it can prove its close and leave a handle. */
  lemma InheritedAnswerIsNoProof()
    ensures !AlwaysReleases(_ => true)
  {
    var fields: map<Field, Handle> := map["_process" := 0];
    FullReleaseIff(_ => true);
    assert "_process" in fields;
    assert OneEach(fields);
  }
}
