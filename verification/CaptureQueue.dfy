/** `MicCapture._put` and the capture queue: a bounded queue that drops its oldest item
    when the consumer is behind, filled by the reader thread and by whichever threads
    put the end marker.  Each queue operation is one step.  The overrun counter is
    loaded and stored in two steps, as `+= 1` is.
  */
module CaptureQueue {
  import opened Basics
  import opened Reframing
  import opened Sequences

  type Tid = nat

  /** Where a thread stands in `_put`. */
  datatype Putter =
    | Trying(item: Item)
    | Evicting(item: Item)                        // the queue was full
    | Counting(item: Item)                        // it evicted; the counter is not loaded yet
    | Storing(item: Item, loaded: nat, mark: nat) // `mark` is how many stores there were then

  /** How an item left the front of the queue. */
  datatype Exit = Delivered(item: Item) | Dropped(item: Item)

  /** What happened so far; never read by the program. `torn` says that some store came
      after another thread's store had come in between its load and itself. */
  datatype History = History(produced: seq<Item>, left: seq<Exit>, stores: nat, torn: bool)

  datatype World = World(queue: seq<Item>, overruns: nat, putters: map<Tid, Putter>, past: History)

  const Start := World([], 0, map[], History([], [], 0, false))

  datatype Action =
    | Call(t: Tid, item: Item)
    | TryPut(t: Tid)
    | Evict(t: Tid)
    | Load(t: Tid)
    | Store(t: Tid)
    | Take

  predicate Enabled(w: World, a: Action) {
    match a
    case Call(t, _) => t !in w.putters
    case TryPut(t) => t in w.putters && w.putters[t].Trying?
    case Evict(t) => t in w.putters && w.putters[t].Evicting?
    case Load(t) => t in w.putters && w.putters[t].Counting?
    case Store(t) => t in w.putters && w.putters[t].Storing?
    case Take => w.queue != []
  }

  function At(w: World, t: Tid, p: Putter): World {
    w.(putters := w.putters[t := p])
  }

  function Do(w: World, a: Action, bound: nat): World
    requires Enabled(w, a)
  {
    match a
    case Call(t, item) => At(w, t, Trying(item))
    case TryPut(t) =>
      var item := w.putters[t].item;
      if |w.queue| < bound then
        w.(putters := w.putters - {t},
           queue := w.queue + [item],
           past := w.past.(produced := w.past.produced + [item]))
      else
        At(w, t, Evicting(item))
    case Evict(t) =>
      var item := w.putters[t].item;
      if w.queue == [] then At(w, t, Trying(item)) else Pop(At(w, t, Counting(item)), Dropped(w.queue[0]))
    case Load(t) => At(w, t, Storing(w.putters[t].item, w.overruns, w.past.stores))
    case Store(t) =>
      var p := w.putters[t];
      At(w, t, Trying(p.item)).(
        overruns := p.loaded + 1,
        past := w.past.(stores := w.past.stores + 1, torn := w.past.torn || p.mark != w.past.stores))
    case Take => Pop(w, Delivered(w.queue[0]))
  }

  function Pop(w: World, x: Exit): World
    requires w.queue != []
  {
    w.(queue := w.queue[1..], past := w.past.(left := w.past.left + [x]))
  }

  // ----- the invariant -----

  function Items(left: seq<Exit>): seq<Item> {
    if left == [] then [] else [left[0].item] + Items(left[1..])
  }

  function Kept(left: seq<Exit>): seq<Item> {
    if left == [] then []
    else if left[0].Delivered? then [left[0].item] + Kept(left[1..])
    else Kept(left[1..])
  }

  function Drops(left: seq<Exit>): nat {
    if left == [] then 0 else (if left[0].Dropped? then 1 else 0) + Drops(left[1..])
  }

  /** The threads that evicted an item and have not counted it yet. */
  function Uncounted(putters: map<Tid, Putter>): set<Tid> {
    set t | t in putters && (putters[t].Counting? || putters[t].Storing?)
  }

  predicate FlowSound(w: World, bound: nat) {
    w.past.produced == Items(w.past.left) + w.queue && |w.queue| <= bound
  }

  predicate DropsSound(w: World) {
    Drops(w.past.left) == w.past.stores + |Uncounted(w.putters)|
  }

  predicate LoadSound(w: World, p: Putter) {
    p.Storing? ==>
      && p.loaded <= p.mark <= w.past.stores
      && (w.past.torn ==> p.loaded < w.past.stores)
      && (!w.past.torn ==> p.loaded == p.mark)
  }

  predicate CountSound(w: World) {
    && w.overruns <= w.past.stores
    && (w.past.torn <==> w.overruns != w.past.stores)
    && (forall t :: t in w.putters ==> LoadSound(w, w.putters[t]))
  }

  predicate Inv(w: World, bound: nat) {
    FlowSound(w, bound) && DropsSound(w) && CountSound(w)
  }

  lemma {:induction false} ExitAppended(left: seq<Exit>, x: Exit)
    ensures Items(left + [x]) == Items(left) + [x.item]
    ensures Drops(left + [x]) == Drops(left) + if x.Dropped? then 1 else 0
  {
    if left != [] {
      assert (left + [x])[1..] == left[1..] + [x];
      ExitAppended(left[1..], x);
    } else {
      assert left + [x] == [x];
    }
  }

  lemma MovesAlong(items: seq<Item>, q: seq<Item>, x: Item)
    ensures q != [] ==> (items + [q[0]]) + q[1..] == items + q
    ensures (items + q) + [x] == items + (q + [x])
  {
  }

  lemma FlowStep(w: World, a: Action, bound: nat)
    requires FlowSound(w, bound) && Enabled(w, a)
    ensures FlowSound(Do(w, a, bound), bound)
  {
    hide Items, Drops;
    var q := w.queue;
    if a.TryPut? { MovesAlong(Items(w.past.left), q, w.putters[a.t].item); }
    if (a.Evict? || a.Take?) && q != [] {
      ExitAppended(w.past.left, if a.Evict? then Dropped(q[0]) else Delivered(q[0]));
      MovesAlong(Items(w.past.left), q, q[0]);
    }
  }

  lemma LeftStep(w: World, a: Action, bound: nat)
    requires Enabled(w, a)
    ensures Drops(Do(w, a, bound).past.left) ==
      Drops(w.past.left) + if a.Evict? && w.queue != [] then 1 else 0
  {
    if w.queue != [] {
      ExitAppended(w.past.left, Delivered(w.queue[0]));
      ExitAppended(w.past.left, Dropped(w.queue[0]));
    }
  }

  predicate InDebt(p: Putter) {
    p.Counting? || p.Storing?
  }

  lemma Moved(putters: map<Tid, Putter>, t: Tid, p: Putter)
    ensures |Uncounted(putters[t := p])| ==
      |Uncounted(putters)| - (if t in putters && InDebt(putters[t]) then 1 else 0) + if InDebt(p) then 1 else 0
  {
    var before, after := Uncounted(putters), Uncounted(putters[t := p]);
    var rest := before - {t};
    assert after == if InDebt(p) then rest + {t} else rest;
    assert before == if t in before then rest + {t} else rest;
    assert t in before <==> t in putters && InDebt(putters[t]);
  }

  lemma Removed(putters: map<Tid, Putter>, t: Tid)
    requires t in putters && !InDebt(putters[t])
    ensures |Uncounted(putters - {t})| == |Uncounted(putters)|
  {
    assert Uncounted(putters - {t}) == Uncounted(putters);
  }

  lemma DropsStep(w: World, a: Action, bound: nat)
    requires DropsSound(w) && Enabled(w, a)
    ensures DropsSound(Do(w, a, bound))
  {
    hide Drops, Uncounted;
    LeftStep(w, a, bound);
    var w' := Do(w, a, bound);
    if a.TryPut? && |w.queue| < bound {
      Removed(w.putters, a.t);
    } else if !a.Take? {
      Moved(w.putters, a.t, w'.putters[a.t]);
    }
  }

  lemma CountStep(w: World, a: Action, bound: nat)
    requires CountSound(w) && Enabled(w, a)
    ensures CountSound(Do(w, a, bound))
  {
  }

  lemma StepKeepsInv(w: World, a: Action, bound: nat)
    requires Inv(w, bound) && Enabled(w, a)
    ensures Inv(Do(w, a, bound), bound)
  {
    hide Do, Enabled, FlowSound, DropsSound, CountSound;
    FlowStep(w, a, bound);
    DropsStep(w, a, bound);
    CountStep(w, a, bound);
  }

  // ----- every run -----

  /** The state after a schedule, if every action was enabled in its turn. */
  function After(schedule: seq<Action>, bound: nat): Option<World> {
    if schedule == [] then Some(Start)
    else
      var last := |schedule| - 1;
      var before := After(schedule[..last], bound);
      if before.Some? && Enabled(before.value, schedule[last]) then Some(Do(before.value, schedule[last], bound))
      else None
  }

  lemma {:induction false} RunKeepsInv(schedule: seq<Action>, bound: nat)
    requires After(schedule, bound).Some?
    ensures Inv(After(schedule, bound).value, bound)
    decreases |schedule|
  {
    if schedule != [] {
      var last := |schedule| - 1;
      RunKeepsInv(schedule[..last], bound);
      StepKeepsInv(After(schedule[..last], bound).value, schedule[last], bound);
    }
  }

  lemma Regroup(x: Item, a: seq<Item>, q: seq<Item>)
    ensures ([x] + a) + q == [x] + (a + q)
  {
  }

  lemma {:induction false} KeptIsSubsequence(left: seq<Exit>, q: seq<Item>)
    ensures Subsequence(Kept(left) + q, Items(left) + q)
  {
    if left == [] {
      SelfSubsequence(q);
      assert Kept(left) + q == q && Items(left) + q == q;
    } else {
      hide Subsequence;
      var x, k, r := left[0].item, Kept(left[1..]), Items(left[1..]);
      KeptIsSubsequence(left[1..], q);
      Prepended(x, k + q, r + q);
      Regroup(x, r, q);
      Regroup(x, k, q);
    }
  }

  lemma {:induction false} ExitsAddUp(left: seq<Exit>)
    ensures |Items(left)| == |Kept(left)| + Drops(left)
  {
    if left != [] { ExitsAddUp(left[1..]); }
  }

  /** What was delivered and what is queued is what was put, in order, with the dropped
      items left out; the queue keeps its bound. */
  lemma NothingIsReordered(schedule: seq<Action>, bound: nat)
    requires After(schedule, bound).Some?
    ensures var w := After(schedule, bound).value;
      && Subsequence(Kept(w.past.left) + w.queue, w.past.produced)
      && |w.queue| <= bound
      && |w.past.produced| == |Kept(w.past.left)| + |w.queue| + Drops(w.past.left)
  {
    RunKeepsInv(schedule, bound);
    var w := After(schedule, bound).value;
    KeptIsSubsequence(w.past.left, w.queue);
    ExitsAddUp(w.past.left);
  }

  // ----- every call lands, and nothing is dropped without need -----

  /** How often `_put` was called with the item. */
  function Calls(schedule: seq<Action>, x: Item): nat {
    if schedule == [] then 0
    else
      var last := schedule[|schedule| - 1];
      Calls(schedule[..|schedule| - 1], x) + if last.Call? && last.item == x then 1 else 0
  }

  function Times(items: seq<Item>, x: Item): nat {
    multiset(items)[x]
  }

  /** The threads that are still putting it. */
  function Putting(putters: map<Tid, Putter>, x: Item): set<Tid> {
    set t | t in putters && putters[t].item == x
  }

  lemma PuttingBegins(putters: map<Tid, Putter>, t: Tid, p: Putter, x: Item)
    requires t !in putters
    ensures |Putting(putters[t := p], x)| == |Putting(putters, x)| + if p.item == x then 1 else 0
  {
    var before := Putting(putters, x);
    assert Putting(putters[t := p], x) == if p.item == x then before + {t} else before;
  }

  lemma PuttingGoesOn(putters: map<Tid, Putter>, t: Tid, p: Putter, x: Item)
    requires t in putters && putters[t].item == p.item
    ensures Putting(putters[t := p], x) == Putting(putters, x)
  {
  }

  lemma PuttingEnds(putters: map<Tid, Putter>, t: Tid, x: Item)
    requires t in putters
    ensures |Putting(putters - {t}, x)| == |Putting(putters, x)| - if putters[t].item == x then 1 else 0
  {
    var before := Putting(putters, x);
    assert Putting(putters - {t}, x) == before - {t};
  }

  lemma CallsStep(w: World, a: Action, bound: nat, x: Item)
    requires Enabled(w, a)
    ensures var w' := Do(w, a, bound);
      Times(w'.past.produced, x) + |Putting(w'.putters, x)| ==
      Times(w.past.produced, x) + |Putting(w.putters, x)| + if a.Call? && a.item == x then 1 else 0
  {
    hide Putting;
    var w' := Do(w, a, bound);
    if a.Call? {
      PuttingBegins(w.putters, a.t, w'.putters[a.t], x);
    } else if a.TryPut? && |w.queue| < bound {
      PuttingEnds(w.putters, a.t, x);
    } else if !a.Take? {
      PuttingGoesOn(w.putters, a.t, w'.putters[a.t], x);
    }
  }

  /** Every call of `_put` has put its item, or is still at it. */
  lemma {:induction false} EveryCallLands(schedule: seq<Action>, bound: nat, x: Item)
    requires After(schedule, bound).Some?
    ensures var w := After(schedule, bound).value;
      Calls(schedule, x) == Times(w.past.produced, x) + |Putting(w.putters, x)|
    decreases |schedule|
  {
    hide Times, Putting, Do, Enabled;
    if schedule == [] {
      NothingPut(x);
    } else {
      var last := |schedule| - 1;
      EveryCallLands(schedule[..last], bound, x);
      CallsStep(After(schedule[..last], bound).value, schedule[last], bound, x);
    }
  }

  lemma NothingPut(x: Item)
    ensures Times(Start.past.produced, x) == 0 && |Putting(Start.putters, x)| == 0
  {
    assert Putting(map[], x) == {};
  }

  /** No thread ever saw the queue full. */
  predicate HadRoom(schedule: seq<Action>, bound: nat) {
    forall k: nat :: k < |schedule| && schedule[k].TryPut? ==> RoomAt(schedule, bound, k)
  }

  predicate RoomAt(schedule: seq<Action>, bound: nat, k: nat)
    requires k <= |schedule|
  {
    var w := After(schedule[..k], bound);
    w.Some? ==> |w.value.queue| < bound
  }

  /** Where every attempt found room, nothing is dropped and nothing counted, and what was
      delivered and what is queued is all that was put. */
  lemma {:induction false} NothingIsDroppedWithRoom(schedule: seq<Action>, bound: nat)
    requires After(schedule, bound).Some? && HadRoom(schedule, bound)
    ensures var w := After(schedule, bound).value;
      && Drops(w.past.left) == 0 && w.overruns == 0 && Kept(w.past.left) + w.queue == w.past.produced
      && (forall t :: t in w.putters ==> w.putters[t].Trying?)
    decreases |schedule|
  {
    if schedule != [] {
      var last := |schedule| - 1;
      forall k: nat | k < last && schedule[..last][k].TryPut? ensures RoomAt(schedule[..last], bound, k) {
        assert schedule[..last][..k] == schedule[..k] && RoomAt(schedule, bound, k);
      }
      NothingIsDroppedWithRoom(schedule[..last], bound);
      assert schedule[last].TryPut? ==> RoomAt(schedule, bound, last);
      RoomStep(After(schedule[..last], bound).value, schedule[last], bound);
    }
    RunKeepsInv(schedule, bound);
    NoDropsKeepAll(After(schedule, bound).value.past.left);
  }

  lemma RoomStep(w: World, a: Action, bound: nat)
    requires Enabled(w, a) && Drops(w.past.left) == 0 && w.overruns == 0
    requires (forall t :: t in w.putters ==> w.putters[t].Trying?) && (a.TryPut? ==> |w.queue| < bound)
    ensures var w' := Do(w, a, bound);
      Drops(w'.past.left) == 0 && w'.overruns == 0 && forall t :: t in w'.putters ==> w'.putters[t].Trying?
  {
    LeftStep(w, a, bound);
  }

  lemma {:induction false} NoDropsKeepAll(left: seq<Exit>)
    requires Drops(left) == 0
    ensures Kept(left) == Items(left)
  {
    if left != [] { NoDropsKeepAll(left[1..]); }
  }

  /** The overrun counter never exceeds the items dropped, and when no thread is between
      an eviction and its count, it is exact if and only if no two counts overlapped. */
  lemma OverrunsAreExactIff(schedule: seq<Action>, bound: nat)
    requires After(schedule, bound).Some?
    ensures var w := After(schedule, bound).value;
      && w.overruns <= Drops(w.past.left)
      && (Uncounted(w.putters) == {} ==> (w.overruns == Drops(w.past.left) <==> !w.past.torn))
  {
    RunKeepsInv(schedule, bound);
  }

  /** The frames among the dropped items; the rest are end markers. */
  function FrameDrops(left: seq<Exit>): nat {
    if left == [] then 0 else (if left[0].Dropped? && left[0].item.Frame? then 1 else 0) + FrameDrops(left[1..])
  }

  lemma {:induction false} FramesAmongDrops(left: seq<Exit>)
    ensures FrameDrops(left) <= Drops(left)
    ensures FrameDrops(left) == Drops(left) <==> Dropped(Eof) !in left
  {
    if left != [] {
      FramesAmongDrops(left[1..]);
      assert left == [left[0]] + left[1..];
    }
  }

  /** At rest and with no overlapping counts, the counter is the number of frames dropped
      if and only if no end marker was. */
  lemma OverrunsAreFramesIff(schedule: seq<Action>, bound: nat)
    requires After(schedule, bound).Some?
    requires var w := After(schedule, bound).value; Uncounted(w.putters) == {} && !w.past.torn
    ensures var w := After(schedule, bound).value;
      w.overruns == FrameDrops(w.past.left) <==> Dropped(Eof) !in w.past.left
  {
    OverrunsAreExactIff(schedule, bound);
    FramesAmongDrops(After(schedule, bound).value.past.left);
  }

  predicate OnlyThread(schedule: seq<Action>, t: Tid) {
    forall a :: a in schedule && !a.Take? ==> a.t == t
  }

  lemma {:induction false} OneThreadNeverTears(schedule: seq<Action>, bound: nat, t: Tid)
    requires After(schedule, bound).Some? && OnlyThread(schedule, t)
    ensures var w := After(schedule, bound).value;
      && w.putters.Keys <= {t} && !w.past.torn
      && (t in w.putters && w.putters[t].Storing? ==> w.putters[t].mark == w.past.stores)
    decreases |schedule|
  {
    if schedule != [] {
      var last := |schedule| - 1;
      OneThreadNeverTears(schedule[..last], bound, t);
    }
  }

  /** With one thread putting, every missing item is counted. */
  lemma OneThreadCountsAll(schedule: seq<Action>, bound: nat, t: Tid)
    requires After(schedule, bound).Some? && OnlyThread(schedule, t)
    ensures var w := After(schedule, bound).value;
      w.overruns + |Uncounted(w.putters)| + |Kept(w.past.left)| + |w.queue| == |w.past.produced|
  {
    RunKeepsInv(schedule, bound);
    OneThreadNeverTears(schedule, bound, t);
    NothingIsReordered(schedule, bound);
  }

  /** The items `_put` was called with, in order. */
  function Called(schedule: seq<Action>): seq<Item> {
    if schedule == [] then []
    else
      var last := schedule[|schedule| - 1];
      Called(schedule[..|schedule| - 1]) + if last.Call? then [last.item] else []
  }

  /** One thread's items go in in the order of its calls. */
  lemma {:induction false} OneThreadPutsInOrder(schedule: seq<Action>, bound: nat, t: Tid)
    requires After(schedule, bound).Some? && OnlyThread(schedule, t)
    ensures var w := After(schedule, bound).value;
      && w.putters.Keys <= {t}
      && Called(schedule) == w.past.produced + if t in w.putters then [w.putters[t].item] else []
    decreases |schedule|
  {
    if schedule != [] {
      var last := |schedule| - 1;
      OneThreadPutsInOrder(schedule[..last], bound, t);
      assert OnlyThread(schedule[..last], t) && schedule[last] in schedule;
    }
  }

  lemma Started(bound: nat)
    ensures After([], bound) == Some(Start)
  {
  }

  lemma Then(schedule: seq<Action>, w: World, a: Action, bound: nat) returns (longer: seq<Action>, w': World)
    requires After(schedule, bound) == Some(w) && Enabled(w, a)
    ensures longer == schedule + [a] && w' == Do(w, a, bound) && After(longer, bound) == Some(w')
  {
    longer, w' := schedule + [a], Do(w, a, bound);
    assert longer[..|schedule|] == schedule;
  }

  lemma EndThenFrame(f: Item) returns (s: seq<Action>, w: World)
    ensures After(s, 1) == Some(w) && OnlyThread(s, 1)
    ensures w == World([Eof], 0, map[1 := Evicting(f)], History([Eof], [], 0, false))
  {
    s, w := [], Start;
    Started(1);
    hide After;
    s, w := Then(s, w, Call(1, Eof), 1);
    s, w := Then(s, w, TryPut(1), 1);
    assert w.putters == map[];
    s, w := Then(s, w, Call(1, f), 1);
    s, w := Then(s, w, TryPut(1), 1);
    assert w.putters == map[1 := Evicting(f)];
  }

  /** One thread that puts an end marker and then a frame into a full queue: the marker is
      dropped and counted, though no frame was lost. */
  lemma DroppedEndIsCounted(f: Item) returns (s: seq<Action>, w: World)
    ensures After(s, 1) == Some(w) && OnlyThread(s, 1) && Uncounted(w.putters) == {} && !w.past.torn
    ensures w.overruns == 1 && w.past.left == [Dropped(Eof)] && FrameDrops(w.past.left) == 0
  {
    hide After;
    s, w := EndThenFrame(f);
    s, w := Then(s, w, Evict(1), 1);
    s, w := Then(s, w, Load(1), 1);
    s, w := Then(s, w, Store(1), 1);
    assert w.putters == map[1 := Trying(f)];
    assert [Dropped(Eof)][1..] == [];
  }

  lemma TwicePut(f: Item) returns (s: seq<Action>, w: World)
    ensures After(s, 2) == Some(w) && w == World([f, f], 0, map[], History([f, f], [], 0, false))
  {
    s, w := [], Start;
    Started(2);
    hide After;
    s, w := Then(s, w, Call(1, f), 2);
    s, w := Then(s, w, TryPut(1), 2);
    assert w.putters == map[];
    s, w := Then(s, w, Call(1, f), 2);
    s, w := Then(s, w, TryPut(1), 2);
    assert w.putters == map[];
  }

  lemma BothEvict(f: Item) returns (s: seq<Action>, w: World)
    ensures After(s, 2) == Some(w)
    ensures w == World([], 0, map[1 := Counting(f), 2 := Counting(Eof)],
                       History([f, f], [Dropped(f), Dropped(f)], 0, false))
  {
    hide After;
    s, w := TwicePut(f);
    s, w := Then(s, w, Call(1, f), 2);
    s, w := Then(s, w, Call(2, Eof), 2);
    s, w := Then(s, w, TryPut(1), 2);
    s, w := Then(s, w, TryPut(2), 2);
    assert w.putters == map[1 := Evicting(f), 2 := Evicting(Eof)];
    s, w := Then(s, w, Evict(1), 2);
    s, w := Then(s, w, Evict(2), 2);
  }

  predicate LosesACount(schedule: seq<Action>, bound: nat) {
    var w := After(schedule, bound);
    w.Some? && Uncounted(w.value.putters) == {} && Drops(w.value.past.left) == 2 && w.value.overruns == 1
  }

  /** Two threads that both find the queue full can lose one count: the reader with a
      frame and a closing thread with the end marker. */
  lemma OverlappingCountsLoseOne(f: Item)
    ensures exists schedule :: LosesACount(schedule, 2)
  {
    hide After;
    var s, w := BothEvict(f);
    s, w := Then(s, w, Load(1), 2);
    s, w := Then(s, w, Load(2), 2);
    s, w := Then(s, w, Store(1), 2);
    s, w := Then(s, w, Store(2), 2);
    assert w.putters == map[1 := Trying(f), 2 := Trying(Eof)];
    assert Uncounted(w.putters) == {};
    assert w.overruns == 1;
    ExitAppended([], Dropped(f));
    ExitAppended([Dropped(f)], Dropped(f));
    assert [] + [Dropped(f)] == [Dropped(f)] && w.past.left == [Dropped(f)] + [Dropped(f)];
    assert Drops(w.past.left) == 2;
    assert LosesACount(s, 2);
  }

  // ----- the object -----

  /** The queue as one thread sees it with no other about. */
  class FrameQueue {
    const bound: nat
    var items: seq<Item>
    var overruns: nat

    constructor (bound: nat)
      ensures this.bound == bound && items == [] && overruns == 0
    {
      this.bound, items, overruns := bound, [], 0;
    }

    /** `_put`: the item goes in, and exactly as many of the oldest as were in its way
        come out and are counted. */
    method Put(item: Item)
      requires bound > 0
      modifies this
      ensures var kept := if |old(items)| < bound then 0 else |old(items)| - bound + 1;
        items == old(items)[kept..] + [item] && overruns == old(overruns) + kept
    {
      ghost var before := items;
      var placed := false;
      ghost var out := 0;
      while !placed
        invariant out <= |before| && (out > 0 ==> |before| - out >= bound - 1)
        invariant overruns == old(overruns) + out
        invariant items == if placed then before[out..] + [item] else before[out..]
        invariant placed ==> |before| - out < bound
        decreases !placed, |items|
      {
        if |items| < bound {
          items := items + [item];
          placed := true;
        } else if items != [] {
          items := items[1..];
          overruns := overruns + 1;
          out := out + 1;
        }
      }
    }
  }
}
