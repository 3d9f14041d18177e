/** What one call of `_kill_members` does to its group: every round that does not end the
    call signals all it has listed, and once the group is dead and nothing else moves, the
    call returns after two rounds.
  */
module MemberRounds {
  import opened Basics
  import opened ProcessTable
  import opened MemberScan

  // ----- every listed member is signalled -----

  /** Step `k` of the run signals `m`. */
  predicate Signals(ws: seq<World>, acts: seq<Action>, k: nat, m: Ident) {
    && k < |acts| < |ws| && acts[k] == Loop && ws[k].s.phase.Killing?
    && ws[k].s.phase.i < |ws[k].s.members| && ws[k].s.members[ws[k].s.phase.i] == m
  }

  ghost predicate Signalled(ws: seq<World>, acts: seq<Action>, n: nat, m: Ident) {
    exists k: nat :: k < n && Signals(ws, acts, k, m)
  }

  /** The members already passed in a round that signals, and those of the last round. */
  ghost predicate AllSignalled(ws: seq<World>, acts: seq<Action>, n: nat)
    requires n < |ws|
  {
    var s := ws[n].s;
    && (forall m :: m in s.previous ==> Signalled(ws, acts, n, m))
    && (s.phase.Killing? ==>
          && s.phase.i <= |s.members|
          && forall j :: 0 <= j < s.phase.i ==> Signalled(ws, acts, n, s.members[j]))
  }

  lemma SignalledLater(ws: seq<World>, acts: seq<Action>, n: nat)
    ensures forall m :: Signalled(ws, acts, n, m) ==> Signalled(ws, acts, n + 1, m)
  {
    forall m | Signalled(ws, acts, n, m) ensures Signalled(ws, acts, n + 1, m) {
      var k: nat :| k < n && Signals(ws, acts, k, m);
      assert k < n + 1;
    }
  }

  lemma RoundStep(w: World, w': World, leader: Ident, a: Action)
    requires Next(w, w', leader, a)
    ensures w'.s.previous == w.s.previous
      || (a == Loop && w.s.phase.Killing? && w.s.phase.i >= |w.s.members| && w'.s.previous == w.s.members)
    ensures w'.s.phase.Killing? ==>
      || (w.s.phase == w'.s.phase && w'.s.members == w.s.members)
      || w'.s.phase.i == 0
      || (a == Loop && w.s.phase.Killing? && w.s.phase.i < |w.s.members|
          && w'.s.phase.i == w.s.phase.i + 1 && w'.s.members == w.s.members)
  {
  }

  lemma {:induction false} RoundsSignal(ws: seq<World>, acts: seq<Action>, leader: Ident, n: nat)
    requires Run(ws, acts, leader) && n < |ws|
    ensures AllSignalled(ws, acts, n)
  {
    if n > 0 {
      RoundsSignal(ws, acts, leader, n - 1);
      assert Next(ws[n - 1], ws[n - 1 + 1], leader, acts[n - 1]);
      RoundStep(ws[n - 1], ws[n], leader, acts[n - 1]);
      SignalledLater(ws, acts, n - 1);
      var s := ws[n - 1].s;
      if s.phase.Killing? && s.phase.i < |s.members| && acts[n - 1] == Loop {
        assert Signals(ws, acts, n - 1, s.members[s.phase.i]);
        assert Signalled(ws, acts, n, s.members[s.phase.i]);
      }
      hide Next;
    }
  }

  /** A round that does not end the call has signalled every member of its scan before the
      next one begins: when the loop is back at its start, all that the scan listed is in
      `previous`, and has had its turn. */
  lemma EveryMemberIsSignalled(ws: seq<World>, acts: seq<Action>, leader: Ident, n: nat)
    requires Run(ws, acts, leader) && n < |acts| && ws[n].s.phase.Killing? && ws[n + 1].s.phase.CheckFirst?
    ensures ws[n + 1].s.previous == ws[n].s.members
    ensures forall m :: m in ws[n].s.members ==> Signalled(ws, acts, n + 1, m)
  {
    assert Next(ws[n], ws[n + 1], leader, acts[n]);
    RoundsSignal(ws, acts, leader, n + 1);
  }

  // ----- a dead group that nothing disturbs -----

  /** The leader is an unreaped zombie that leads its group, and no member is alive. */
  ghost predicate DeadGroup(k: Table, leader: Ident) {
    && WellFormed(k) && Present(k, leader) && !k.procs[leader.pid].live && k.procs[leader.pid].group == leader
    && Quiet(k, leader)
  }

  predicate IsMember(k: Table, leader: Ident, p: Pid) {
    p in k.procs && k.procs[p].group.pid == leader.pid
  }

  function IdentOf(k: Table, p: Pid): Ident
    requires p in k.procs
  {
    Ident(p, k.procs[p].start)
  }

  predicate MembersOnly(k: Table, leader: Ident, ms: seq<Ident>) {
    forall m :: m in ms ==> IsMember(k, leader, m.pid) && m == IdentOf(k, m.pid)
  }

  predicate HasAll(k: Table, leader: Ident, ms: seq<Ident>) {
    forall p :: p in k.procs && IsMember(k, leader, p) ==> IdentOf(k, p) in ms
  }

  /** The handles polled so far that are of members are known to be dead. */
  predicate DeadKnown(k: Table, leader: Ident, dead: map<Pid, Ident>, known: seq<Ident>) {
    && (forall p :: p in dead ==> p in k.procs && dead[p] == IdentOf(k, p))
    && (forall m :: m in known && IsMember(k, leader, m.pid) && m == IdentOf(k, m.pid) ==> m.pid in dead)
  }

  predicate ExamStill(k: Table, leader: Ident, e: Exam) {
    match e
    case Idle => true
    case Chosen(pid) => pid in k.procs
    case Seen(pid, start) => IsMember(k, leader, pid) && start == k.procs[pid].start
    case Opened(pid, start, fd) => IsMember(k, leader, pid) && start == k.procs[pid].start && fd == IdentOf(k, pid)
    case Confirmed(pid, start, fd) => IsMember(k, leader, pid) && start == k.procs[pid].start && fd == IdentOf(k, pid)
  }

  predicate InHand(e: Exam, p: Pid) {
    !e.Idle? && e.pid == p
  }

  /** How many processes the directory has not handed out yet. */
  function Left(k: Table, cursor: Pid): nat {
    |From(k, cursor)|
  }

  function From(k: Table, cursor: Pid): set<Pid> {
    set p | p in k.procs && cursor <= p
  }

  predicate ScanStill(k: Table, leader: Ident, s: Scanner)
    requires s.phase.Scanning?
  {
    var ph := s.phase;
    && s.complete && ph.births == k.births && ExamStill(k, leader, ph.exam)
    && (forall p :: p in ph.entries ==> p in k.procs)
    && (ph.ended ==> forall p :: p in k.procs ==> p < ph.cursor)
    && MembersOnly(k, leader, s.members)
    && |s.members| + |ph.entries| + Left(k, ph.cursor) + (if ph.exam.Idle? then 0 else 1) <= |k.procs|
    && (forall p :: p in k.procs && IsMember(k, leader, p) && p < ph.cursor ==>
          p in ph.entries || InHand(ph.exam, p) || IdentOf(k, p) in s.members)
  }

  predicate ScanDone(k: Table, leader: Ident, s: Scanner) {
    s.complete && MembersOnly(k, leader, s.members) && HasAll(k, leader, s.members) && |s.members| <= |k.procs|
  }

  predicate IdsStill(s: Scanner, n: nat) {
    |s.ids| == n <= |s.members| && forall j :: 0 <= j < n ==> s.ids[j] == Some(s.members[j].pid)
  }

  /** Where the call can be, in its first round or, `second`, in one whose predecessor has
      listed all members. */
  predicate Still(w: World, leader: Ident, second: bool) {
    var k, s := w.k, w.s;
    && (second ==> HasAll(k, leader, s.previous) && |s.previous| <= |k.procs|)
    && match s.phase
       case CheckFirst => s.members == []
       case Poll(i) => i <= |s.previous| && s.members == [] && DeadKnown(k, leader, s.dead, s.previous[..i])
       case PollPid(i) => i < |s.previous| && s.members == [] && DeadKnown(k, leader, s.dead, s.previous[..i])
       case FirstCount => s.members == [] && DeadKnown(k, leader, s.dead, s.previous)
       case Scanning(_, _, _, _, _) => DeadKnown(k, leader, s.dead, s.previous) && ScanStill(k, leader, s)
       case CheckSecond => DeadKnown(k, leader, s.dead, s.previous) && ScanDone(k, leader, s)
       case ReadIds(i) => DeadKnown(k, leader, s.dead, s.previous) && ScanDone(k, leader, s) && IdsStill(s, i)
       case Compare(i) =>
         DeadKnown(k, leader, s.dead, s.previous) && ScanDone(k, leader, s) && IdsStill(s, |s.members|) && i <= |s.ids|
       case Killing(i) => !second && ScanDone(k, leader, s) && i <= |s.members|
       case Returned => true
       case Raised => false
  }

  /** A step of the call itself that does not give up, over a directory that hands out
      present processes. */
  ghost predicate OwnStep(w: World, w': World, leader: Ident, a: Action) {
    && Next(w, w', leader, a) && !a.Environment? && !a.GiveUp?
    && (a.Directory? && a.next.Some? ==> a.next.value in w.k.procs)
  }

  /** Whether the last round is on. */
  predicate IsSecond(w: World, w': World, second: bool) {
    second || (w.s.phase.Killing? && w'.s.phase.CheckFirst?)
  }

  lemma MembersAreDead(k: Table, leader: Ident, p: Pid)
    requires DeadGroup(k, leader) && IsMember(k, leader, p)
    ensures !k.procs[p].live && k.procs[p].group == leader
  {
    UnreapedLeaderPinsNumber(k, leader, p);
    if k.procs[p].live { assert LiveIn(k, leader, IdentOf(k, p)); }
  }

  // ----- the number of steps -----

  /** The parts of the longest round over `n` processes: the decision, the scan, the polls. */
  function Decide(n: nat, second: bool): nat {
    2 * n + 3 + if second then 0 else n + 1 + WholeRound(n, n, true)
  }

  function Counting(n: nat, second: bool): nat {
    6 * n + 3 + Decide(n, second)
  }

  function WholeRound(n: nat, previous: nat, second: bool): nat
    decreases !second, 1
  {
    2 * previous + 2 + 6 * n + 3 + 2 * n + 3 + if second then 0 else n + 1 + WholeRound(n, n, true)
  }

  function ExamLeft(e: Exam): nat {
    match e
    case Idle => 0
    case Chosen(_) => 4
    case Seen(_, _) => 3
    case Opened(_, _, _) => 2
    case Confirmed(_, _, _) => 1
  }

  /** How many steps are left at most. */
  function StepsLeft(w: World, second: bool): int {
    var n, s := |w.k.procs|, w.s;
    var next := if second then 0 else n + 1 + WholeRound(n, n, true);
    match s.phase
    case CheckFirst => WholeRound(n, |s.previous|, second)
    case Poll(i) => 2 * (|s.previous| - i) + 1 + Counting(n, second)
    case PollPid(i) => 2 * (|s.previous| - i) + Counting(n, second)
    case FirstCount => Counting(n, second)
    case Scanning(_, cursor, ended, entries, exam) =>
      6 * Left(w.k, cursor) + 5 * |entries| + ExamLeft(exam) + (if ended then 0 else 1) + 1 + Decide(n, second)
    case CheckSecond => Decide(n, second)
    case ReadIds(i) => 2 * |s.members| - i + 2 + next
    case Compare(i) => |s.members| - i + 1 + next
    case Killing(i) => |s.members| - i + 1 + WholeRound(n, n, true)
    case _ => 0
  }

  // ----- every step of such a round -----

  lemma LeftFromZero(k: Table)
    ensures Left(k, 0) == |k.procs|
  {
    assert From(k, 0) == k.procs.Keys;
  }

  lemma LeftAfter(k: Table, cursor: Pid, p: Pid)
    requires cursor <= p && p in k.procs && forall q :: cursor <= q < p ==> q !in k.procs
    ensures Left(k, p + 1) == Left(k, cursor) - 1
  {
    assert From(k, cursor) == From(k, p + 1) + {p};
  }

  lemma PollStep(w: World, w': World, leader: Ident, second: bool)
    requires DeadGroup(w.k, leader) && Still(w, leader, second) && OwnStep(w, w', leader, Loop)
    requires w.s.phase.CheckFirst? || w.s.phase.Poll? || w.s.phase.PollPid?
    ensures Still(w', leader, second) && StepsLeft(w', second) < StepsLeft(w, second) && w'.k == w.k
    ensures !w'.s.phase.CheckFirst?
  {
    var s := w.s;
    hide Decide, HasAll, WholeRound, Counting;
    if s.phase.CheckFirst? {
      WholeRoundIs(|w.k.procs|, |s.previous|, second);
      hide DeadGroup;
    } else {
      var i := s.phase.i;
      if i < |s.previous| {
        PolledOne(w.k, leader, s.dead, s.previous, i);
      } else {
        assert s.previous[..i] == s.previous;
      }
      hide DeadKnown, DeadGroup;
    }
  }

  lemma WholeRoundIs(n: nat, previous: nat, second: bool)
    ensures WholeRound(n, previous, second) == 2 * previous + 2 + Counting(n, second)
    ensures Decide(n, second) == 2 * n + 3 + if second then 0 else n + 1 + WholeRound(n, n, true)
  {
  }

  /** One more handle: of a member it is dead, and its pid is noted. */
  lemma PolledOne(k: Table, leader: Ident, dead: map<Pid, Ident>, previous: seq<Ident>, i: nat)
    requires DeadGroup(k, leader) && i < |previous| && DeadKnown(k, leader, dead, previous[..i])
    ensures Live(k, previous[i]) ==> DeadKnown(k, leader, dead, previous[..i + 1])
    ensures PidfdPid(k, previous[i]) == None ==> DeadKnown(k, leader, dead, previous[..i + 1])
    ensures PidfdPid(k, previous[i]).Some? ==>
      DeadKnown(k, leader, dead[previous[i].pid := previous[i]], previous[..i + 1])
  {
    assert previous[..i + 1] == previous[..i] + [previous[i]];
    if IsMember(k, leader, previous[i].pid) { MembersAreDead(k, leader, previous[i].pid); }
  }

  lemma CountStep(w: World, w': World, leader: Ident, second: bool)
    requires DeadGroup(w.k, leader) && Still(w, leader, second) && OwnStep(w, w', leader, Loop) && w.s.phase.FirstCount?
    ensures Still(w', leader, second) && StepsLeft(w', second) < StepsLeft(w, second) && w'.k == w.k
    ensures w'.s.phase.Scanning?
  {
    LeftFromZero(w.k);
  }

  lemma DirectoryStep(w: World, w': World, leader: Ident, second: bool, a: Action)
    requires DeadGroup(w.k, leader) && Still(w, leader, second) && OwnStep(w, w', leader, a) && a.Directory?
    ensures Still(w', leader, second) && StepsLeft(w', second) < StepsLeft(w, second) && w'.k == w.k
    ensures w'.s.phase.Scanning?
  {
    if a.next.Some? {
      LeftAfter(w.k, w.s.phase.cursor, a.next.value);
      assert w'.s.phase.entries[|w.s.phase.entries|] == a.next.value;
    }
  }

  lemma EntryStep(w: World, w': World, leader: Ident, second: bool)
    requires DeadGroup(w.k, leader) && Still(w, leader, second) && OwnStep(w, w', leader, Examine)
    ensures Still(w', leader, second) && StepsLeft(w', second) < StepsLeft(w, second) && w'.k == w.k
    ensures w'.s.phase.Scanning?
  {
    hide Decide, WholeRound, Counting, Left, DeadKnown, HasAll;
    var ph := w.s.phase;
    if ph.exam.Idle? {
      assert ph.entries == [ph.entries[0]] + ph.entries[1..];
      hide ExamStill, MembersOnly, DeadGroup;
    } else {
      MemberTaken(w, w', leader);
    }
  }

  /** An entry that has been examined is a member and listed, or none. */
  lemma MemberTaken(w: World, w': World, leader: Ident)
    requires w.s.phase.Scanning? && !w.s.phase.exam.Idle? && ScanStill(w.k, leader, w.s)
    requires w'.k == w.k && ExamineStep(w.k, w.s, w'.s, leader)
    ensures w'.s.phase.Scanning? && ScanStill(w'.k, leader, w'.s)
    ensures w'.s == w.s.(phase := w.s.phase.(exam := w'.s.phase.exam), members := w'.s.members)
    ensures ExamLeft(w'.s.phase.exam) < ExamLeft(w.s.phase.exam)
  {
    hide Left;
  }

  lemma DoneStep(w: World, w': World, leader: Ident, second: bool)
    requires DeadGroup(w.k, leader) && Still(w, leader, second) && OwnStep(w, w', leader, Finish)
    ensures Still(w', leader, second) && StepsLeft(w', second) < StepsLeft(w, second) && w'.k == w.k
    ensures w'.s.phase.CheckSecond?
  {
  }

  lemma ReadStep(w: World, w': World, leader: Ident, second: bool)
    requires DeadGroup(w.k, leader) && Still(w, leader, second) && OwnStep(w, w', leader, Loop)
    requires w.s.phase.CheckSecond? || w.s.phase.ReadIds?
    ensures Still(w', leader, second) && StepsLeft(w', second) < StepsLeft(w, second) && w'.k == w.k
    ensures !w'.s.phase.CheckFirst?
  {
    hide DeadKnown, HasAll, WholeRound, MembersOnly, DeadGroup;
    if w.s.phase.CheckSecond? {
      LeaderIsPresent(w.k, leader);
    } else if w.s.phase.i < |w.s.members| {
      IdRead(w.k, leader, w.s.members, w.s.phase.i);
    } else {
      LeaderRead(w.k, leader, w.s);
    }
  }

  lemma LeaderIsPresent(k: Table, leader: Ident)
    requires DeadGroup(k, leader)
    ensures Present(k, leader)
  {
  }

  lemma IdRead(k: Table, leader: Ident, members: seq<Ident>, i: nat)
    requires MembersOnly(k, leader, members) && i < |members|
    ensures PidfdPid(k, members[i]) == Some(members[i].pid)
  {
    assert members[i] in members;
  }

  lemma CompareStep(w: World, w': World, leader: Ident, second: bool)
    requires DeadGroup(w.k, leader) && Still(w, leader, second) && OwnStep(w, w', leader, Loop)
    requires w.s.phase.Compare?
    ensures Still(w', leader, second) && StepsLeft(w', second) < StepsLeft(w, second) && w'.k == w.k
    ensures !w'.s.phase.CheckFirst?
  {
    hide DeadGroup, DeadKnown, HasAll, WholeRound, MembersOnly;
    if w.s.phase.i < |w.s.ids| && second { DeadRead(w.k, leader, w.s, w.s.phase.i); }
  }

  lemma KillStep(w: World, w': World, leader: Ident, second: bool)
    requires DeadGroup(w.k, leader) && Still(w, leader, second) && OwnStep(w, w', leader, Loop)
    requires w.s.phase.Killing?
    ensures var second' := IsSecond(w, w', second);
      Still(w', leader, second') && StepsLeft(w', second') < StepsLeft(w, second) && w'.k == w.k
    ensures !second
  {
    RoundGrows(|w.k.procs|, |w.s.members|);
    hide DeadGroup, DeadKnown, MembersOnly, HasAll, WholeRound;
  }

  lemma RoundGrows(n: nat, previous: nat)
    requires previous <= n
    ensures WholeRound(n, previous, true) <= WholeRound(n, n, true)
  {
  }

  lemma DecideStep(w: World, w': World, leader: Ident, second: bool)
    requires DeadGroup(w.k, leader) && Still(w, leader, second) && OwnStep(w, w', leader, Loop)
    requires w.s.phase.CheckSecond? || w.s.phase.ReadIds? || w.s.phase.Compare? || w.s.phase.Killing?
    ensures var second' := IsSecond(w, w', second);
      Still(w', leader, second') && StepsLeft(w', second') < StepsLeft(w, second) && w'.k == w.k
    ensures w'.s.phase.CheckFirst? ==> !second && w.s.phase.Killing?
  {
    hide DeadGroup, Still, OwnStep, StepsLeft;
    if w.s.phase.Killing? {
      KillStep(w, w', leader, second);
    } else if w.s.phase.Compare? {
      CompareStep(w, w', leader, second);
    } else {
      ReadStep(w, w', leader, second);
    }
  }

  lemma LeaderRead(k: Table, leader: Ident, s: Scanner)
    requires DeadGroup(k, leader) && ScanDone(k, leader, s) && IdsStill(s, |s.members|)
    ensures Some(leader.pid) in s.ids
  {
    assert IsMember(k, leader, leader.pid);
    var j :| 0 <= j < |s.members| && s.members[j] == leader;
    assert s.ids[j] == Some(leader.pid);
  }

  lemma DeadRead(k: Table, leader: Ident, s: Scanner, i: nat)
    requires DeadKnown(k, leader, s.dead, s.previous) && HasAll(k, leader, s.previous)
    requires ScanDone(k, leader, s) && IdsStill(s, |s.members|) && i < |s.ids|
    ensures s.ids[i].Some? && s.ids[i].value in s.dead && PidfdPid(k, s.dead[s.ids[i].value]) == s.ids[i]
  {
    var m := s.members[i];
    assert m in s.members && m in s.previous;
  }

  // ----- the whole rest of the call -----

  lemma OwnStepKeepsStill(w: World, w': World, leader: Ident, second: bool, a: Action)
    requires DeadGroup(w.k, leader) && Still(w, leader, second) && OwnStep(w, w', leader, a)
    ensures var second' := IsSecond(w, w', second);
      Still(w', leader, second') && StepsLeft(w', second') < StepsLeft(w, second) && w'.k == w.k
    ensures w'.s.phase.CheckFirst? ==> !second && IsSecond(w, w', second)
  {
    OwnStepKind(w, w', leader, second, a);
    hide DeadGroup, Still, OwnStep, StepsLeft;
    match a
    case Directory(_) => DirectoryStep(w, w', leader, second, a);
    case Examine => EntryStep(w, w', leader, second);
    case Finish => DoneStep(w, w', leader, second);
    case _ =>
      var ph := w.s.phase;
      if ph.CheckFirst? || ph.Poll? || ph.PollPid? {
        PollStep(w, w', leader, second);
      } else if ph.FirstCount? {
        CountStep(w, w', leader, second);
      } else {
        DecideStep(w, w', leader, second);
      }
  }

  lemma OwnStepKind(w: World, w': World, leader: Ident, second: bool, a: Action)
    requires Still(w, leader, second) && OwnStep(w, w', leader, a)
    ensures a == Loop || a.Directory? || a == Examine || a == Finish
    ensures a == Loop ==> var ph := w.s.phase;
      ph.CheckFirst? || ph.Poll? || ph.PollPid? || ph.FirstCount? || ph.CheckSecond? || ph.ReadIds? || ph.Compare? || ph.Killing?
    ensures a != Loop ==> w.s.phase.Scanning?
  {
  }

  lemma LoopStepExists(k: Table, s: Scanner, leader: Ident) returns (s': Scanner)
    requires !s.phase.Scanning? && !s.phase.Returned? && !s.phase.Raised? && (s.phase.PollPid? ==> s.phase.i < |s.previous|)
    ensures LoopStep(k, s, s', leader)
  {
    match s.phase
    case CheckFirst => s' := if Present(k, leader) then s.(phase := Poll(0), dead := map[]) else s.(phase := Raised);
    case Poll(i) =>
      if i < |s.previous| {
        s' := s.(phase := if Live(k, s.previous[i]) then Poll(i + 1) else PollPid(i));
      } else {
        s' := s.(phase := FirstCount);
      }
    case PollPid(i) =>
      s' := if PidfdPid(k, s.previous[i]).Some? then
              s.(phase := Poll(i + 1), dead := s.dead[PidfdPid(k, s.previous[i]).value := s.previous[i]])
            else s.(phase := Poll(i + 1));
    case FirstCount => s' := StartScan(s, k.births, LiveMembers(k, leader));
    case CheckSecond => s' := if Present(k, leader) then s.(phase := ReadIds(0), ids := []) else s.(phase := Raised);
    case ReadIds(i) =>
      if i < |s.members| {
        s' := s.(phase := ReadIds(i + 1), ids := s.ids + [PidfdPid(k, s.members[i])]);
      } else {
        s' := s.(phase := if s.complete && Some(leader.pid) in s.ids then Compare(0) else Killing(0));
      }
    case Compare(i) =>
      if i < |s.ids| {
        var provenDead :=
          && s.ids[i].Some? && s.ids[i].value in s.dead
          && PidfdPid(k, s.dead[s.ids[i].value]) == s.ids[i];
        s' := s.(phase := if provenDead then Compare(i + 1) else Killing(0));
      } else {
        s' := s.(phase := Returned);
      }
    case Killing(i) =>
      if i < |s.members| {
        s' := s.(phase := Killing(i + 1));
      } else {
        s' := s.(phase := CheckFirst, previous := s.members, members := []);
      }
  }

  /** The call is never stuck before it has returned. */
  lemma NeverStuck(w: World, leader: Ident, second: bool)
    requires Still(w, leader, second) && !w.s.phase.Returned?
    ensures exists w', a :: OwnStep(w, w', leader, a)
  {
    var k, s := w.k, w.s;
    if !s.phase.Scanning? {
      var s' := LoopStepExists(k, s, leader);
      assert OwnStep(w, World(k, s'), leader, Loop);
    } else if s.phase.exam != Idle || s.phase.entries != [] {
      ExamineExists(w, leader);
    } else if s.phase.ended {
      assert OwnStep(w, World(k, s.(phase := CheckSecond, complete := s.complete && k.births == s.phase.births)), leader, Finish);
    } else {
      DirectoryExists(w, leader);
    }
  }

  lemma ExamineExists(w: World, leader: Ident)
    requires w.s.phase.Scanning? && (w.s.phase.exam != Idle || w.s.phase.entries != []) && ScanStill(w.k, leader, w.s)
    ensures exists w', a :: OwnStep(w, w', leader, a)
  {
    var s, ph := w.s, w.s.phase;
    var next := match ph.exam
      case Idle => s.(phase := ph.(entries := ph.entries[1..], exam := Chosen(ph.entries[0])))
      case Chosen(pid) => s.(phase := ph.(exam := if IsMember(w.k, leader, pid) then Seen(pid, w.k.procs[pid].start) else Idle))
      case Seen(pid, start) => s.(phase := ph.(exam := Opened(pid, start, IdentOf(w.k, pid))))
      case Opened(pid, start, fd) => s.(phase := ph.(exam := Confirmed(pid, start, fd)))
      case Confirmed(pid, start, fd) => s.(members := s.members + [fd], phase := ph.(exam := Idle));
    assert OwnStep(w, World(w.k, next), leader, Examine);
  }

  /** The next process the directory hands out, or its end. */
  lemma DirectoryExists(w: World, leader: Ident)
    requires w.s.phase.Scanning? && !w.s.phase.ended
    ensures exists w', a :: OwnStep(w, w', leader, a)
  {
    var k, s, ph := w.k, w.s, w.s.phase;
    if p: Pid :| p in k.procs && ph.cursor <= p {
      var q := First(k, ph.cursor, p);
      assert OwnStep(w, World(k, s.(phase := ph.(cursor := q + 1, entries := ph.entries + [q]))), leader, Directory(Some(q)));
    } else {
      assert OwnStep(w, World(k, s.(phase := ph.(ended := true))), leader, Directory(None));
    }
  }

  lemma First(k: Table, cursor: Pid, p: Pid) returns (q: Pid)
    requires p in k.procs && cursor <= p
    ensures q in k.procs && cursor <= q && forall x :: cursor <= x < q ==> x !in k.procs
  {
    q := cursor;
    while q !in k.procs
      invariant cursor <= q <= p && forall x :: cursor <= x < q ==> x !in k.procs
      decreases p - q
    {
      q := q + 1;
    }
  }

  /** Nothing but the call itself steps, and it does not give up. */
  ghost predicate Alone(ws: seq<World>, acts: seq<Action>, leader: Ident, i: nat, j: nat)
    requires i <= j <= |acts| < |ws|
  {
    forall t :: i <= t < j ==> OwnStep(ws[t], ws[t + 1], leader, acts[t])
  }

  /** `ws[m]` is the only start of a round after `i`, if there is one; before it the first
      round is on, after it the second. */
  lemma {:induction false} AloneStaysStill(ws: seq<World>, acts: seq<Action>, leader: Ident, i: nat, j: nat)
    returns (second: bool, m: nat)
    requires i <= j <= |acts| < |ws| && Alone(ws, acts, leader, i, j)
    requires DeadGroup(ws[i].k, leader) && Still(ws[i], leader, false)
    ensures ws[j].k == ws[i].k && Still(ws[j], leader, second)
    ensures StepsLeft(ws[j], second) + (j - i) <= StepsLeft(ws[i], false)
    ensures i <= m <= j && forall t :: i < t <= j && ws[t].s.phase.CheckFirst? ==> t == m
    ensures second <==> m > i
    decreases j
  {
    hide OwnStep, DeadGroup, Still, StepsLeft;
    if i == j {
      second, m := false, i;
    } else {
      second, m := AloneStaysStill(ws, acts, leader, i, j - 1);
      var w, w' := ws[j - 1], ws[j];
      assert OwnStep(w, ws[j - 1 + 1], leader, acts[j - 1]);
      OwnStepKeepsStill(w, w', leader, second, acts[j - 1]);
      if IsSecond(w, w', second) && !second { m := j; }
      second := IsSecond(w, w', second);
    }
  }

  lemma {:induction false} RoundStartsEmpty(ws: seq<World>, acts: seq<Action>, leader: Ident, i: nat)
    requires Run(ws, acts, leader) && i < |ws| && ws[i].s.phase.CheckFirst?
    ensures ws[i].s.members == []
  {
    if i > 0 {
      assert Next(ws[i - 1], ws[i - 1 + 1], leader, acts[i - 1]);
      if ws[i - 1].s.phase.CheckFirst? { RoundStartsEmpty(ws, acts, leader, i - 1); }
    }
  }

  /** From the start of any round, with the leader an unreaped zombie, its group dead, and
      nothing else moving: the call does not raise, at most one further round begins, it is
      over after at most `WholeRound` steps of its own, and until it has returned it can
      take another. */
  lemma DeadGroupReturns(ws: seq<World>, acts: seq<Action>, leader: Ident, i: nat, j: nat)
    requires Run(ws, acts, leader) && i <= j <= |acts| && Alone(ws, acts, leader, i, j)
    requires ws[i].s.phase.CheckFirst? && DeadGroup(ws[i].k, leader)
    ensures !ws[j].s.phase.Raised?
    ensures forall s, t :: i < s < t <= j ==> !(ws[s].s.phase.CheckFirst? && ws[t].s.phase.CheckFirst?)
    ensures j - i <= WholeRound(|ws[i].k.procs|, |ws[i].s.previous|, false)
    ensures !ws[j].s.phase.Returned? ==> exists w', a :: OwnStep(ws[j], w', leader, a)
  {
    RoundStartsEmpty(ws, acts, leader, i);
    var second, m := AloneStaysStill(ws, acts, leader, i, j);
    hide Alone, Run, DeadGroup;
    StepsRemain(ws[j], leader, second);
    if !ws[j].s.phase.Returned? { NeverStuck(ws[j], leader, second); }
  }

  lemma StepsRemain(w: World, leader: Ident, second: bool)
    requires Still(w, leader, second)
    ensures StepsLeft(w, second) >= 0
  {
  }
}
