/** `_kill_members` as a protocol: each read of `/proc`, each pidfd call and each
    signal is one step, and the rest of the system may take any number of steps
    between two of them.
  */
module MemberScan {
  import opened Basics
  import opened ProcessTable

  /** How far the scan has got with the directory entry in hand. */
  datatype Exam =
    | Idle
    | Chosen(pid: Pid)                            // about to read its stat
    | Seen(pid: Pid, start: nat)                  // in the group; about to open a pidfd
    | Opened(pid: Pid, start: nat, fd: Ident)     // about to read its stat again
    | Confirmed(pid: Pid, start: nat, fd: Ident)  // same stat; about to ask the pidfd for its pid

  datatype Phase =
    | CheckFirst
    | Poll(i: nat)
    | PollPid(i: nat)
    | FirstCount
    | Scanning(births: nat, cursor: Pid, ended: bool, entries: seq<Pid>, exam: Exam)
    | CheckSecond
    | ReadIds(i: nat)
    | Compare(i: nat)
    | Killing(i: nat)
    | Returned
    | Raised

  /** The locals of `_kill_members` and of the scan it calls.  `watch` and `joined`
      are never read by a step: the live members when the scan began, and every
      identity that was ever in the group. */
  datatype Scanner = Scanner(
    phase: Phase,
    previous: seq<Ident>,
    dead: map<Pid, Ident>,
    members: seq<Ident>,
    complete: bool,
    ids: seq<Option<Pid>>,
    watch: set<Ident>,
    joined: set<Ident>)

  datatype World = World(k: Table, s: Scanner)

  /** `_pidfd_pid`: the pid while the process is unreaped, else none. */
  function PidfdPid(k: Table, fd: Ident): Option<Pid> {
    if Present(k, fd) then Some(fd.pid) else None
  }

  function LiveMembers(k: Table, g: Ident): set<Ident> {
    set p | p in k.procs && k.procs[p].group == g && k.procs[p].live :: Ident(p, k.procs[p].start)
  }

  function GroupMembers(k: Table, g: Ident): set<Ident> {
    set p | p in k.procs && k.procs[p].group == g :: Ident(p, k.procs[p].start)
  }

  function StartScan(s: Scanner, births: nat, watch: set<Ident>): Scanner {
    s.(phase := Scanning(births, 0, false, [], Idle), members := [], complete := true, watch := watch)
  }

  // ----- the scanner's own steps; each reads the table at one instant -----

  /** Readings taken outside the directory enumeration. */
  predicate LoopStep(k: Table, s: Scanner, s': Scanner, leader: Ident) {
    match s.phase
    case CheckFirst =>
      // _check_leader, then a fresh dead_before
      s' == if Present(k, leader) then s.(phase := Poll(0), dead := map[]) else s.(phase := Raised)
    case Poll(i) =>
      if i < |s.previous| then
        s' == s.(phase := if Live(k, s.previous[i]) then Poll(i + 1) else PollPid(i))
      else s' == s.(phase := FirstCount)
    case PollPid(i) =>
      && i < |s.previous|
      && s' == (match PidfdPid(k, s.previous[i])
                case Some(pid) => s.(phase := Poll(i + 1), dead := s.dead[pid := s.previous[i]])
                case None => s.(phase := Poll(i + 1)))
    case FirstCount =>
      s' == StartScan(s, k.births, LiveMembers(k, leader))
    case CheckSecond =>
      s' == if Present(k, leader) then s.(phase := ReadIds(0), ids := []) else s.(phase := Raised)
    case ReadIds(i) =>
      if i < |s.members| then
        s' == s.(phase := ReadIds(i + 1), ids := s.ids + [PidfdPid(k, s.members[i])])
      else
        s' == s.(phase := if s.complete && Some(leader.pid) in s.ids then Compare(0) else Killing(0))
    case Compare(i) =>
      if i < |s.ids| then
        var provenDead :=
          && s.ids[i].Some? && s.ids[i].value in s.dead
          && PidfdPid(k, s.dead[s.ids[i].value]) == s.ids[i];
        s' == s.(phase := if provenDead then Compare(i + 1) else Killing(0))
      else s' == s.(phase := Returned)
    case Killing(i) =>
      if i < |s.members| then s' == s.(phase := Killing(i + 1))
      else s' == s.(phase := CheckFirst, previous := s.members, members := [])
    case _ => false
  }

  /** A directory read hands out the next entry, or the end.  Whatever it passes
      over is absent at that instant; entries may be read ahead of their use. */
  ghost predicate ReadDirectory(k: Table, s: Scanner, s': Scanner, next: Option<Pid>) {
    && s.phase.Scanning? && !s.phase.ended
    && (match next
        case Some(p) =>
          && s.phase.cursor <= p && (forall q :: s.phase.cursor <= q < p ==> q !in k.procs)
          && s' == s.(phase := s.phase.(cursor := p + 1, entries := s.phase.entries + [p]))
        case None =>
          && (forall q :: s.phase.cursor <= q ==> q !in k.procs)
          && s' == s.(phase := s.phase.(ended := true)))
  }

  /** One reading for the entry in hand. */
  predicate ExamineStep(k: Table, s: Scanner, s': Scanner, leader: Ident) {
    && s.phase.Scanning?
    && match s.phase.exam
       case Idle =>
         && s.phase.entries != []
         && s' == s.(phase := s.phase.(entries := s.phase.entries[1..], exam := Chosen(s.phase.entries[0])))
       case Chosen(pid) =>
         if pid !in k.procs then s' == s.(complete := false, phase := s.phase.(exam := Idle))
         else if k.procs[pid].group.pid != leader.pid then s' == s.(phase := s.phase.(exam := Idle))
         else s' == s.(phase := s.phase.(exam := Seen(pid, k.procs[pid].start)))
       case Seen(pid, start) =>
         if pid !in k.procs then s' == s.(complete := false, phase := s.phase.(exam := Idle))
         else s' == s.(phase := s.phase.(exam := Opened(pid, start, Ident(pid, k.procs[pid].start))))
       case Opened(pid, start, fd) =>
         if pid !in k.procs || k.procs[pid].group.pid != leader.pid || k.procs[pid].start != start then
           s' == s.(complete := false, phase := s.phase.(exam := Idle))
         else s' == s.(phase := s.phase.(exam := Confirmed(pid, start, fd)))
       case Confirmed(pid, start, fd) =>
         if PidfdPid(k, fd) != Some(pid) then s' == s.(complete := false, phase := s.phase.(exam := Idle))
         else s' == s.(members := s.members + [fd], phase := s.phase.(exam := Idle))
  }

  /** The second reading of the fork counter, once every entry was examined. */
  predicate FinishScan(k: Table, s: Scanner, s': Scanner) {
    && s.phase.Scanning? && s.phase.ended && s.phase.entries == [] && s.phase.exam == Idle
    && s' == s.(phase := CheckSecond, complete := s.complete && k.births == s.phase.births)
  }

  /** The deadline, or any other error, ends the call by raising. */
  predicate Abort(s: Scanner, s': Scanner) {
    s.phase != Returned && s' == s.(phase := Raised)
  }

  datatype Action =
    | Environment(e: Event)
    | Loop
    | Directory(next: Option<Pid>)
    | Examine
    | Finish
    | GiveUp

  ghost predicate Next(w: World, w': World, leader: Ident, a: Action) {
    match a
    case Environment(e) =>
      Step(w.k, w'.k, leader, e) && w'.s == w.s.(joined := w.s.joined + GroupMembers(w'.k, leader))
    case Loop => w'.k == w.k && LoopStep(w.k, w.s, w'.s, leader)
    case Directory(next) => w'.k == w.k && ReadDirectory(w.k, w.s, w'.s, next)
    case Examine => w'.k == w.k && ExamineStep(w.k, w.s, w'.s, leader)
    case Finish => w'.k == w.k && FinishScan(w.k, w.s, w'.s)
    case GiveUp => w'.k == w.k && Abort(w.s, w'.s)
  }

  /** The call starts in any well-formed system, with an unreaped leader. */
  ghost predicate Initial(w: World, leader: Ident) {
    && WellFormed(w.k) && Present(w.k, leader)
    && w.s.phase == CheckFirst && w.s.previous == [] && w.s.members == [] && w.s.dead == map[] && w.s.watch == {}
    && w.s.joined == GroupMembers(w.k, leader)
  }

  // ----- the invariant -----

  ghost predicate Known(w: World) {
    && (forall m :: m in w.s.previous ==> m in w.k.used)
    && (forall m :: m in w.s.members ==> m in w.k.used)
    && w.s.watch <= w.k.used
    && (forall p :: p in w.s.dead ==>
          w.s.dead[p].pid == p && w.s.dead[p] in w.k.used && !Live(w.k, w.s.dead[p]))
  }

  /** The entry in hand was read from a process that is either still the same or gone. */
  ghost predicate ExamSound(w: World, leader: Ident) {
    w.s.phase.Scanning? ==>
      match w.s.phase.exam
      case Seen(pid, start) => Ident(pid, start) in w.k.used
      case Opened(pid, start, fd) =>
        && Ident(pid, start) in w.k.used && fd in w.k.used && fd.pid == pid
        && (Present(w.k, Ident(pid, start)) ==> fd.start == start)
      case Confirmed(pid, start, fd) =>
        fd == Ident(pid, start) && fd in w.k.used && (Present(w.k, leader) ==> fd in w.s.joined)
      case _ => true
  }

  /** A watched process that is still a live member has not slipped past the scan. */
  ghost predicate Covered(s: Scanner, id: Ident)
    requires s.phase.Scanning?
  {
    || (s.phase.cursor <= id.pid && !s.phase.ended)
    || id.pid in s.phase.entries
    || s.phase.exam == Chosen(id.pid)
    || s.phase.exam == Seen(id.pid, id.start)
    || s.phase.exam == Opened(id.pid, id.start, id)
    || s.phase.exam == Confirmed(id.pid, id.start, id)
    || id in s.members
  }

  /** A live member that was not there when the scan began is a child whose birth
      is not yet counted, and its parent was there. */
  ghost predicate Accounted(k: Table, s: Scanner, id: Ident) {
    || id in s.watch
    || (&& id.pid in k.procs && k.procs[id.pid].birth.Uncounted?
        && var q := k.procs[id.pid].birth.parent;
           q in k.procs && Ident(q, k.procs[q].start) in s.watch)
  }

  ghost predicate ScanSound(w: World, leader: Ident) {
    w.s.phase.Scanning? ==>
      && w.s.phase.births <= w.k.births
      && (w.s.phase.births == w.k.births ==>
            forall id: Ident :: LiveIn(w.k, leader, id) ==> Accounted(w.k, w.s, id))
      && (w.s.complete ==>
            forall id: Ident :: id in w.s.watch && LiveIn(w.k, leader, id) ==> Covered(w.s, id))
  }

  predicate AfterScan(p: Phase) {
    p.CheckSecond? || p.ReadIds? || p.Compare? || p.Killing?
  }

  /** What a finished scan has shown: a group with a live member left a witness,
      a listed member that was not dead before the scan. */
  ghost predicate Verdict(w: World, leader: Ident) {
    AfterScan(w.s.phase) && w.s.complete && !Quiet(w.k, leader) ==>
      exists m :: m in w.s.members && m !in w.s.dead.Values
  }

  /** Handles are only ever used on the leader's own group. */
  ghost predicate OwnGroup(w: World, leader: Ident) {
    && leader in w.k.used
    && (w.s.phase.Scanning? || w.s.phase.CheckSecond? ==>
          Present(w.k, leader) ==> forall m :: m in w.s.members ==> m in w.s.joined)
    && (w.s.phase.ReadIds? || w.s.phase.Compare? || w.s.phase.Killing? ==>
          && (forall m :: m in w.s.members ==> m in w.s.joined)
          && (forall m :: m in w.s.members && m.pid == leader.pid && Present(w.k, m) ==> m == leader))
  }

  /** A pid read from a member handle and confirmed by an older handle means that
      both handles hold the same process. */
  ghost predicate IdsSound(w: World, leader: Ident) {
    w.s.phase.ReadIds? || w.s.phase.Compare? ==>
      && |w.s.ids| <= |w.s.members|
      && (w.s.phase.ReadIds? ==> |w.s.ids| == w.s.phase.i)
      && (w.s.phase.Compare? ==> |w.s.ids| == |w.s.members| && Some(leader.pid) in w.s.ids && w.s.complete)
      && forall j :: 0 <= j < |w.s.ids| && w.s.ids[j].Some? ==>
           var p := w.s.ids[j].value;
           && w.s.members[j].pid == p
           && (p == leader.pid ==> w.s.members[j] == leader)
           && (p in w.s.dead && Present(w.k, w.s.dead[p]) ==> w.s.members[j] == w.s.dead[p])
  }

  ghost predicate CompareSound(w: World) {
    w.s.phase.Compare? ==>
      forall j :: 0 <= j < w.s.phase.i && j < |w.s.members| ==> w.s.members[j] in w.s.dead.Values
  }

  ghost predicate Inv(w: World, leader: Ident) {
    && WellFormed(w.k)
    && Known(w)
    && (w.s.phase.PollPid? ==> w.s.phase.i < |w.s.previous| && !Live(w.k, w.s.previous[w.s.phase.i]))
    && ExamSound(w, leader)
    && ScanSound(w, leader)
    && Verdict(w, leader)
    && OwnGroup(w, leader)
    && IdsSound(w, leader)
    && CompareSound(w)
    && (w.s.phase.Returned? ==> Quiet(w.k, leader) && !Live(w.k, leader))
    && GroupMembers(w.k, leader) <= w.s.joined
  }

  // ----- every step keeps it -----

  lemma InitialInv(w: World, leader: Ident)
    requires Initial(w, leader)
    ensures Inv(w, leader)
  {
  }

  lemma EnvironmentKeepsScan(w: World, w': World, leader: Ident, e: Event)
    requires Inv(w, leader) && Next(w, w', leader, Environment(e))
    ensures ScanSound(w', leader)
  {
    if w.s.phase.Scanning? {
      forall id: Ident | w'.s.phase.births == w'.k.births && LiveIn(w'.k, leader, id)
        ensures Accounted(w'.k, w'.s, id)
      {
        if e.EvAttach? && id == Ident(e.child, e.start) {
          assert LiveIn(w.k, leader, Ident(e.parent, w.k.procs[e.parent].start));
        } else {
          assert LiveIn(w.k, leader, id);
          assert Accounted(w.k, w.s, id);
          if id !in w.s.watch {
            assert ParentHeld(w.k, id.pid);
          }
        }
      }
      forall id: Ident | w.s.complete && id in w.s.watch && LiveIn(w'.k, leader, id)
        ensures Covered(w'.s, id)
      {
        assert id in w.k.used;
        IdentitiesNeverReturn(w.k, w'.k, leader, e, id);
      }
    }
  }

  lemma EnvironmentKeepsInv(w: World, w': World, leader: Ident, e: Event)
    requires Inv(w, leader) && Next(w, w', leader, Environment(e))
    ensures Inv(w', leader)
  {
    StepKeepsWellFormed(w.k, w'.k, leader, e);
    EnvironmentKeepsScan(w, w', leader, e);
    forall id: Ident | id in w.k.used
      ensures id in w'.k.used
      ensures Present(w'.k, id) ==> Present(w.k, id)
      ensures Live(w'.k, id) ==> Live(w.k, id)
    {
      IdentitiesNeverReturn(w.k, w'.k, leader, e, id);
    }
    if Quiet(w.k, leader) {
      QuietIsForever(w.k, w'.k, leader, e);
    }
  }

  lemma PollingKeepsInv(w: World, w': World, leader: Ident)
    requires Inv(w, leader) && Next(w, w', leader, Loop)
    requires w.s.phase.CheckFirst? || w.s.phase.Poll? || w.s.phase.PollPid?
    ensures Inv(w', leader)
  {
  }

  lemma FirstCountKeepsInv(w: World, w': World, leader: Ident)
    requires Inv(w, leader) && Next(w, w', leader, Loop) && w.s.phase.FirstCount?
    ensures Inv(w', leader)
  {
    forall id: Ident | LiveIn(w.k, leader, id) ensures id in w'.s.watch {
      assert id.pid in w.k.procs;
    }
  }

  lemma CheckSecondKeepsInv(w: World, w': World, leader: Ident)
    requires Inv(w, leader) && Next(w, w', leader, Loop) && w.s.phase.CheckSecond?
    ensures Inv(w', leader)
  {
  }

  lemma ReadIdsKeepsInv(w: World, w': World, leader: Ident)
    requires Inv(w, leader) && Next(w, w', leader, Loop) && w.s.phase.ReadIds?
    ensures Inv(w', leader)
  {
  }

  lemma DecidingKeepsInv(w: World, w': World, leader: Ident)
    requires Inv(w, leader) && Next(w, w', leader, Loop)
    requires w.s.phase.Compare? || w.s.phase.Killing?
    ensures Inv(w', leader)
  {
    if w.s.phase == Compare(|w.s.ids|) {
      CompareProves(w, leader);
    }
  }

  /** The last comparison: every listed member was dead before the scan. */
  lemma CompareProves(w: World, leader: Ident)
    requires Inv(w, leader) && w.s.phase == Compare(|w.s.ids|)
    ensures Quiet(w.k, leader) && !Live(w.k, leader)
  {
    var j :| 0 <= j < |w.s.ids| && w.s.ids[j] == Some(leader.pid);
    assert w.s.members[j] == leader;
  }

  lemma DirectoryKeepsInv(w: World, w': World, leader: Ident, next: Option<Pid>)
    requires Inv(w, leader) && Next(w, w', leader, Directory(next))
    ensures Inv(w', leader)
  {
    forall id: Ident | w.s.complete && id in w.s.watch && LiveIn(w.k, leader, id)
      ensures Covered(w'.s, id)
    {
      assert Covered(w.s, id);
      if next.Some? {
        assert w'.s.phase.entries[|w.s.phase.entries|] == next.value;
      }
    }
  }

  lemma ExamineCovers(w: World, w': World, leader: Ident, id: Ident)
    requires Inv(w, leader) && Next(w, w', leader, Examine)
    requires w'.s.complete && id in w.s.watch && LiveIn(w.k, leader, id)
    ensures Covered(w'.s, id)
  {
    assert Covered(w.s, id);
    if w.s.phase.exam == Idle && id.pid in w.s.phase.entries && id.pid != w.s.phase.entries[0] {
      assert id.pid in w.s.phase.entries[1..];
    }
  }

  lemma ExamineKeepsExam(w: World, w': World, leader: Ident)
    requires Inv(w, leader) && Next(w, w', leader, Examine)
    ensures Known(w') && ExamSound(w', leader)
  {
    if w.s.phase.exam.Opened? && Present(w.k, leader) && w'.s.phase.exam.Confirmed? {
      UnreapedLeaderPinsNumber(w.k, leader, w.s.phase.exam.pid);
    }
  }

  lemma ExamineKeepsInv(w: World, w': World, leader: Ident)
    requires Inv(w, leader) && Next(w, w', leader, Examine)
    ensures Inv(w', leader)
  {
    ExamineKeepsExam(w, w', leader);
    forall id: Ident | w'.s.complete && id in w.s.watch && LiveIn(w.k, leader, id)
      ensures Covered(w'.s, id)
    {
      ExamineCovers(w, w', leader, id);
    }
    hide Covered;
  }

  lemma FinishKeepsInv(w: World, w': World, leader: Ident)
    requires Inv(w, leader) && Next(w, w', leader, Finish)
    ensures Inv(w', leader)
  {
  }

  lemma NextKeepsInv(w: World, w': World, leader: Ident, a: Action)
    requires Inv(w, leader) && Next(w, w', leader, a)
    ensures Inv(w', leader)
  {
    match a
    case Environment(e) => EnvironmentKeepsInv(w, w', leader, e);
    case Loop =>
      match w.s.phase {
        case FirstCount => FirstCountKeepsInv(w, w', leader);
        case CheckSecond => CheckSecondKeepsInv(w, w', leader);
        case ReadIds(_) => ReadIdsKeepsInv(w, w', leader);
        case Compare(_) => DecidingKeepsInv(w, w', leader);
        case Killing(_) => DecidingKeepsInv(w, w', leader);
        case _ => PollingKeepsInv(w, w', leader);
      }
    case Directory(next) => DirectoryKeepsInv(w, w', leader, next);
    case Examine => ExamineKeepsInv(w, w', leader);
    case Finish => FinishKeepsInv(w, w', leader);
    case GiveUp =>
  }

  // ----- whole runs -----

  /** Any interleaving of one `_kill_members` call with the rest of the system. */
  ghost predicate Run(ws: seq<World>, acts: seq<Action>, leader: Ident) {
    && |ws| == |acts| + 1
    && Initial(ws[0], leader)
    && forall i :: 0 <= i < |acts| ==> Next(ws[i], ws[i + 1], leader, acts[i])
  }

  lemma {:induction false} RunKeepsInv(ws: seq<World>, acts: seq<Action>, leader: Ident, i: nat)
    requires Run(ws, acts, leader) && i < |ws|
    ensures Inv(ws[i], leader)
  {
    if i == 0 {
      InitialInv(ws[0], leader);
    } else {
      RunKeepsInv(ws, acts, leader, i - 1);
      NextKeepsInv(ws[i - 1], ws[i], leader, acts[i - 1]);
    }
  }

  lemma {:induction false} ReturnedIsFinal(ws: seq<World>, acts: seq<Action>, leader: Ident, i: nat, j: nat)
    requires Run(ws, acts, leader) && i <= j < |ws| && ws[i].s.phase.Returned?
    ensures ws[j].s.phase.Returned?
  {
    if i < j {
      ReturnedIsFinal(ws, acts, leader, i, j - 1);
      assert Next(ws[j - 1], ws[j], leader, acts[j - 1]);
    }
  }

  /** When the call returns normally the leader is dead and the group has no live
      member, then and at every later moment.  As long as nobody has reaped the
      leader, that covers every process showing the group's number. */
  lemma NormalReturnMeansGroupIsDead(ws: seq<World>, acts: seq<Action>, leader: Ident, i: nat, j: nat)
    requires Run(ws, acts, leader) && i <= j < |ws| && ws[i].s.phase.Returned?
    ensures !Live(ws[j].k, leader)
    ensures forall id: Ident :: !LiveIn(ws[j].k, leader, id)
    ensures Present(ws[j].k, leader) ==>
              forall p :: p in ws[j].k.procs && ws[j].k.procs[p].group.pid == leader.pid ==> !ws[j].k.procs[p].live
  {
    ReturnedIsFinal(ws, acts, leader, i, j);
    RunKeepsInv(ws, acts, leader, j);
    var k := ws[j].k;
    if Present(k, leader) {
      forall p | p in k.procs && k.procs[p].group.pid == leader.pid ensures !k.procs[p].live {
        UnreapedLeaderPinsNumber(k, leader, p);
        assert !LiveIn(k, leader, Ident(p, k.procs[p].start));
      }
    }
  }

  lemma {:induction false} JoinedWasMember(ws: seq<World>, acts: seq<Action>, leader: Ident, i: nat, id: Ident)
    requires Run(ws, acts, leader) && i < |ws| && id in ws[i].s.joined
    ensures exists j :: 0 <= j <= i && InGroup(ws[j].k, leader, id)
  {
    if i == 0 {
      assert InGroup(ws[0].k, leader, id);
    } else if id in ws[i - 1].s.joined {
      JoinedWasMember(ws, acts, leader, i - 1, id);
    } else {
      assert Next(ws[i - 1], ws[i], leader, acts[i - 1]);
      assert InGroup(ws[i].k, leader, id);
    }
  }

  /** Every process the scan signals was at some moment a member of the group
      itself, however pids and group numbers were reused around it. */
  lemma OnlyMembersAreSignalled(ws: seq<World>, acts: seq<Action>, leader: Ident, i: nat)
    requires Run(ws, acts, leader) && i < |ws|
    requires ws[i].s.phase.Killing? && ws[i].s.phase.i < |ws[i].s.members|
    ensures exists j :: 0 <= j <= i && InGroup(ws[j].k, leader, ws[i].s.members[ws[i].s.phase.i])
  {
    RunKeepsInv(ws, acts, leader, i);
    JoinedWasMember(ws, acts, leader, i, ws[i].s.members[ws[i].s.phase.i]);
  }
}
