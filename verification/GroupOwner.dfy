/** `poll_exit`, `kill_group` and `GroupPopen.wait` for one group leader, run by any
    number of threads against a kernel that may let an outside reaper in at any
    moment.  One step is one kernel call or one unlocked read of a marker field.
  */
module GroupOwner {
  import opened Basics

  type Tid = nat

  datatype Leader = Running | Zombie(code: int) | ReapedByOwner | ReapedOutside

  datatype Support = Unknown | Supported | Unsupported

  datatype Entry =
    | GroupSignal    // the group signal sent through the pidfd
    | MemberSignal   // one signal of a member scan
    | NumericSignal  // killpg on the bare number
    | Marked         // _voice_group_signalled := True
    | MarkedOutside  // _voice_outside_reap := True
    | OwnerReap      // the owner's waitpid took the leader

  predicate IsSignal(e: Entry) {
    e.GroupSignal? || e.MemberSignal? || e.NumericSignal?
  }

  /** The marker fields of the process object, the support flag, the lock and the
      leader's state in the kernel.  `log` records what happened and is never read. */
  datatype Shared = Shared(
    leader: Leader,
    pidfd: bool,
    signalled: bool,
    outsideReap: bool,
    unproven: bool,
    returncode: Option<int>,
    support: Support,
    lock: Option<Tid>,
    log: seq<Entry>)

  /** Where a thread stands.  The `Kill` counters hold the group lock; `waiting`
      says whether `kill_group` was called from `wait`. */
  datatype Pc =
    | Idle
    | KillSend(waiting: bool)
    | KillCheck(waiting: bool)
    | KillDisposition(waiting: bool)
    | KillMembers(waiting: bool)
    | KillWaitid(waiting: bool)
    | KillNumeric(waiting: bool)
    | KillLost(waiting: bool)
    | WaitFlags
    | WaitSignalled
    | WaitExit
    | WaitKill
    | WaitRecheck
    | WaitReap
    | WaitReturned(code: int)
    | WaitRaised

  datatype World = World(s: Shared, pcs: map<Tid, Pc>)

  predicate InKill(pc: Pc) {
    || pc.KillSend? || pc.KillCheck? || pc.KillDisposition? || pc.KillMembers?
    || pc.KillWaitid? || pc.KillNumeric? || pc.KillLost?
  }

  // ----- the pieces under the lock -----

  /** `_outside_reap`. */
  function MarkOutside(s: Shared): Shared {
    if s.outsideReap then s.(pidfd := false)
    else s.(outsideReap := true, pidfd := false, log := s.log + [MarkedOutside])
  }

  function MarkSignalled(s: Shared): Shared {
    s.(signalled := true, log := s.log + [Marked])
  }

  /** waitid fails with ECHILD exactly when the leader is no longer there to wait for. */
  predicate NoChild(s: Shared) {
    s.leader.ReapedByOwner? || s.leader.ReapedOutside?
  }

  /** `poll_exit`: its one kernel call makes it one step. */
  function PollExit(s: Shared): (Shared, Option<int>) {
    if s.outsideReap || s.unproven then (s, None)
    else if s.returncode.Some? then (s, s.returncode)
    else if NoChild(s) then (MarkOutside(s), None)
    else if s.leader.Zombie? then (s, Some(s.leader.code))
    else (s, None)
  }

  function Release(s: Shared): Shared {
    s.(lock := None)
  }

  function AfterKill(waiting: bool): Pc {
    if waiting then WaitRecheck else Idle
  }

  function AfterError(waiting: bool): Pc {
    if waiting then WaitRaised else Idle
  }

  /** Entering `kill_group`: the refusals, then the first applicable route. */
  function EnterKill(s: Shared, t: Tid, waiting: bool): (Shared, Pc) {
    if s.signalled || s.outsideReap || s.unproven || s.returncode.Some? then (s, AfterKill(waiting))
    else (s.(lock := Some(t)),
          if s.pidfd && s.support != Unsupported then KillSend(waiting)
          else if s.pidfd then KillCheck(waiting)
          else KillDisposition(waiting))
  }

  /** What a call that can fail answered. */
  datatype Outcome = Ok | Invalid | NoProcess | ChildLost | OtherError

  /** One step inside `kill_group`.  Leaving it releases the lock. */
  predicate KillStep(s: Shared, pc: Pc, s': Shared, pc': Pc, o: Outcome) {
    match pc
    case KillSend(w) =>
      (match o
       case Ok =>
         && s' == Release(MarkSignalled(s.(support := Supported, log := s.log + [GroupSignal])))
         && pc' == AfterKill(w)
       case Invalid => s' == s.(support := Unsupported) && pc' == KillCheck(w)
       case NoProcess => s' == s && pc' == KillLost(w)
       case ChildLost => false
       case OtherError => s' == Release(s) && pc' == AfterError(w))
    case KillCheck(w) =>
      if NoChild(s) then s' == Release(MarkOutside(s)) && pc' == AfterKill(w)
      else s' == s && pc' == KillDisposition(w)
    case KillDisposition(w) =>
      if o == OtherError then s' == Release(s) && pc' == AfterError(w)
      else s' == s && pc' == if s.pidfd then KillMembers(w) else KillWaitid(w)
    case KillMembers(w) =>
      (match o
       case Ok =>  // the scan proved the group dead; its leader is no longer running
         !s.leader.Running? && s' == Release(MarkSignalled(s)) && pc' == AfterKill(w)
       case Invalid =>  // one more member signalled, the scan goes on
         s' == s.(log := s.log + [MemberSignal]) && pc' == pc
       case NoProcess => s' == s && pc' == KillLost(w)
       case ChildLost => NoChild(s) && s' == Release(MarkOutside(s)) && pc' == AfterKill(w)
       case OtherError => s' == Release(s) && pc' == AfterError(w))
    case KillWaitid(w) =>
      if NoChild(s) then s' == Release(MarkOutside(s)) && pc' == AfterKill(w)
      else s' == s && pc' == KillNumeric(w)
    case KillNumeric(w) =>
      (match o
       case Ok =>
         s' == Release(MarkSignalled(s.(log := s.log + [NumericSignal]))) && pc' == AfterKill(w)
       case NoProcess => s' == s && pc' == KillLost(w)
       case OtherError => s' == Release(s) && pc' == AfterError(w)
       case _ => false)
    case KillLost(w) =>
      var (polled, code) := PollExit(s);
      && pc' == AfterKill(w)
      && s' == Release(if code.None? then MarkOutside(polled) else MarkSignalled(polled))
    case _ => false
  }

  /** `_try_wait`, with the `returncode` test that precedes it: waitpid without blocking. */
  function TryWait(s: Shared): (Shared, Pc) {
    if s.returncode.Some? then (s, WaitReturned(s.returncode.value))
    else match s.leader
         case Running => (s, WaitReap)
         case Zombie(code) =>
           (s.(leader := ReapedByOwner, returncode := Some(code), pidfd := false, log := s.log + [OwnerReap]),
            WaitReap)
         case _ => (MarkOutside(s), WaitRaised)
  }

  /** One step of a thread outside `kill_group`'s locked section. */
  predicate OuterStep(s: Shared, t: Tid, pc: Pc, s': Shared, pc': Pc, o: Outcome) {
    match pc
    case Idle =>
      || (s.lock == None && (s', pc') == EnterKill(s, t, false))
      || (s.lock == None && s' == PollExit(s).0 && pc' == Idle)
      || (s' == s && pc' == WaitFlags)
    case WaitFlags =>
      s' == s && pc' == if s.unproven || s.outsideReap then WaitRaised else WaitSignalled
    case WaitSignalled =>
      s' == s && pc' == if s.signalled then WaitReap else WaitExit
    case WaitExit =>  // wait_exit: poll, then the markers, then the deadline
      && s.lock == None
      && var (polled, code) := PollExit(s);
         && s' == polled
         && pc' == (if code.Some? then WaitKill
                    else if polled.unproven || polled.outsideReap || o == OtherError then WaitRaised
                    else WaitExit)
    case WaitKill => s.lock == None && (s', pc') == EnterKill(s, t, true)
    case WaitRecheck => s' == s && pc' == if s.signalled then WaitReap else WaitRaised
    case WaitReap =>
      || (s.lock == None && (s', pc') == TryWait(s))
      || (o == OtherError && s' == s && pc' == WaitRaised)
    case WaitReturned(_) => s' == s && pc' == Idle
    case WaitRaised => s' == s && pc' == Idle
    case _ => false
  }

  datatype Action =
    | LeaderExits(code: int)
    | OutsideReaps
    | Thread(t: Tid, o: Outcome)

  predicate Next(w: World, w': World, a: Action) {
    match a
    case LeaderExits(code) =>
      w.s.leader.Running? && w' == w.(s := w.s.(leader := Zombie(code)))
    case OutsideReaps =>
      w.s.leader.Zombie? && w' == w.(s := w.s.(leader := ReapedOutside))
    case Thread(t, o) =>
      && t in w.pcs && t in w'.pcs && w'.pcs == w.pcs[t := w'.pcs[t]]
      && if InKill(w.pcs[t]) then KillStep(w.s, w.pcs[t], w'.s, w'.pcs[t], o)
         else OuterStep(w.s, t, w.pcs[t], w'.s, w'.pcs[t], o)
  }

  /** A process object as its constructor leaves it; `withPidfd` says whether the
      constructor obtained a pidfd. */
  predicate Initial(w: World, withPidfd: bool) {
    && w.s.leader.Running? && !w.s.signalled && !w.s.outsideReap && w.s.returncode == None
    && (w.s.pidfd <==> withPidfd && !w.s.unproven)
    && w.s.lock == None && w.s.log == []
    && forall t :: t in w.pcs ==> w.pcs[t] == Idle
  }

  // ----- the invariant -----

  predicate LogFacts(log: seq<Entry>, signalled: bool, outsideReap: bool, reaped: bool, unproven: bool, withPidfd: bool) {
    && (signalled <==> Marked in log)
    && (outsideReap <==> MarkedOutside in log)
    && (reaped <==> OwnerReap in log)
    && (NumericSignal in log ==> !withPidfd)
    && (unproven ==> forall i :: 0 <= i < |log| ==> !IsSignal(log[i]))
    && (forall i, j :: 0 <= i < j < |log| && (log[i].Marked? || log[i].MarkedOutside?) ==>
          !IsSignal(log[j]) && !log[j].Marked?)
    && (forall j :: 0 <= j < |log| && log[j].OwnerReap? ==> Marked in log[..j])
  }

  predicate LogSound(s: Shared, withPidfd: bool) {
    LogFacts(s.log, s.signalled, s.outsideReap, s.returncode.Some?, s.unproven, withPidfd)
  }

  predicate SharedSound(s: Shared, withPidfd: bool) {
    && (s.returncode.Some? <==> s.leader.ReapedByOwner?)
    && (s.returncode.Some? ==> s.signalled && !s.outsideReap)
    && (s.outsideReap ==> s.leader.ReapedOutside? || !s.signalled)
    && (s.unproven ==> !s.signalled)
    && (!s.pidfd ==> !withPidfd || s.outsideReap || s.unproven || s.returncode.Some?)
    && (s.pidfd ==> withPidfd)
  }

  predicate PcSound(s: Shared, t: Tid, pc: Pc) {
    && (InKill(pc) <==> s.lock == Some(t))
    && (InKill(pc) ==> !s.signalled && !s.outsideReap && !s.unproven && s.returncode.None?)
    && (pc.KillMembers? || pc.KillSend? ==> s.pidfd)
    && (pc.KillWaitid? || pc.KillNumeric? ==> !s.pidfd)
    && (pc.WaitReap? ==> s.signalled)
    && (pc.WaitReturned? ==> s.returncode == Some(pc.code))
  }

  ghost predicate Inv(w: World, withPidfd: bool) {
    && LogSound(w.s, withPidfd)
    && SharedSound(w.s, withPidfd)
    && (w.s.lock.Some? ==> w.s.lock.value in w.pcs)
    && forall t :: t in w.pcs ==> PcSound(w.s, t, w.pcs[t])
  }

  // ----- every step keeps it -----

  lemma AppendKeepsFacts(log: seq<Entry>, e: Entry, signalled: bool, outsideReap: bool, reaped: bool, unproven: bool, withPidfd: bool)
    requires LogFacts(log, signalled, outsideReap, reaped, unproven, withPidfd)
    requires IsSignal(e) || e.Marked? ==> !signalled && !outsideReap && !unproven
    requires e.NumericSignal? ==> !withPidfd
    requires e.OwnerReap? ==> signalled
    ensures LogFacts(log + [e], signalled || e.Marked?, outsideReap || e.MarkedOutside?, reaped || e.OwnerReap?,
                     unproven, withPidfd)
  {
    var log' := log + [e];
    assert forall x :: x in log' <==> x in log || x == e;
    forall j | 0 <= j < |log'| && log'[j].OwnerReap? ensures Marked in log'[..j] {
      assert log'[..j] == log[..j];
    }
  }

  lemma AppendKeepsLog(s: Shared, s': Shared, e: Entry, withPidfd: bool)
    requires LogSound(s, withPidfd)
    requires s'.log == s.log + [e] && s'.unproven == s.unproven
    requires IsSignal(e) || e.Marked? ==> !s.signalled && !s.outsideReap && !s.unproven
    requires e.NumericSignal? ==> !withPidfd
    requires e.OwnerReap? ==> s.signalled
    requires s'.signalled == (s.signalled || e.Marked?)
    requires s'.outsideReap == (s.outsideReap || e.MarkedOutside?)
    requires s'.returncode.Some? == (s.returncode.Some? || e.OwnerReap?)
    ensures LogSound(s', withPidfd)
  {
    AppendKeepsFacts(s.log, e, s.signalled, s.outsideReap, s.returncode.Some?, s.unproven, withPidfd);
  }

  lemma MarkOutsideKeepsLog(s: Shared, withPidfd: bool)
    requires LogSound(s, withPidfd)
    ensures LogSound(MarkOutside(s), withPidfd)
  {
    if !s.outsideReap {
      AppendKeepsLog(s, MarkOutside(s), MarkedOutside, withPidfd);
    }
  }

  /** A final signal and its mark, or the mark alone. */
  lemma SignalKeepsLog(s: Shared, e: Entry, withPidfd: bool)
    requires LogSound(s, withPidfd) && IsSignal(e) && (e.NumericSignal? ==> !withPidfd)
    requires !s.signalled && !s.outsideReap && !s.unproven
    ensures LogSound(s.(log := s.log + [e]), withPidfd)
    ensures LogSound(MarkSignalled(s.(log := s.log + [e])), withPidfd)
    ensures LogSound(MarkSignalled(s), withPidfd)
  {
    var sent := s.(log := s.log + [e]);
    AppendKeepsLog(s, sent, e, withPidfd);
    AppendKeepsLog(sent, MarkSignalled(sent), Marked, withPidfd);
    AppendKeepsLog(s, MarkSignalled(s), Marked, withPidfd);
  }

  lemma KillStepKeeps(s: Shared, t: Tid, pc: Pc, s': Shared, pc': Pc, o: Outcome, withPidfd: bool)
    requires SharedSound(s, withPidfd) && PcSound(s, t, pc)
    requires InKill(pc) && KillStep(s, pc, s', pc', o)
    ensures SharedSound(s', withPidfd) && PcSound(s', t, pc')
  {
  }

  lemma KillSignalKeepsLog(s: Shared, t: Tid, pc: Pc, s': Shared, pc': Pc, o: Outcome, withPidfd: bool)
    requires LogSound(s, withPidfd) && SharedSound(s, withPidfd) && PcSound(s, t, pc)
    requires pc.KillSend? || pc.KillMembers? || pc.KillNumeric?
    requires KillStep(s, pc, s', pc', o) && s'.log != s.log && !s'.outsideReap
    ensures LogSound(s', withPidfd)
  {
    match pc
    case KillSend(_) => SignalKeepsLog(s.(support := Supported), GroupSignal, withPidfd);
    case KillNumeric(_) => SignalKeepsLog(s, NumericSignal, withPidfd);
    case KillMembers(_) => SignalKeepsLog(s, MemberSignal, withPidfd);
  }

  lemma KillLostKeepsLog(s: Shared, t: Tid, pc: Pc, s': Shared, pc': Pc, o: Outcome, withPidfd: bool)
    requires LogSound(s, withPidfd) && PcSound(s, t, pc)
    requires pc.KillLost? && KillStep(s, pc, s', pc', o)
    ensures LogSound(s', withPidfd)
  {
    var polled := PollExit(s).0;
    MarkOutsideKeepsLog(s, withPidfd);
    if polled == s {
      SignalKeepsLog(s, MemberSignal, withPidfd);
    }
  }

  lemma KillStepKeepsLog(s: Shared, t: Tid, pc: Pc, s': Shared, pc': Pc, o: Outcome, withPidfd: bool)
    requires LogSound(s, withPidfd) && SharedSound(s, withPidfd) && PcSound(s, t, pc)
    requires InKill(pc) && KillStep(s, pc, s', pc', o)
    ensures LogSound(s', withPidfd)
  {
    if pc.KillLost? {
      KillLostKeepsLog(s, t, pc, s', pc', o, withPidfd);
    } else if s'.log == s.log {
    } else if s'.outsideReap {
      MarkOutsideKeepsLog(s, withPidfd);
    } else {
      KillSignalKeepsLog(s, t, pc, s', pc', o, withPidfd);
    }
  }

  lemma OuterStepKeeps(s: Shared, t: Tid, pc: Pc, s': Shared, pc': Pc, o: Outcome, withPidfd: bool)
    requires SharedSound(s, withPidfd) && PcSound(s, t, pc)
    requires !InKill(pc) && OuterStep(s, t, pc, s', pc', o)
    ensures SharedSound(s', withPidfd) && PcSound(s', t, pc')
  {
  }

  lemma OuterStepKeepsLog(s: Shared, t: Tid, pc: Pc, s': Shared, pc': Pc, o: Outcome, withPidfd: bool)
    requires LogSound(s, withPidfd) && SharedSound(s, withPidfd) && PcSound(s, t, pc)
    requires !InKill(pc) && OuterStep(s, t, pc, s', pc', o)
    ensures LogSound(s', withPidfd)
  {
    if s'.log == s.log {
    } else if s'.outsideReap {
      MarkOutsideKeepsLog(s, withPidfd);
      assert s'.log == MarkOutside(s).log;
    } else {
      AppendKeepsLog(s, TryWait(s).0, OwnerReap, withPidfd);
    }
  }

  /** The markers only ever go up, and a return code never changes. */
  predicate Later(s: Shared, s': Shared) {
    && (s.signalled ==> s'.signalled)
    && (s.outsideReap ==> s'.outsideReap)
    && s.unproven == s'.unproven
    && (s.returncode.Some? ==> s'.returncode == s.returncode)
  }

  lemma ThreadStepIsLater(s: Shared, t: Tid, pc: Pc, s': Shared, pc': Pc, o: Outcome)
    requires if InKill(pc) then KillStep(s, pc, s', pc', o) else OuterStep(s, t, pc, s', pc', o)
    ensures Later(s, s')
  {
  }

  /** A step of one thread never invalidates where another stands: the lock keeps
      them out of each other's `kill_group`. */
  lemma OtherThreadKeepsPc(s: Shared, t: Tid, pc: Pc, s': Shared, pc': Pc, o: Outcome, u: Tid, other: Pc, withPidfd: bool)
    requires SharedSound(s, withPidfd) && PcSound(s, t, pc) && u != t && PcSound(s, u, other)
    requires if InKill(pc) then KillStep(s, pc, s', pc', o) else OuterStep(s, t, pc, s', pc', o)
    ensures PcSound(s', u, other)
  {
  }

  lemma NextKeepsInv(w: World, w': World, a: Action, withPidfd: bool)
    requires Inv(w, withPidfd) && Next(w, w', a)
    ensures Inv(w', withPidfd)
  {
    if a.Thread? {
      var t, o := a.t, a.o;
      if InKill(w.pcs[t]) {
        KillStepKeeps(w.s, t, w.pcs[t], w'.s, w'.pcs[t], o, withPidfd);
        KillStepKeepsLog(w.s, t, w.pcs[t], w'.s, w'.pcs[t], o, withPidfd);
      } else {
        OuterStepKeeps(w.s, t, w.pcs[t], w'.s, w'.pcs[t], o, withPidfd);
        OuterStepKeepsLog(w.s, t, w.pcs[t], w'.s, w'.pcs[t], o, withPidfd);
      }
      forall u | u in w'.pcs ensures PcSound(w'.s, u, w'.pcs[u]) {
        if u != t {
          assert w'.pcs[u] == w.pcs[u];
          OtherThreadKeepsPc(w.s, t, w.pcs[t], w'.s, w'.pcs[t], o, u, w.pcs[u], withPidfd);
        }
      }
      assert w'.s.lock.Some? ==> w'.s.lock == w.s.lock || w'.s.lock.value == t;
    } else {
      forall u | u in w'.pcs ensures PcSound(w'.s, u, w'.pcs[u]) {
        assert PcSound(w.s, u, w.pcs[u]);
      }
    }
  }

  // ----- whole runs -----

  predicate Run(ws: seq<World>, acts: seq<Action>, withPidfd: bool) {
    && |ws| == |acts| + 1
    && Initial(ws[0], withPidfd)
    && forall i :: 0 <= i < |acts| ==> Next(ws[i], ws[i + 1], acts[i])
  }

  lemma {:induction false} RunKeepsInv(ws: seq<World>, acts: seq<Action>, withPidfd: bool, i: nat)
    requires Run(ws, acts, withPidfd) && i < |ws|
    ensures Inv(ws[i], withPidfd)
  {
    if i > 0 {
      RunKeepsInv(ws, acts, withPidfd, i - 1);
      NextKeepsInv(ws[i - 1], ws[i], acts[i - 1], withPidfd);
    }
  }

  lemma {:induction false} RunIsLater(ws: seq<World>, acts: seq<Action>, withPidfd: bool, i: nat, j: nat)
    requires Run(ws, acts, withPidfd) && i <= j < |ws|
    ensures Later(ws[i].s, ws[j].s)
  {
    if i < j {
      RunIsLater(ws, acts, withPidfd, i, j - 1);
      assert Next(ws[j - 1], ws[j], acts[j - 1]);
      if acts[j - 1].Thread? {
        var t := acts[j - 1].t;
        ThreadStepIsLater(ws[j - 1].s, t, ws[j - 1].pcs[t], ws[j].s, ws[j].pcs[t], acts[j - 1].o);
      }
    }
  }

  /** The owner reaps only after the group's final signal was recorded, and nothing
      is signalled after that record: the reap can never free a number that is
      still to be signalled.  The record is made once. */
  lemma ReapFollowsFinalSignal(ws: seq<World>, acts: seq<Action>, withPidfd: bool, i: nat, r: nat)
    requires Run(ws, acts, withPidfd) && i < |ws|
    requires r < |ws[i].s.log| && ws[i].s.log[r].OwnerReap?
    ensures exists m :: 0 <= m < r && ws[i].s.log[m].Marked?
                        && forall j :: m < j < |ws[i].s.log| ==> !IsSignal(ws[i].s.log[j]) && !ws[i].s.log[j].Marked?
  {
    RunKeepsInv(ws, acts, withPidfd, i);
    var m :| 0 <= m < r && ws[i].s.log[..r][m] == Marked;
  }

  /** Once an outside reap is recorded nobody signals again; with an unproven
      identity nobody ever does.  A bare group number is signalled only for a
      process that never had a pidfd. */
  lemma NoSignalWithoutProof(ws: seq<World>, acts: seq<Action>, withPidfd: bool, i: nat, j: nat)
    requires Run(ws, acts, withPidfd) && i < |ws| && j < |ws[i].s.log| && IsSignal(ws[i].s.log[j])
    ensures !ws[i].s.unproven
    ensures MarkedOutside !in ws[i].s.log[..j]
    ensures Marked !in ws[i].s.log[..j]
    ensures ws[i].s.log[j].NumericSignal? ==> !withPidfd
  {
    RunKeepsInv(ws, acts, withPidfd, i);
  }

  /** If cleanup is ever unproven, no `wait` of the whole run returns: not before
      the discovery, not after it, in no thread.  The return code stays unset. */
  lemma UnprovenCleanupNeverReturns(ws: seq<World>, acts: seq<Action>, withPidfd: bool, i: nat, j: nat, t: Tid)
    requires Run(ws, acts, withPidfd) && i < |ws| && j < |ws| && t in ws[j].pcs
    requires ws[i].s.outsideReap || ws[i].s.unproven
    ensures !ws[j].pcs[t].WaitReturned?
    ensures ws[j].s.returncode.None?
  {
    RunKeepsInv(ws, acts, withPidfd, i);
    RunKeepsInv(ws, acts, withPidfd, j);
    assert PcSound(ws[j].s, t, ws[j].pcs[t]);
    if i <= j {
      RunIsLater(ws, acts, withPidfd, i, j);
    } else {
      RunIsLater(ws, acts, withPidfd, j, i);
    }
  }

  /** A `wait` that returns gives the leader's real exit status, after a recorded
      final signal and the owner's own reap. */
  lemma ReturnedWaitIsProof(ws: seq<World>, acts: seq<Action>, withPidfd: bool, j: nat, t: Tid)
    requires Run(ws, acts, withPidfd) && j < |ws| && t in ws[j].pcs && ws[j].pcs[t].WaitReturned?
    ensures ws[j].s.leader.ReapedByOwner? && ws[j].s.signalled && !ws[j].s.outsideReap
    ensures exists i, code :: 0 <= i <= j && ws[i].s.leader == Zombie(code) && code == ws[j].pcs[t].code
  {
    RunKeepsInv(ws, acts, withPidfd, j);
    assert PcSound(ws[j].s, t, ws[j].pcs[t]);
    ReturnCodeWasExit(ws, acts, withPidfd, j);
  }

  lemma KillStepLeavesReturnCode(s: Shared, pc: Pc, s': Shared, pc': Pc, o: Outcome)
    requires InKill(pc) && KillStep(s, pc, s', pc', o)
    ensures s'.returncode == s.returncode
  {
  }

  lemma OuterStepTakesExit(s: Shared, t: Tid, pc: Pc, s': Shared, pc': Pc, o: Outcome)
    requires !InKill(pc) && OuterStep(s, t, pc, s', pc', o)
    ensures s'.returncode == s.returncode || (s'.returncode.Some? && s.leader == Zombie(s'.returncode.value))
  {
  }

  lemma ReturnCodeComesFromReap(w: World, w': World, a: Action)
    requires Next(w, w', a) && w.s.returncode.None? && w'.s.returncode.Some?
    ensures w.s.leader == Zombie(w'.s.returncode.value)
  {
    if a.Thread? {
      if InKill(w.pcs[a.t]) {
        KillStepLeavesReturnCode(w.s, w.pcs[a.t], w'.s, w'.pcs[a.t], a.o);
      } else {
        OuterStepTakesExit(w.s, a.t, w.pcs[a.t], w'.s, w'.pcs[a.t], a.o);
      }
    }
  }

  lemma {:induction false} ReturnCodeWasExit(ws: seq<World>, acts: seq<Action>, withPidfd: bool, j: nat)
    requires Run(ws, acts, withPidfd) && j < |ws| && ws[j].s.returncode.Some?
    ensures exists i :: 0 <= i <= j && ws[i].s.leader == Zombie(ws[j].s.returncode.value)
  {
    if ws[j - 1].s.returncode.Some? {
      RunIsLater(ws, acts, withPidfd, j - 1, j);
      ReturnCodeWasExit(ws, acts, withPidfd, j - 1);
    } else {
      ReturnCodeComesFromReap(ws[j - 1], ws[j], acts[j - 1]);
    }
  }
}
