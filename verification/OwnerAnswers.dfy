/** What `kill_group` and `wait` achieve: a recorded final signal was really sent, a kill
    that is not refused sends it, and a wait for a leader that has exited returns.
  */
module OwnerAnswers {
  import opened Basics
  import opened GroupOwner

  // ----- the mark -----

  predicate FinalSignal(e: Entry) {
    e.GroupSignal? || e.NumericSignal?
  }

  /** The step that records the final signal sends it to the whole group just before, or the
      leader is no longer running. */
  predicate MarksRightly(s: Shared, s': Shared) {
    || (exists e :: FinalSignal(e) && s'.log == s.log + [e, Marked])
    || (s'.log == s.log + [Marked] && !s.leader.Running?)
  }

  lemma Two(log: seq<Entry>, e: Entry, f: Entry)
    ensures log + [e] + [f] == log + [e, f]
  {
  }

  lemma KillMarksRightly(s: Shared, t: Tid, pc: Pc, s': Shared, pc': Pc, o: Outcome, withPidfd: bool)
    requires SharedSound(s, withPidfd) && PcSound(s, t, pc) && InKill(pc) && KillStep(s, pc, s', pc', o)
    requires s'.signalled
    ensures MarksRightly(s, s')
  {
    Two(s.log, GroupSignal, Marked);
    Two(s.log, NumericSignal, Marked);
    if pc.KillSend? { assert FinalSignal(GroupSignal) && s'.log == s.log + [GroupSignal, Marked]; }
    if pc.KillNumeric? { assert FinalSignal(NumericSignal) && s'.log == s.log + [NumericSignal, Marked]; }
  }

  lemma NobodyElseMarks(s: Shared, t: Tid, pc: Pc, s': Shared, pc': Pc, o: Outcome)
    requires !InKill(pc) && OuterStep(s, t, pc, s', pc', o)
    ensures s'.signalled == s.signalled
  {
  }

  /** Step `k` recorded the final signal, and rightly. */
  ghost predicate MarkedAt(ws: seq<World>, k: nat) {
    k + 1 < |ws| && !ws[k].s.signalled && ws[k + 1].s.signalled && MarksRightly(ws[k].s, ws[k + 1].s)
  }

  /** Once the final signal is recorded, the step that recorded it had just sent it to the
      whole group, through the pidfd or by number, unless the leader was no longer running
      when it was recorded. */
  lemma {:induction false} MarkMeansSent(ws: seq<World>, acts: seq<Action>, withPidfd: bool, i: nat)
    requires Run(ws, acts, withPidfd) && i < |ws| && ws[i].s.signalled
    ensures exists k: nat :: k < i && MarkedAt(ws, k)
  {
    hide MarksRightly, KillStep, OuterStep, Inv, SharedSound, PcSound;
    if i == 0 {
      assert false;
    } else if ws[i - 1].s.signalled {
      MarkMeansSent(ws, acts, withPidfd, i - 1);
    } else {
      RunKeepsInv(ws, acts, withPidfd, i - 1);
      var w, w' := ws[i - 1], ws[i];
      assert Next(w, ws[i - 1 + 1], acts[i - 1]);
      StepMarksRightly(w, w', acts[i - 1], withPidfd);
      assert MarkedAt(ws, i - 1);
    }
  }

  lemma StepMarksRightly(w: World, w': World, a: Action, withPidfd: bool)
    requires Inv(w, withPidfd) && Next(w, w', a) && !w.s.signalled && w'.s.signalled
    ensures MarksRightly(w.s, w'.s)
  {
    hide MarksRightly, KillStep, OuterStep, SharedSound, PcSound;
    if a.Thread? {
      assert PcSound(w.s, a.t, w.pcs[a.t]);
      if InKill(w.pcs[a.t]) {
        KillMarksRightly(w.s, a.t, w.pcs[a.t], w'.s, w'.pcs[a.t], a.o, withPidfd);
      } else {
        NobodyElseMarks(w.s, a.t, w.pcs[a.t], w'.s, w'.pcs[a.t], a.o);
      }
    }
  }

  // ----- one kill -----

  /** `kill_group` is refused exactly when there is nothing left to signal or nothing that
      may be; otherwise it goes on under the lock. */
  lemma KillIsRefusedIff(s: Shared, t: Tid, waiting: bool)
    requires s.lock == None
    ensures var (s', pc') := EnterKill(s, t, waiting);
      && (InKill(pc') <==> !s.signalled && !s.outsideReap && !s.unproven && s.returncode == None)
      && (InKill(pc') ==> s' == s.(lock := Some(t)))
      && (!InKill(pc') ==> s' == s && pc' == if waiting then WaitRecheck else Idle)
  {
  }

  /** A kill that ends without an error has recorded the final signal, or an outside reap. */
  lemma KillGroupConcludes(s: Shared, t: Tid, pc: Pc, s': Shared, pc': Pc, o: Outcome, withPidfd: bool)
    requires SharedSound(s, withPidfd) && PcSound(s, t, pc)
    requires InKill(pc) && KillStep(s, pc, s', pc', o) && !InKill(pc') && o != OtherError
    ensures (s'.signalled || s'.outsideReap) && s'.lock == None
    ensures pc' == if pc.waiting then WaitRecheck else Idle
  {
  }

  /** Where the kernel takes a group signal through the pidfd, the first step under the lock
      sends it, once, and records it. */
  lemma SupportedKillSignals(s: Shared, t: Tid, waiting: bool, s': Shared, pc': Pc)
    requires !s.signalled && !s.outsideReap && !s.unproven && s.returncode == None
    requires s.pidfd && s.support != Unsupported
    requires var (held, pc) := EnterKill(s, t, waiting); KillStep(held, pc, s', pc', Ok)
    ensures s'.signalled && s'.log == s.log + [GroupSignal, Marked] && !InKill(pc')
  {
    Two(s.log, GroupSignal, Marked);
  }

  // ----- what an outside reap rests on -----

  /** A thread finds the leader gone: it cannot be waited for any more, or a signal found no
      group though the leader has not exited. */
  predicate FindsItGone(s: Shared, pc: Pc) {
    NoChild(s) || (pc.KillLost? && s.leader.Running?)
  }

  lemma KillFindsItGone(s: Shared, t: Tid, pc: Pc, s': Shared, pc': Pc, o: Outcome)
    requires PcSound(s, t, pc) && InKill(pc) && KillStep(s, pc, s', pc', o)
    ensures s'.outsideReap && !s.outsideReap ==> FindsItGone(s, pc)
    ensures pc.KillLost? && s.leader.Zombie? ==> s'.signalled && !s'.outsideReap
  {
  }

  lemma OthersFindItGone(s: Shared, t: Tid, pc: Pc, s': Shared, pc': Pc, o: Outcome)
    requires !InKill(pc) && OuterStep(s, t, pc, s', pc', o)
    ensures s'.outsideReap && !s.outsideReap ==> NoChild(s)
  {
  }

  /** Step `k` is such a thread's. */
  predicate FoundThere(ws: seq<World>, acts: seq<Action>, k: nat) {
    k < |acts| && k < |ws| && acts[k].Thread? && acts[k].t in ws[k].pcs && FindsItGone(ws[k].s, ws[k].pcs[acts[k].t])
  }

  lemma StepFindsItGone(w: World, w': World, a: Action, withPidfd: bool)
    requires Inv(w, withPidfd) && Next(w, w', a) && !w.s.outsideReap && w'.s.outsideReap
    ensures a.Thread? && a.t in w.pcs && FindsItGone(w.s, w.pcs[a.t])
  {
    hide KillStep, OuterStep, FindsItGone, PcSound;
    if a.Thread? {
      assert PcSound(w.s, a.t, w.pcs[a.t]);
      if InKill(w.pcs[a.t]) {
        KillFindsItGone(w.s, a.t, w.pcs[a.t], w'.s, w'.pcs[a.t], a.o);
      } else {
        OthersFindItGone(w.s, a.t, w.pcs[a.t], w'.s, w'.pcs[a.t], a.o);
        assert FindsItGone(w.s, w.pcs[a.t]) by { GoneIsFound(w.s, w.pcs[a.t]); }
      }
    }
  }

  lemma GoneIsFound(s: Shared, pc: Pc)
    requires NoChild(s)
    ensures FindsItGone(s, pc)
  {
  }

  /** An outside reap is recorded only by a thread that finds the leader gone: nobody gives
      up a leader that has exited and can still be waited for. */
  lemma {:induction false} OutsideReapWasFound(ws: seq<World>, acts: seq<Action>, withPidfd: bool, i: nat)
    requires Run(ws, acts, withPidfd) && i < |ws| && ws[i].s.outsideReap
    ensures exists k: nat :: k < i && FoundThere(ws, acts, k)
  {
    hide FindsItGone, KillStep, OuterStep, Inv;
    if i > 0 {
      if ws[i - 1].s.outsideReap {
        OutsideReapWasFound(ws, acts, withPidfd, i - 1);
      } else {
        RunKeepsInv(ws, acts, withPidfd, i - 1);
        assert Next(ws[i - 1], ws[i - 1 + 1], acts[i - 1]);
        StepFindsItGone(ws[i - 1], ws[i], acts[i - 1], withPidfd);
        assert FoundThere(ws, acts, i - 1);
      }
    }
  }

  // ----- waiting for a leader that has exited -----

  /** A waiting thread, alone, with a leader that exited with `code`. */
  predicate Waits(s: Shared, t: Tid, pc: Pc, code: int) {
    && !s.outsideReap && !s.unproven
    && ((s.leader == Zombie(code) && s.returncode == None)
        || (s.leader == ReapedByOwner && s.returncode == Some(code) && s.signalled))
    && s.lock == (if InKill(pc) then Some(t) else None)
    && (InKill(pc) ==> pc.waiting && !s.signalled && s.returncode == None)
    && (pc.KillMembers? ==> s.pidfd) && (pc.KillNumeric? || pc.KillWaitid? ==> !s.pidfd)
    && (pc.WaitRecheck? || pc.WaitReap? ==> s.signalled)
    && (pc.WaitReturned? ==> pc.code == code)
    && pc != Idle && pc != WaitRaised && !pc.KillLost?
  }

  function WaitSteps(s: Shared, pc: Pc): nat {
    match pc
    case WaitFlags => 12
    case WaitSignalled => 11
    case WaitExit => 10
    case WaitKill => 9
    case KillSend(_) => 8
    case KillCheck(_) => 7
    case KillDisposition(_) => 6
    case KillMembers(_) => 5
    case KillWaitid(_) => 5
    case KillNumeric(_) => 4
    case WaitRecheck => 3
    case WaitReap => if s.returncode == None then 2 else 1
    case _ => 0
  }

  lemma WaitingKillStep(s: Shared, t: Tid, pc: Pc, code: int, s': Shared, pc': Pc)
    requires Waits(s, t, pc, code) && InKill(pc) && KillStep(s, pc, s', pc', Ok)
    ensures Waits(s', t, pc', code) && WaitSteps(s', pc') < WaitSteps(s, pc)
  {
  }

  lemma WaitingOuterStep(s: Shared, t: Tid, pc: Pc, code: int, s': Shared, pc': Pc)
    requires Waits(s, t, pc, code) && !InKill(pc) && !pc.WaitReturned? && OuterStep(s, t, pc, s', pc', Ok)
    ensures Waits(s', t, pc', code) && WaitSteps(s', pc') < WaitSteps(s, pc)
  {
  }

  /** Only this thread steps, and no call of it fails. */
  predicate Alone(acts: seq<Action>, t: Tid, i: nat, j: nat)
    requires i <= j <= |acts|
  {
    forall k :: i <= k < j ==> acts[k] == Thread(t, Ok)
  }

  lemma {:induction false} WaitGoesOn(ws: seq<World>, acts: seq<Action>, withPidfd: bool, t: Tid, code: int, i: nat, j: nat)
    requires Run(ws, acts, withPidfd) && i <= j <= |acts| && Alone(acts, t, i, j)
    requires t in ws[i].pcs && Waits(ws[i].s, t, ws[i].pcs[t], code)
    requires forall k :: i <= k < j ==> t !in ws[k].pcs || !ws[k].pcs[t].WaitReturned?
    ensures t in ws[j].pcs && Waits(ws[j].s, t, ws[j].pcs[t], code)
    ensures WaitSteps(ws[j].s, ws[j].pcs[t]) + (j - i) <= WaitSteps(ws[i].s, ws[i].pcs[t])
    decreases j
  {
    hide Waits, WaitSteps, KillStep, OuterStep;
    if i < j {
      WaitGoesOn(ws, acts, withPidfd, t, code, i, j - 1);
      var w, w' := ws[j - 1], ws[j];
      assert Next(w, ws[j - 1 + 1], acts[j - 1]) && acts[j - 1] == Thread(t, Ok);
      if InKill(w.pcs[t]) {
        WaitingKillStep(w.s, t, w.pcs[t], code, w'.s, w'.pcs[t]);
      } else {
        WaitingOuterStep(w.s, t, w.pcs[t], code, w'.s, w'.pcs[t]);
      }
    }
  }

  /** A `wait` that begins when the leader has exited and nobody else is at work, with no
      call failing, returns the leader's status after at most twelve steps. */
  lemma WaitReturnsTheStatus(ws: seq<World>, acts: seq<Action>, withPidfd: bool, t: Tid, code: int, i: nat)
    requires Run(ws, acts, withPidfd) && i + 12 <= |acts| && Alone(acts, t, i, i + 12)
    requires t in ws[i].pcs && ws[i].pcs[t] == WaitFlags && ws[i].s.leader == Zombie(code)
    requires !ws[i].s.outsideReap && !ws[i].s.unproven && ws[i].s.lock == None
    ensures exists j :: i < j <= i + 12 && t in ws[j].pcs && ws[j].pcs[t] == WaitReturned(code)
  {
    RunKeepsInv(ws, acts, withPidfd, i);
    assert Waits(ws[i].s, t, WaitFlags, code);
    var j := FirstReturn(ws, t, i, i + 12);
    assert Alone(acts, t, i, j);
    WaitGoesOn(ws, acts, withPidfd, t, code, i, j);
  }

  /** The first state up to `n` in which the wait has returned, or `n`. */
  lemma FirstReturn(ws: seq<World>, t: Tid, i: nat, n: nat) returns (j: nat)
    requires i <= n < |ws|
    ensures i <= j <= n && forall k :: i <= k < j ==> t !in ws[k].pcs || !ws[k].pcs[t].WaitReturned?
    ensures j < n ==> t in ws[j].pcs && ws[j].pcs[t].WaitReturned?
  {
    j := i;
    while j < n && (t !in ws[j].pcs || !ws[j].pcs[t].WaitReturned?)
      invariant i <= j <= n && forall k :: i <= k < j ==> t !in ws[k].pcs || !ws[k].pcs[t].WaitReturned?
    {
      j := j + 1;
    }
  }

  /** Until then it always has a step without a failure. */
  lemma WaitIsNeverStuck(s: Shared, t: Tid, pc: Pc, code: int) returns (s': Shared, pc': Pc)
    requires Waits(s, t, pc, code) && !pc.WaitReturned?
    ensures if InKill(pc) then KillStep(s, pc, s', pc', Ok) else OuterStep(s, t, pc, s', pc', Ok)
  {
    match pc
    case KillSend(w) =>
      s' := Release(MarkSignalled(s.(support := Supported, log := s.log + [GroupSignal])));
      pc' := AfterKill(w);
    case KillCheck(w) => s', pc' := s, KillDisposition(w);
    case KillDisposition(w) => s', pc' := s, if s.pidfd then KillMembers(w) else KillWaitid(w);
    case KillMembers(w) => s', pc' := Release(MarkSignalled(s)), AfterKill(w);
    case KillWaitid(w) => s', pc' := s, KillNumeric(w);
    case KillNumeric(w) =>
      s' := Release(MarkSignalled(s.(log := s.log + [NumericSignal])));
      pc' := AfterKill(w);
    case WaitFlags => s', pc' := s, WaitSignalled;
    case WaitSignalled => s', pc' := s, if s.signalled then WaitReap else WaitExit;
    case WaitExit => s', pc' := s, WaitKill;
    case WaitKill => s', pc' := EnterKill(s, t, true).0, EnterKill(s, t, true).1;
    case WaitRecheck => s', pc' := s, WaitReap;
    case WaitReap => s', pc' := TryWait(s).0, TryWait(s).1;
  }
}
