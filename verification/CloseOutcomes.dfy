/** What a close that ended `Closed` has behind it, and what one that failed leaves: only a
    disposal that nobody disturbed, that did not raise and that the owner calls complete
    closes a resource; any other can be tried again.
  */
module CloseOutcomes {
  import opened Basics
  import opened Lifecycle
  import opened LifecycleRuns

  /** Some call stands here; of a closing one there is only one at a time. */
  predicate Stands(w: World, f: Frame) {
    exists c :: 0 <= c < |w.calls| && w.calls[c].frame == f
  }

  /** From step `k` on, up to state `i`, some call stands here. */
  predicate StandsFrom(ws: seq<World>, k: nat, i: nat, f: Frame) {
    forall j :: k < j <= i && j < |ws| ==> Stands(ws[j], f)
  }

  // ----- how a closing call gets on -----

  lemma CallsMove(cs: seq<Call>, i: nat)
    requires i < |cs|
    ensures |Without(cs, i)| == |cs| - 1
    ensures forall j :: 0 <= j < |cs| - 1 ==> Without(cs, i)[j] == cs[if j < i then j else j + 1]
  {
  }

  /** Where a call stands was where it stood, or where it was put by this step. */
  lemma StandsBefore(w: World, w': World, a: Action, f: Frame)
    requires Next(w, w', a) && IsCloser(f) && Stands(w', f)
    ensures
      || Stands(w, f)
      || (a.CallClose? && f == Notifying)
      || (a.WaitOver? && Stands(w, Notifying) && f == if a.drained then Disposing else Judged(false))
      || (a.Judge? && Stands(w, Disposing) && f == Judged(!a.raised && a.complete))
  {
    var c :| 0 <= c < |w'.calls| && w'.calls[c].frame == f;
    if a.LeaveCall? || a.FinishClose? {
      CallsMove(w.calls, a.i);
      assert w.calls[if c < a.i then c else c + 1].frame == f;
    } else if c < |w.calls| && w.calls[c].frame == f {
    }
  }

  lemma OnlyCloser(w: World, c: nat, d: nat)
    requires Inv(w) && c < |w.calls| && d < |w.calls| && IsCloser(w.calls[c].frame) && IsCloser(w.calls[d].frame)
    ensures c == d
  {
    NoneCounted(w.calls);
  }

  /** A closing call stays where it is until it takes its own next step. */
  lemma StandsAfter(w: World, w': World, a: Action, f: Frame)
    requires Inv(w) && Next(w, w', a) && IsCloser(f) && Stands(w, f)
    requires f == Notifying ==> !a.WaitOver?
    requires f == Disposing ==> !a.Judge?
    requires f.Judged? ==> !a.FinishClose?
    ensures Stands(w', f)
  {
    var c :| 0 <= c < |w.calls| && w.calls[c].frame == f;
    if a.LeaveCall? {
      CallsMove(w.calls, a.i);
      assert a.i != c;
      assert w'.calls[if c < a.i then c else c - 1] == w.calls[c];
    } else if a.FinishClose? {
      if a.i < |w.calls| && w.calls[a.i].frame.Judged? { OnlyCloser(w, a.i, c); }
    } else if a.WaitOver? || a.Judge? {
      assert w'.calls[c] == w.calls[c];
    } else {
      assert w'.calls[c].frame == f;
    }
  }

  // ----- what `Closed` rests on -----

  /** Step `k` ended the wait of a close with nobody inside. */
  predicate Drains(ws: seq<World>, acts: seq<Action>, k: nat) {
    k < |acts| < |ws| && acts[k].WaitOver? && acts[k].drained && Stands(ws[k], Notifying) && Drained(ws[k].life)
  }

  /** Step `k` judged a disposal that did not raise, and the owner called it complete. */
  predicate Approves(ws: seq<World>, acts: seq<Action>, k: nat) {
    k < |acts| < |ws| && acts[k].Judge? && !acts[k].raised && acts[k].complete && Stands(ws[k], Disposing)
  }

  ghost predicate DisposedSince(ws: seq<World>, acts: seq<Action>, a: nat, i: nat) {
    a < i && Drains(ws, acts, a) && StandsFrom(ws, a, i, Disposing)
  }

  ghost predicate ApprovedSince(ws: seq<World>, acts: seq<Action>, a: nat, b: nat, i: nat) {
    b < i && DisposedSince(ws, acts, a, b) && Approves(ws, acts, b) && StandsFrom(ws, b, i, Judged(true))
  }

  lemma Longer(ws: seq<World>, k: nat, i: nat, f: Frame)
    requires 0 < i && (k < i - 1 ==> StandsFrom(ws, k, i - 1, f)) && (i < |ws| ==> Stands(ws[i], f))
    ensures StandsFrom(ws, k, i, f)
  {
  }

  /** Who disposes has waited until nobody was inside, and disposes ever since. */
  lemma {:induction false} DisposingWasDrained(ws: seq<World>, acts: seq<Action>, i: nat) returns (a: nat)
    requires Run(ws, acts) && i < |ws| && Stands(ws[i], Disposing)
    ensures DisposedSince(ws, acts, a, i)
  {
    hide Next, Stands;
    assert !Stands(Start, Disposing) by { NobodyAtStart(Disposing); }
    assert Next(ws[i - 1], ws[i - 1 + 1], acts[i - 1]);
    StandsBefore(ws[i - 1], ws[i], acts[i - 1], Disposing);
    if Stands(ws[i - 1], Disposing) {
      a := DisposingWasDrained(ws, acts, i - 1);
    } else {
      a := i - 1;
      WaitedForNobody(ws[i - 1], ws[i], acts[i - 1]);
    }
    Longer(ws, a, i, Disposing);
  }

  lemma NobodyAtStart(f: Frame)
    ensures !Stands(Start, f)
  {
  }

  lemma WaitedForNobody(w: World, w': World, a: Action)
    requires Next(w, w', a)
    ensures a.WaitOver? && a.drained ==> Drained(w.life)
  {
  }

  lemma {:induction false} JudgedWasApproved(ws: seq<World>, acts: seq<Action>, i: nat) returns (a: nat, b: nat)
    requires Run(ws, acts) && i < |ws| && Stands(ws[i], Judged(true))
    ensures ApprovedSince(ws, acts, a, b, i)
  {
    hide Next, Stands;
    assert !Stands(Start, Judged(true)) by { NobodyAtStart(Judged(true)); }
    assert Next(ws[i - 1], ws[i - 1 + 1], acts[i - 1]);
    StandsBefore(ws[i - 1], ws[i], acts[i - 1], Judged(true));
    if Stands(ws[i - 1], Judged(true)) {
      a, b := JudgedWasApproved(ws, acts, i - 1);
    } else {
      b := i - 1;
      a := DisposingWasDrained(ws, acts, b);
    }
    Longer(ws, b, i, Judged(true));
  }

  lemma CloseEnds(w: World, w': World, a: Action)
    requires Next(w, w', a)
    ensures w.life.state != Closed && w'.life.state == Closed ==> a.FinishClose? && Stands(w, Judged(true))
  {
    if a.FinishClose? { assert w.calls[a.i].frame == Judged(w.calls[a.i].frame.proven); }
  }

  /** A closed resource was closed by a call that waited until nobody was inside, then ran a
      disposal that did not raise, to which the owner answered that it is complete, and then
      recorded it; and that call did nothing else in between. */
  lemma {:induction false} ClosedWasProven(ws: seq<World>, acts: seq<Action>, i: nat) returns (a: nat, b: nat, c: nat)
    requires Run(ws, acts) && i < |ws| && ws[i].life.state == Closed
    ensures c < i && acts[c].FinishClose? && ApprovedSince(ws, acts, a, b, c)
    ensures forall j :: c < j <= i ==> ws[j].life.state == Closed
  {
    hide Next, Stands;
    assert Next(ws[i - 1], ws[i - 1 + 1], acts[i - 1]);
    if ws[i - 1].life.state == Closed {
      a, b, c := ClosedWasProven(ws, acts, i - 1);
    } else {
      CloseEnds(ws[i - 1], ws[i], acts[i - 1]);
      c := i - 1;
      a, b := JudgedWasApproved(ws, acts, c);
    }
  }

  // ----- what a failed close leaves -----

  /** Step `k` ended a wait by the deadline or an error, or a disposal that raised, or that
      the owner does not call complete. */
  predicate Fails(acts: seq<Action>, k: nat) {
    && k < |acts|
    && ((acts[k].WaitOver? && !acts[k].drained) || (acts[k].Judge? && (acts[k].raised || !acts[k].complete)))
  }

  lemma FailStands(w: World, w': World, a: Action)
    requires Next(w, w', a) && ((a.WaitOver? && !a.drained) || (a.Judge? && (a.raised || !a.complete)))
    ensures Stands(w', Judged(false))
  {
    assert w'.calls[a.i].frame == Judged(false);
  }

  lemma FinishStands(w: World, w': World, a: Action, proven: bool)
    requires Inv(w) && Next(w, w', a) && a.FinishClose? && Stands(w, Judged(proven))
    ensures w'.life.state == if proven then Closed else Unproven
    ensures BeginClose(w'.life).1 <==> !proven
    ensures proven ==> CleanupComplete(w'.life)
  {
    var c :| 0 <= c < |w.calls| && w.calls[c].frame == Judged(proven);
    OnlyCloser(w, a.i, c);
  }

  /** After a failure the call still stands with it, until it is recorded. */
  lemma {:induction false} FailureStands(ws: seq<World>, acts: seq<Action>, k: nat, m: nat)
    requires Run(ws, acts) && k < m <= |acts| && Fails(acts, k)
    requires forall j :: k < j < m ==> !acts[j].FinishClose?
    ensures Stands(ws[m], Judged(false))
  {
    hide Next, Stands, Inv;
    assert Next(ws[m - 1], ws[m - 1 + 1], acts[m - 1]);
    if m == k + 1 {
      FailStands(ws[k], ws[m], acts[k]);
    } else {
      FailureStands(ws, acts, k, m - 1);
      RunKeepsInv(ws, acts, m - 1);
      StandsAfter(ws[m - 1], ws[m], acts[m - 1], Judged(false));
    }
  }

  /** A close whose wait ran out, or whose disposal raised, or is not complete, never leaves
      the resource closed: when it is recorded, the state is unproven and the next close
      disposes again. */
  lemma FailedCloseIsRetried(ws: seq<World>, acts: seq<Action>, k: nat, m: nat)
    requires Run(ws, acts) && k < m < |acts| && Fails(acts, k)
    requires acts[m].FinishClose? && forall j :: k < j < m ==> !acts[j].FinishClose?
    ensures ws[m + 1].life.state == Unproven && !CleanupComplete(ws[m + 1].life)
    ensures BeginClose(ws[m + 1].life).1
  {
    FailureStands(ws, acts, k, m);
    RunKeepsInv(ws, acts, m);
    assert Next(ws[m], ws[m + 1], acts[m]);
    hide Next, Stands, Inv;
    FinishStands(ws[m], ws[m + 1], acts[m], false);
  }

  /** And a close that was approved is complete once it is recorded. */
  lemma {:induction false} ApprovalStands(ws: seq<World>, acts: seq<Action>, k: nat, m: nat)
    requires Run(ws, acts) && k < m <= |acts| && acts[k].Judge? && !acts[k].raised && acts[k].complete
    requires forall j :: k < j < m ==> !acts[j].FinishClose?
    ensures Stands(ws[m], Judged(true))
  {
    hide Next, Inv;
    assert Next(ws[m - 1], ws[m - 1 + 1], acts[m - 1]);
    if m == k + 1 {
      JudgeStands(ws[k], ws[m], acts[k]);
    } else {
      ApprovalStands(ws, acts, k, m - 1);
      RunKeepsInv(ws, acts, m - 1);
      hide Stands;
      StandsAfter(ws[m - 1], ws[m], acts[m - 1], Judged(true));
    }
  }

  lemma JudgeStands(w: World, w': World, a: Action)
    requires Next(w, w', a) && a.Judge? && !a.raised && a.complete
    ensures Stands(w', Judged(true))
  {
    assert w'.calls[a.i].frame == Judged(true);
  }

  lemma ApprovedCloseIsComplete(ws: seq<World>, acts: seq<Action>, k: nat, m: nat)
    requires Run(ws, acts) && k < m < |acts| && acts[k].Judge? && !acts[k].raised && acts[k].complete
    requires acts[m].FinishClose? && forall j :: k < j < m ==> !acts[j].FinishClose?
    ensures CleanupComplete(ws[m + 1].life) && !BeginClose(ws[m + 1].life).1
  {
    ApprovalStands(ws, acts, k, m);
    RunKeepsInv(ws, acts, m);
    assert Next(ws[m], ws[m + 1], acts[m]);
    hide Next, Stands, Inv;
    FinishStands(ws[m], ws[m + 1], acts[m], true);
  }
}
