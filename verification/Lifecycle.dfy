/** The resource lifecycle: who may start or use a resource, who may dispose of it,
    and what a proven close means for every handle that was ever allocated.
  */
module Lifecycle {
  import opened Basics

  type Tid = nat
  type Field = string
  type Handle = nat

  datatype State = Ready | Starting | InUse | Closing | Closed | Unproven

  /** The fields a `Lifecycle` guards with its condition. */
  datatype Life = Life(
    starting: nat,
    users: nat,
    threads: map<Tid, nat>,
    requested: bool,
    disposing: bool,
    state: State)

  const Fresh := Life(0, 0, map[], false, false, Ready)

  function Count(l: Life, t: Tid): nat {
    if t in l.threads then l.threads[t] else 0
  }

  predicate Drained(l: Life) {
    l.starting == 0 && l.users == 0
  }

  function BusyState(l: Life): State {
    if l.starting > 0 then Starting else InUse
  }

  /** `enter`: refused after a close request, except to a thread already inside
      that is not starting anything. */
  function Enter(l: Life, t: Tid, starting: bool): Option<Life> {
    if l.requested && (starting || Count(l, t) == 0) then None
    else
      var l' := l.(threads := l.threads[t := Count(l, t) + 1],
                   starting := if starting then l.starting + 1 else l.starting,
                   users := if starting then l.users else l.users + 1);
      Some(l'.(state := BusyState(l')))
  }

  predicate Holds(l: Life, t: Tid, starting: bool) {
    Count(l, t) > 0 && (if starting then l.starting > 0 else l.users > 0)
  }

  /** `leave`, by a thread that entered. */
  function Leave(l: Life, t: Tid, starting: bool): Life
    requires Holds(l, t, starting)
  {
    var l' := l.(threads := if Count(l, t) == 1 then l.threads - {t} else l.threads[t := Count(l, t) - 1],
                 starting := if starting then l.starting - 1 else l.starting,
                 users := if starting then l.users else l.users - 1);
    if l.requested then l' else l'.(state := if Drained(l') then Ready else BusyState(l'))
  }

  /** The first locked section of `close`, and whether this caller goes on to dispose. */
  function BeginClose(l: Life): (Life, bool) {
    if l.state == Closed || l.disposing then (l.(requested := true), false)
    else (l.(requested := true, disposing := true, state := Closing), true)
  }

  /** The last locked section of `close`. */
  function EndClose(l: Life, proven: bool): Life {
    l.(state := if proven then Closed else Unproven, disposing := false)
  }

  /** `request_close`. */
  function RequestClose(l: Life): Life {
    l.(requested := true,
       state := if l.state == Closed then Closed else if l.disposing then Closing else Unproven)
  }

  predicate CleanupComplete(l: Life) {
    l.state == Closed && Drained(l) && !l.disposing
  }

  // ----- what the sections mean together -----

  /** Before any request the state says who is inside. */
  predicate StateShows(l: Life) {
    !l.requested ==> l.state == if Drained(l) then Ready else BusyState(l)
  }

  /** `leave` undoes `enter`: all counters and all threads are as before, and so is the
      state unless a close was requested. */
  lemma LeaveUndoesEnter(l: Life, t: Tid, starting: bool)
    requires StateShows(l) && (t in l.threads ==> l.threads[t] > 0)
    requires Enter(l, t, starting).Some?
    ensures var e := Enter(l, t, starting).value;
      && Holds(e, t, starting)
      && Leave(e, t, starting).(state := l.state) == l
      && StateShows(Leave(e, t, starting))
      && (!l.requested ==> Leave(e, t, starting) == l)
  {
    var e := Enter(l, t, starting).value;
    assert Leave(e, t, starting).threads == l.threads;
  }

  /** Of any callers of `close`, the first disposes and no other does until it has ended;
      after that another may if and only if the disposal did not prove itself. */
  lemma CloseIsExclusive(l: Life, proven: bool)
    requires BeginClose(l).1
    ensures var closing := BeginClose(l).0; var ended := EndClose(closing, proven);
      && !BeginClose(closing).1
      && (BeginClose(ended).1 <==> !proven)
      && (CleanupComplete(ended) <==> proven && Drained(l))
      && ended.requested
  {
  }

  /** After a request every start and every outsider is refused and nobody inside is, for
      as long as the request stands; a proven close stays proven. */
  lemma RequestShutsTheDoor(l: Life, t: Tid, starting: bool)
    ensures var r := RequestClose(l);
      && (Enter(r, t, starting).None? <==> starting || Count(l, t) == 0)
      && (Enter(r, t, starting).Some? ==> Enter(r, t, starting).value.requested)
      && (CleanupComplete(r) <==> CleanupComplete(l))
      && RequestClose(r) == r
      && BeginClose(r).1 == BeginClose(l).1
  {
  }

  /** The object itself: each method is one section under the condition. */
  class LifecycleObject {
    var starting: nat
    var users: nat
    var threads: map<Tid, nat>
    var requested: bool
    var disposing: bool
    var state: State

    function View(): Life
      reads this
    {
      Life(starting, users, threads, requested, disposing, state)
    }

    constructor ()
      ensures View() == Fresh
    {
      starting, users, threads := 0, 0, map[];
      requested, disposing, state := false, false, Ready;
    }

    method EnterSection(ident: Tid, asStarter: bool) returns (refused: bool)
      modifies this
      ensures refused <==> old(requested) && (asStarter || Count(old(View()), ident) == 0)
      ensures refused ==> View() == old(View())
      ensures !refused ==>
        && starting + users == old(starting + users) + 1 && users == old(users) + (if asStarter then 0 else 1)
        && (forall t :: Count(View(), t) == Count(old(View()), t) + (if t == ident then 1 else 0))
        && requested == old(requested) && disposing == old(disposing)
        && (state == Starting <==> starting > 0) && (state == InUse <==> starting == 0)
      ensures !refused ==> Enter(old(View()), ident, asStarter) == Some(View())
    {
      var held := if ident in threads then threads[ident] else 0;
      if requested && (asStarter || held == 0) {
        return true;
      }
      threads := threads[ident := held + 1];
      if asStarter {
        starting := starting + 1;
      } else {
        users := users + 1;
      }
      state := if starting > 0 then Starting else InUse;
      return false;
    }

    method LeaveSection(ident: Tid, asStarter: bool)
      requires Holds(View(), ident, asStarter)
      modifies this
      ensures starting + users == old(starting + users) - 1 && users == old(users) - (if asStarter then 0 else 1)
      ensures forall t :: Count(View(), t) == Count(old(View()), t) - (if t == ident then 1 else 0)
      ensures requested == old(requested) && disposing == old(disposing)
      ensures StateShows(View()) && (requested ==> state == old(state))
      ensures View() == Leave(old(View()), ident, asStarter)
    {
      if asStarter {
        starting := starting - 1;
      } else {
        users := users - 1;
      }
      threads := threads[ident := threads[ident] - 1];
      if threads[ident] == 0 {
        threads := threads - {ident};
      }
      if !requested {
        state := if starting > 0 then Starting else if users > 0 then InUse else Ready;
      }
    }

    method BeginCloseSection() returns (proceeds: bool)
      modifies this
      ensures proceeds <==> old(state) != Closed && !old(disposing)
      ensures requested && !BeginClose(View()).1
      ensures proceeds ==> disposing && state == Closing
      ensures !proceeds ==> disposing == old(disposing) && state == old(state)
      ensures starting == old(starting) && users == old(users) && threads == old(threads)
      ensures (View(), proceeds) == BeginClose(old(View()))
    {
      requested := true;
      if state == Closed || disposing {
        return false;
      }
      disposing := true;
      state := Closing;
      return true;
    }

    method EndCloseSection(proven: bool)
      modifies this
      ensures (BeginClose(View()).1 <==> !proven) && (CleanupComplete(View()) <==> proven && Drained(View()))
      ensures starting == old(starting) && users == old(users) && threads == old(threads) && requested == old(requested)
      ensures View() == EndClose(old(View()), proven)
    {
      state := if proven then Closed else Unproven;
      disposing := false;
    }

    method RequestCloseSection()
      modifies this
      ensures forall t, asStarter ::
        Enter(View(), t, asStarter).None? <==> asStarter || Count(old(View()), t) == 0
      ensures CleanupComplete(View()) <==> CleanupComplete(old(View()))
      ensures BeginClose(View()).1 == BeginClose(old(View())).1
      ensures starting == old(starting) && users == old(users) && threads == old(threads) && disposing == old(disposing)
      ensures View() == RequestClose(old(View()))
    {
      requested := true;
      if state != Closed {
        state := if disposing then Closing else Unproven;
      }
    }
  }
}
