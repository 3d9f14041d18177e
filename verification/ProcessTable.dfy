/** The kernel facts that process-group teardown rests on, as a process table
    and the steps it can take.

    A pid may be reused, so a process is identified by its pid together with its
    start time; a pidfd is modelled as the identity it was opened on.  Groups are
    identified the same way, by the identity of the leader that created them, and
    what `/proc` shows is only the group number, `group.pid`.
  */
module ProcessTable {
  type Pid = nat

  datatype Ident = Ident(pid: Pid, start: nat)

  /** Whether the system-wide fork counter already includes this process.  Until
      it does, neither the process nor the parent that forked it can run. */
  datatype Birth = Counted | Uncounted(parent: Pid)

  datatype Proc = Proc(start: nat, group: Ident, live: bool, birth: Birth)

  /** `used` remembers every identity there has ever been. */
  datatype Table = Table(procs: map<Pid, Proc>, births: nat, used: set<Ident>)

  predicate Present(k: Table, id: Ident) {
    id.pid in k.procs && k.procs[id.pid].start == id.start
  }

  predicate Live(k: Table, id: Ident) {
    Present(k, id) && k.procs[id.pid].live
  }

  predicate InGroup(k: Table, g: Ident, id: Ident) {
    Present(k, id) && k.procs[id.pid].group == g
  }

  predicate LiveIn(k: Table, g: Ident, id: Ident) {
    InGroup(k, g, id) && Live(k, id)
  }

  /** No live process belongs to the group that `g` created. */
  ghost predicate Quiet(k: Table, g: Ident) {
    forall id: Ident :: !LiveIn(k, g, id)
  }

  ghost predicate BirthsPending(k: Table, p: Pid) {
    exists c :: c in k.procs && k.procs[c].birth == Uncounted(p)
  }

  ghost predicate ParentHeld(k: Table, c: Pid)
    requires c in k.procs && k.procs[c].birth.Uncounted?
  {
    var q := k.procs[c].birth.parent;
    && k.procs[c].live
    && q in k.procs && k.procs[q].live && k.procs[q].birth.Counted?
    && k.procs[q].group == k.procs[c].group
  }

  /** A group number that names a process names the process that created it. */
  ghost predicate Pinned(k: Table, p: Pid)
    requires p in k.procs
  {
    var g := k.procs[p].group;
    g.pid in k.procs ==> k.procs[g.pid].start == g.start
  }

  ghost predicate WellFormed(k: Table) {
    && (forall p :: p in k.procs ==> Ident(p, k.procs[p].start) in k.used)
    && (forall p :: p in k.procs && k.procs[p].birth.Uncounted? ==> ParentHeld(k, p))
    && (forall p :: p in k.procs ==> Pinned(k, p))
  }

  // ----- the steps of the rest of the system -----

  /** First half of a fork: the child appears, still uncounted.  Its pid is free
      as a process number and as a group number, and its identity is new. */
  ghost predicate Attach(k: Table, k': Table, parent: Pid, child: Pid, start: nat) {
    && parent in k.procs && k.procs[parent].live && k.procs[parent].birth.Counted?
    && child !in k.procs
    && (forall p :: p in k.procs ==> k.procs[p].group.pid != child)
    && Ident(child, start) !in k.used
    && k' == Table(k.procs[child := Proc(start, k.procs[parent].group, true, Uncounted(parent))],
                   k.births, k.used + {Ident(child, start)})
  }

  /** Second half: the counter is published, and both may run again. */
  predicate Publish(k: Table, k': Table, child: Pid) {
    && child in k.procs && k.procs[child].birth.Uncounted?
    && k' == k.(procs := k.procs[child := k.procs[child].(birth := Counted)], births := k.births + 1)
  }

  /** A birth that adds no process to the table, such as a thread. */
  predicate OtherBirth(k: Table, k': Table) {
    k' == k.(births := k.births + 1)
  }

  /** A process that can run dies, and stays as a zombie. */
  ghost predicate Exit(k: Table, k': Table, p: Pid) {
    && p in k.procs && k.procs[p].live && k.procs[p].birth.Counted? && !BirthsPending(k, p)
    && k' == k.(procs := k.procs[p := k.procs[p].(live := false)])
  }

  /** Somebody reaps a zombie: its number becomes free. */
  predicate Reap(k: Table, k': Table, p: Pid) {
    && p in k.procs && !k.procs[p].live
    && k' == k.(procs := k.procs - {p})
  }

  /** setsid or setpgid: into a group of its own, or one that already exists. */
  ghost predicate Regroup(k: Table, k': Table, p: Pid, g: Ident) {
    && p in k.procs && k.procs[p].live && k.procs[p].birth.Counted? && !BirthsPending(k, p)
    && (g == Ident(p, k.procs[p].start) || exists x :: x in k.procs && k.procs[x].group == g)
    && k' == k.(procs := k.procs[p := k.procs[p].(group := g)])
  }

  datatype Event =
    | EvAttach(parent: Pid, child: Pid, start: nat)
    | EvPublish(child: Pid)
    | EvOtherBirth
    | EvExit(p: Pid)
    | EvReap(p: Pid)
    | EvRegroup(p: Pid, g: Ident)

  /** One step of the rest of the system.  `leader` names the group under
      teardown: nobody moves into it from outside. */
  ghost predicate Step(k: Table, k': Table, leader: Ident, e: Event) {
    match e
    case EvAttach(parent, child, start) => Attach(k, k', parent, child, start)
    case EvPublish(child) => Publish(k, k', child)
    case EvOtherBirth => OtherBirth(k, k')
    case EvExit(p) => Exit(k, k', p)
    case EvReap(p) => Reap(k, k', p)
    case EvRegroup(p, g) => Regroup(k, k', p, g) && (g == leader ==> k.procs[p].group == leader)
  }

  // ----- what every step keeps -----

  lemma StepKeepsWellFormed(k: Table, k': Table, leader: Ident, e: Event)
    requires WellFormed(k) && Step(k, k', leader, e)
    ensures WellFormed(k')
  {
    forall p | p in k'.procs && k'.procs[p].birth.Uncounted? ensures ParentHeld(k', p) {
      if p in k.procs {
        assert ParentHeld(k, p);
        assert BirthsPending(k, k.procs[p].birth.parent);
      }
    }
    forall p | p in k'.procs ensures Pinned(k', p) {
      if p in k.procs {
        assert Pinned(k, p);
      } else {
        assert Pinned(k, e.parent);
      }
    }
  }

  /** An identity that is gone or dead stays so: pids come back, identities do not. */
  lemma IdentitiesNeverReturn(k: Table, k': Table, leader: Ident, e: Event, id: Ident)
    requires Step(k, k', leader, e) && id in k.used
    ensures id in k'.used
    ensures Present(k', id) ==> Present(k, id)
    ensures Live(k', id) ==> Live(k, id)
    ensures LiveIn(k', leader, id) ==> LiveIn(k, leader, id)
  {
  }

  /** A group without a live member can never gain one. */
  lemma QuietIsForever(k: Table, k': Table, leader: Ident, e: Event)
    requires WellFormed(k) && Step(k, k', leader, e) && Quiet(k, leader)
    ensures Quiet(k', leader)
  {
    forall id: Ident ensures !LiveIn(k', leader, id) {
      assert !LiveIn(k, leader, id);
      if e.EvAttach? {
        assert !LiveIn(k, leader, Ident(e.parent, k.procs[e.parent].start));
      }
    }
  }

  /** While the leader itself has not been reaped, the number alone decides. */
  lemma UnreapedLeaderPinsNumber(k: Table, leader: Ident, p: Pid)
    requires WellFormed(k) && Present(k, leader)
    requires p in k.procs && k.procs[p].group.pid == leader.pid
    ensures k.procs[p].group == leader
  {
    assert Pinned(k, p);
  }
}
