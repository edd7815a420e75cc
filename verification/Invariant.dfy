/** The kernel invariant, and exactly which steps keep it. */
module Invariant {
  import opened KernelState
  import opened Placement
  import opened Family
  import opened Terminals
  import opened Writers
  import opened Readers

  ghost predicate Rest(s: State) {
    FamilyInv(s) && WritersInv(s) && ReadersInv(s) && DelaysInv(s)
  }

  ghost predicate Inv(s: State) {
    s.mode != Fault && PlacementInv(s) && Rest(s)
  }

  /** The three places where the code can go wrong, as conditions on the state before
      the step: a process exits whose unreaped parent still carries the initial flag -1;
      a child runs for the first time after its parent's PCB was freed; and a woken
      writer's buffer cannot be allocated while others wait for the terminal. */
  predicate Good(s: State, e: Event) {
    match e
    case DoExit(_) =>
      s.cur == INIT || s.At(s.cur).parent.None? || s.At(s.At(s.cur).parent.value).waiting != -1
    case Continue(allocOk) =>
      (match s.At(s.cur).resume
       case FirstRun => s.At(s.cur).ppid in s.procs
       case FromLock(t, _) => allocOk || s.Term(t).writers == []
       case _ => true)
    case _ => true
  }

  /** p looks the same to every invariant but Placement. */
  ghost predicate Bystander(s: State, s': State, p: Pid) {
    && s'.At(p) == s.At(p).(state := s'.At(p).state)
    && (p in s'.blocked <==> p in s.blocked)
  }

  /** The same processes and the same family history. */
  ghost predicate SameShared(s: State, s': State) {
    && s'.zombie == s.zombie && s'.births == s.births && s'.exits == s.exits && s'.reaps == s.reaps
    && s'.waiting0 == s.waiting0 && s'.procs.Keys == s.procs.Keys
  }

  lemma BystanderRoles(s: State, s': State)
    requires SameShared(s, s') && forall p :: Bystander(s, s', p)
    ensures forall p :: RoleOf(s', p) == RoleOf(s, p) && SameReading(s, s', p)
  {
    forall p ensures RoleOf(s', p) == RoleOf(s, p) && SameReading(s, s', p) { assert Bystander(s, s', p); }
  }

  lemma BystanderFamily(s: State, s': State)
    requires FamilyInv(s) && SameShared(s, s') && forall p :: Bystander(s, s', p)
    ensures FamilyInv(s')
  {
    assert forall p :: p in s.procs ==> Bystander(s, s', p);
    FamilyFrame(s, s');
  }

  lemma BystanderDelays(s: State, s': State)
    requires DelaysInv(s) && forall p :: Bystander(s, s', p)
    ensures DelaysInv(s')
  {
    forall p ensures DelayInv(s', p) { assert DelayInv(s, p) && Bystander(s, s', p); }
  }

  lemma AllBystanders(s: State, s': State)
    requires Rest(s) && SameShared(s, s') && s'.terms == s.terms && s'.log == s.log
    requires forall p :: Bystander(s, s', p)
    ensures Rest(s')
  {
    BystanderRoles(s, s');
    BystanderFamily(s, s');
    BystanderDelays(s, s');
    WritersFrame(s, s');
    ReadersFrame(s, s');
  }

  /** One process acts, everyone else stands by: what is left to show is about the actor. */
  lemma OneActor(s: State, s': State, a: Pid)
    requires Rest(s) && SameShared(s, s')
    requires forall p :: p != a ==> Bystander(s, s', p)
    requires a in s.procs
    ensures forall p :: p != a ==> RoleOf(s', p) == RoleOf(s, p) && SameReading(s, s', p)
    ensures (var b, b' := s.At(a), s'.At(a);
             && b'.ppid == b.ppid && b'.parent == b.parent && b'.children == b.children
             && b'.waiting == b.waiting && b'.status == b.status && Kind(b'.resume) == Kind(b.resume))
            ==> FamilyInv(s')
    ensures DelayInv(s', a) ==> DelaysInv(s')
  {
    forall p | p != a ensures RoleOf(s', p) == RoleOf(s, p) && SameReading(s, s', p) { assert Bystander(s, s', p); }
    var b, b' := s.At(a), s'.At(a);
    if && b'.ppid == b.ppid && b'.parent == b.parent && b'.children == b.children
       && b'.waiting == b.waiting && b'.status == b.status && Kind(b'.resume) == Kind(b.resume) {
      assert forall p :: p in s.procs && p != a ==> Bystander(s, s', p);
      FamilyFrame(s, s');
    }
    if DelayInv(s', a) {
      forall p ensures DelayInv(s', p) { assert DelayInv(s, p); assert p != a ==> Bystander(s, s', p); }
    }
  }

  // ---------------------------------------------------------------- switching

  lemma SwitchInv(s: State)
    requires s.mode != Fault && Rest(s) && Placed(s, false) && IDLE in s.procs && s.At(IDLE).resume == ToUser
    ensures Inv(Switch(s))
  {
    SwitchPlaces(s);
    AllBystanders(s, Switch(s));
  }

  lemma PreemptBystanders(s: State)
    requires s.cur in s.procs && (s.ready != [] ==> s.ready[0] in s.procs)
    ensures SameShared(s, Preempt(s)) && Preempt(s).terms == s.terms && Preempt(s).mode == s.mode
    ensures forall p :: Bystander(s, Preempt(s), p)
  {
  }

  lemma PreemptInv(s: State)
    requires Inv(s)
    ensures Inv(Preempt(s))
  {
    PreemptPlaces(s);
    assert s.ready != [] ==> Places(s, s.ready[0], true) >= 1;
    PreemptBystanders(s);
    AllBystanders(s, Preempt(s));
  }

  lemma CurrentNotQueued(s: State)
    requires PlacementInv(s) && s.cur != IDLE
    ensures s.cur !in s.ready && s.cur !in s.blocked && s.cur !in s.zombie && s.At(s.cur).waiting != 1
  {
    assert Places(s, s.cur, true) == 1;
  }

  /** What a return to user mode leaves alone. */
  lemma ReturnActs(s: State, r: int)
    requires Inv(s) && s.cur != IDLE
    requires s.At(s.cur).resume in {ToUser, FromDelay} || s.At(s.cur).resume.FromIo?
    ensures var s' := Return(s, r);
            && SameShared(s, s') && s.cur in s.procs && (forall p :: p != s.cur ==> Bystander(s, s', p))
            && SameReading(s, s', s.cur) && DelayInv(s', s.cur)
            && Kind(s'.At(s.cur).resume) == Kind(s.At(s.cur).resume)
  {
    CurrentNotQueued(s);
    assert DelayInv(s, s.cur) && StashInv(s, s.cur);
  }

  /** Returning to user mode from anything but the middle of a TtyWrite lock, Wait or a read. */
  lemma ReturnInv(s: State, r: int)
    requires Inv(s) && s.cur != IDLE
    requires s.At(s.cur).resume in {ToUser, FromDelay} || s.At(s.cur).resume.FromIo?
    ensures Inv(Return(s, r))
  {
    var s' := Return(s, r);
    CurrentNotQueued(s);
    ReturnActs(s, r);
    SamePlaces(s, s', true);
    OneActor(s, s', s.cur);
    WritersFrame(s, s');
    ReadersFrame(s, s');
  }
}
