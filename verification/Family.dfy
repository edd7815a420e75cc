/** Parents, children, zombies and Wait. */
module Family {
  import opened Common
  import opened KernelState
  import opened Placement

  ghost predicate HasZombie(s: State, p: Pid) {
    exists z :: z in s.zombie && s.At(z).ppid == p
  }

  /** The family fields of one unreaped process. */
  ghost predicate Kin(s: State, p: Pid) {
    var b := s.At(p);
    && p in s.births && p >= 0
    && (b.ppid != NO_PID ==> b.ppid in s.births && s.births[b.ppid] < s.births[p] && b.ppid != IDLE)
    && (b.parent.Some? ==> b.parent.value == b.ppid && b.ppid in s.procs)
    && (b.resume != FirstRun && b.ppid in s.procs ==> b.parent == Some(b.ppid))
    && -1 <= b.waiting <= 1 && (s.waiting0 == 0 ==> b.waiting != -1)
    && (b.waiting == 1 ==> b.resume == FromWait)
    && (b.resume == FromWait ==> b.waiting != -1 && (b.waiting == 1 <==> !HasZombie(s, p)))
    && (b.resume == Never <==> p in s.zombie)
    && (p in s.exits <==> p in s.zombie)
    && (p in s.zombie ==> s.exits[p] == b.status)
  }

  /** The children queue of p holds exactly its unreaped children, once each. */
  ghost predicate Children(s: State, p: Pid) {
    forall c :: multiset(s.At(p).children)[c] == if c in s.procs && s.At(c).ppid == p then 1 else 0
  }

  ghost predicate Reaped(s: State) {
    && (forall i :: 0 <= i < |s.reaps| ==>
          && s.reaps[i].child !in s.procs && s.reaps[i].child in s.births
          && s.reaps[i].child in s.exits && s.exits[s.reaps[i].child] == s.reaps[i].status)
    && (forall i, j :: 0 <= i < j < |s.reaps| ==> s.reaps[i].child != s.reaps[j].child)
  }

  ghost predicate FamilyInv(s: State) {
    && -1 <= s.waiting0 <= 0
    && (forall p :: p in s.procs ==> Kin(s, p) && Children(s, p))
    && (forall p :: p in s.births ==> s.births[p] < |s.births|)
    && (forall p :: p in s.exits ==> p in s.births)
    && Reaped(s)
  }

  function Kind(r: Resume): int {
    if r == FirstRun then 0 else if r == FromWait then 1 else if r == Never then 2 else 3
  }

  /** s' differs from s in nothing the family invariant speaks of. */
  ghost predicate SameFamily(s: State, s': State) {
    && s'.procs.Keys == s.procs.Keys && s'.zombie == s.zombie && s'.births == s.births
    && s'.exits == s.exits && s'.reaps == s.reaps && s'.waiting0 == s.waiting0
    && forall p :: p in s.procs ==>
         var b, b' := s.procs[p], s'.procs[p];
         && b'.ppid == b.ppid && b'.parent == b.parent && b'.children == b.children
         && b'.waiting == b.waiting && b'.status == b.status && Kind(b'.resume) == Kind(b.resume)
  }

  lemma FamilyFrame(s: State, s': State)
    requires FamilyInv(s) && SameFamily(s, s')
    ensures FamilyInv(s')
  {
    assert forall p :: s'.At(p).ppid == s.At(p).ppid;
    forall p | p in s'.procs ensures Kin(s', p) && Children(s', p) {
      assert Kin(s, p) && Children(s, p);
      assert HasZombie(s', p) <==> HasZombie(s, p);
    }
  }

  lemma ForkKin(s: State, child: Pid, p: Pid)
    requires FamilyInv(s) && PlacementInv(s) && child !in s.births && child >= 0 && s.cur != IDLE
    requires child !in s.procs && child !in s.zombie && child !in s.exits
    requires p in s.procs || p == child
    ensures Kin(Fork(s, child), p)
  {
    var s' := Fork(s, child);
    assert Kin(s, s.cur);
    if p != child {
      assert Kin(s, p);
      assert HasZombie(s', p) <==> HasZombie(s, p);
    }
  }

  lemma ForkChildren(s: State, child: Pid, p: Pid)
    requires FamilyInv(s) && PlacementInv(s) && child !in s.births && child >= 0 && s.cur != IDLE
    requires child !in s.procs && (p in s.procs || p == child)
    ensures Children(Fork(s, child), p)
  {
    var s' := Fork(s, child);
    assert Kin(s, s.cur);
    forall c ensures multiset(s'.At(p).children)[c] == if c in s'.procs && s'.At(c).ppid == p then 1 else 0 {
      if c in s.procs { assert Kin(s, c); }
      if p != child { assert Children(s, p); }
    }
  }

  lemma ForkFamily(s: State, child: Pid)
    requires FamilyInv(s) && PlacementInv(s) && child !in s.births && child >= 0 && s.cur != IDLE
    ensures FamilyInv(Fork(s, child)) && child !in s.procs
  {
    var s' := Fork(s, child);
    assert child !in s.procs by {
      assert child in s.procs ==> Kin(s, child);
    }
    assert child !in s.zombie by {
      assert Places(s, child, true) == 0;
    }
    forall p | p in s'.procs ensures Kin(s', p) && Children(s', p) {
      ForkKin(s, child, p);
      ForkChildren(s, child, p);
    }
  }

  lemma FirstRunFamily(s: State)
    requires FamilyInv(s) && s.cur in s.procs && s.At(s.cur).resume == FirstRun
    requires s.At(s.cur).ppid in s.procs
    ensures FamilyInv(ForkChild(s))
  {
    var s' := ForkChild(s);
    assert forall p :: s'.At(p).ppid == s.At(p).ppid;
    forall p | p in s'.procs ensures Kin(s', p) && Children(s', p) {
      assert Kin(s, p) && Children(s, p);
      assert HasZombie(s', p) <==> HasZombie(s, p);
    }
  }

  lemma BuriedZombies(s: State, s': State, p: Pid)
    requires s'.zombie == s.zombie + [s.cur] && forall q :: s'.At(q).ppid == s.At(q).ppid
    ensures HasZombie(s', p) <==> HasZombie(s, p) || s.At(s.cur).ppid == p
  {
    if s.At(s.cur).ppid == p {
      assert s.cur in s'.zombie && s'.At(s.cur).ppid == p;
    }
    if HasZombie(s, p) {
      var z :| z in s.zombie && s.At(z).ppid == p;
      assert z in s'.zombie && s'.At(z).ppid == p;
    }
  }

  lemma ExitPids(s: State, status: int, s': State)
    requires s' == WakeParent(Bury(s, status), s.At(s.cur).parent)
    ensures forall q :: s'.At(q).ppid == s.At(q).ppid
  {
  }

  lemma ExitKin(s: State, status: int, p: Pid, s': State)
    requires s' == WakeParent(Bury(s, status), s.At(s.cur).parent) && s.cur in s.procs && p in s.procs
             && Kin(s, s.cur) && Kin(s, p) && s.At(s.cur).resume == ToUser
    requires s.At(s.cur).parent.Some? ==> s.At(s.At(s.cur).parent.value).waiting != -1
    ensures Kin(s', p)
  {
    ExitPids(s, status, s');
    BuriedZombies(s, s', p);
  }

  lemma ExitChildren(s: State, status: int, p: Pid, s': State)
    requires s' == WakeParent(Bury(s, status), s.At(s.cur).parent) && s.cur in s.procs && p in s.procs && Children(s, p)
    requires s.At(s.cur).parent.Some? ==> s.At(s.cur).parent.value in s.procs
    ensures Children(s', p)
  {
    ExitPids(s, status, s');
  }

  /** Exit: the parent, if it is blocked in Wait, is the one process whose flag must go. */
  lemma ExitFamily(s: State, status: int)
    requires FamilyInv(s) && PlacementInv(s) && s.cur != IDLE && s.At(s.cur).resume == ToUser
    requires s.At(s.cur).parent.Some? ==> s.At(s.At(s.cur).parent.value).waiting != -1
    ensures FamilyInv(WakeParent(Bury(s, status), s.At(s.cur).parent))
  {
    var s' := WakeParent(Bury(s, status), s.At(s.cur).parent);
    assert Kin(s, s.cur);
    ExitReaped(s, status, s');
    forall p | p in s'.procs ensures Kin(s', p) && Children(s', p) {
      ExitKin(s, status, p, s');
      ExitChildren(s, status, p, s');
    }
  }

  lemma ExitReaped(s: State, status: int, s': State)
    requires s' == WakeParent(Bury(s, status), s.At(s.cur).parent) && s.cur in s.procs && Kin(s, s.cur) && Reaped(s)
    ensures s'.procs.Keys == s.procs.Keys && Reaped(s')
  {
  }

  lemma WaitBlockFamily(s: State)
    requires FamilyInv(s) && s.cur in s.procs && s.At(s.cur).resume == ToUser && !HasZombie(s, s.cur)
    ensures FamilyInv(s.Put(s.cur, s.At(s.cur).(state := Blocked, waiting := 1, resume := FromWait)))
  {
    var s' := s.Put(s.cur, s.At(s.cur).(state := Blocked, waiting := 1, resume := FromWait));
    assert forall p :: s'.At(p).ppid == s.At(p).ppid;
    forall p | p in s'.procs ensures Kin(s', p) && Children(s', p) {
      assert Kin(s, p) && Children(s, p);
      assert HasZombie(s', p) <==> HasZombie(s, p);
    }
  }

  /** A process is never the child of its own child. */
  lemma NoCycle(s: State, z: Pid)
    requires FamilyInv(s) && s.cur in s.procs && z in s.procs && s.At(z).ppid == s.cur
    ensures s.cur !in s.At(z).children && z != s.cur
  {
    assert Kin(s, z) && Kin(s, s.cur) && Children(s, z);
    assert s.cur in s.At(z).children <==> multiset(s.At(z).children)[s.cur] > 0;
  }

  lemma ReapedZombies(s: State, z: Pid)
    requires PlacementInv(s) && z in s.zombie
    ensures forall p :: p in RemoveFirst(s.zombie, z) <==> p in s.zombie && p != z
    ensures forall p :: p in s.zombie ==> p in s.procs
  {
    RemoveFirstMultiset(s.zombie, z);
    assert Places(s, z, true) == 1;
    var q := RemoveFirst(s.zombie, z);
    forall p ensures p in q <==> p in s.zombie && p != z {
      assert p in q <==> p in multiset(q);
      assert p in s.zombie <==> p in multiset(s.zombie);
    }
    forall p | p in s.zombie ensures p in s.procs { assert Places(s, p, true) >= 1; }
  }

  lemma ReapChildren(s: State, z: Pid, p: Pid)
    requires FamilyInv(s) && s.cur in s.procs && z in s.procs && z != s.cur && s.At(z).ppid == s.cur
    requires p in s.procs && p != z
    ensures Children(Reap(s, z), p)
  {
    var s' := Reap(s, z);
    assert Children(s, p) && Children(s, s.cur);
    assert multiset(s.At(s.cur).children)[z] == 1;
    RemoveFirstMultiset(s.At(s.cur).children, z);
    ChildrenLess(s, s', z, p);
  }

  lemma ChildrenLess(s: State, s': State, z: Pid, p: Pid)
    requires Children(s, p) && z in s.procs && s.At(z).ppid == s.cur
    requires forall c ::
               && (c in s'.procs <==> c in s.procs && c != z)
               && (c in s'.procs ==> s'.At(c).ppid == s.At(c).ppid)
    requires multiset(s'.At(p).children) == multiset(s.At(p).children) - if p == s.cur then multiset{z} else multiset{}
    ensures Children(s', p)
  {
  }

  /** A reaping takes a zombie from its parent only. */
  lemma ReapHasZombie(s: State, s': State, z: Pid, p: Pid)
    requires s.At(z).ppid != p && (forall q :: q in s'.zombie <==> q in s.zombie && q != z)
    requires forall q :: q in s.zombie && q != z ==> s'.At(q).ppid == s.At(q).ppid
    ensures HasZombie(s', p) <==> HasZombie(s, p)
  {
    if HasZombie(s, p) {
      var y :| y in s.zombie && s.At(y).ppid == p;
      assert y in s'.zombie && s'.At(y).ppid == p;
    }
    if HasZombie(s', p) {
      var y :| y in s'.zombie && s'.At(y).ppid == p;
      assert y in s.zombie && s.At(y).ppid == p;
    }
  }

  lemma ReapKin(s: State, z: Pid, p: Pid)
    requires s.cur in s.procs && p in s.procs && Kin(s, p) && p != z && z != s.cur && s.At(z).ppid == s.cur
    requires s.At(s.cur).resume in {ToUser, FromWait} && s.At(s.cur).waiting != 1
    requires s.cur !in s.At(z).children && (p in s.At(z).children <==> s.At(p).ppid == z)
    requires forall q :: q in RemoveFirst(s.zombie, z) <==> q in s.zombie && q != z
    requires forall q :: q in s.zombie ==> q in s.procs
    ensures Kin(Reap(s, z), p)
  {
    if p != s.cur { ReapHasZombie(s, Reap(s, z), z, p); }
  }

  lemma ReapFamily(s: State, z: Pid)
    requires FamilyInv(s) && PlacementInv(s) && s.cur != IDLE && z in s.zombie && s.At(z).ppid == s.cur
    requires s.At(s.cur).resume in {ToUser, FromWait} && s.At(s.cur).waiting != 1
    ensures FamilyInv(Reap(s, z)) && s.cur !in s.At(z).children
  {
    var s' := Reap(s, z);
    ReapedZombies(s, z);
    NoCycle(s, z);
    assert Kin(s, z) && Children(s, z);
    forall p | p in s'.procs ensures Kin(s', p) && Children(s', p) {
      assert multiset(s.At(z).children)[p] == if s.At(p).ppid == z then 1 else 0;
      ReapKin(s, z, p);
      ReapChildren(s, z, p);
    }
  }

  /** A process dispatched inside Wait has a zombie child to find. */
  lemma ResumedWaitFinds(s: State)
    requires FamilyInv(s) && PlacementInv(s) && s.At(s.cur).resume == FromWait
    ensures FirstChild(s, s.zombie, s.cur).Some? && s.At(s.cur).waiting == 0
  {
    assert Kin(s, s.cur);
    assert Places(s, s.cur, true) == 1;
    assert HasZombie(s, s.cur);
  }
}
