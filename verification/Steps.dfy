/** Process and clock steps keep the whole invariant, exactly when they are good. */
module Steps {
  import opened KernelState
  import opened Placement
  import opened Family
  import opened Terminals
  import opened Writers
  import opened Readers
  import opened Invariant

  /** Neither terminals nor delays can tell the difference in p. */
  ghost predicate QuietFor(s: State, s': State, p: Pid) {
    RoleOf(s', p) == RoleOf(s, p) && SameReading(s, s', p) && (DelayInv(s, p) ==> DelayInv(s', p))
  }

  ghost predicate Quiet(s: State, s': State) {
    s'.terms == s.terms && s'.log == s.log && s.births.Keys <= s'.births.Keys && forall p :: QuietFor(s, s', p)
  }

  lemma QuietRest(s: State, s': State)
    requires Rest(s) && Quiet(s, s')
    ensures WritersInv(s') && ReadersInv(s') && DelaysInv(s')
  {
    forall p ensures RoleOf(s', p) == RoleOf(s, p) && SameReading(s, s', p) { assert QuietFor(s, s', p); }
    WritersFrame(s, s');
    ReadersFrame(s, s');
    forall p ensures DelayInv(s', p) { assert DelayInv(s, p) && QuietFor(s, s', p); }
  }

  // ---------------------------------------------------------------- Fork, Exit, Wait, Delay

  lemma ForkQuiet(s: State, child: Pid)
    requires child !in s.procs && s.cur in s.procs && s.At(s.cur).resume == ToUser && s.At(s.cur).stash.None?
    requires child !in s.blocked && child !in s.births
    ensures Quiet(s, Fork(s, child))
  {
  }

  lemma ForkInv(s: State, child: Pid)
    requires Inv(s) && child !in s.births && child >= 0 && s.cur != IDLE && s.At(s.cur).resume == ToUser
    ensures Inv(Fork(s, child))
  {
    ForkFamily(s, child);
    assert child !in s.blocked by { assert Places(s, child, true) == 0; }
    ForkPlaces(s, child);
    assert StashInv(s, s.cur);
    ForkQuiet(s, child);
    QuietRest(s, Fork(s, child));
  }

  lemma ExitQuiet(s: State, status: int)
    requires s.cur in s.procs && s.At(s.cur).resume == ToUser && s.At(s.cur).stash.None?
    requires s.At(s.cur).parent.Some? ==> s.At(s.cur).parent.value in s.procs
    ensures Quiet(s, WakeParent(Bury(s, status), s.At(s.cur).parent))
  {
  }

  lemma ParentOf(s: State)
    requires Inv(s) && s.At(s.cur).parent.Some?
    ensures s.At(s.cur).parent.value in s.procs && s.At(s.cur).parent.value != IDLE
    ensures s.At(s.cur).parent.value != s.cur
    ensures -1 <= s.At(s.At(s.cur).parent.value).waiting <= 1
  {
    assert Kin(s, s.cur);
    assert Kin(s, s.At(s.cur).parent.value);
  }

  lemma ExitGoodInv(s: State, status: int)
    requires Inv(s) && s.cur != IDLE && s.cur != INIT && s.At(s.cur).resume == ToUser && Good(s, DoExit(status))
    ensures Inv(Exit(s, status))
  {
    var parent := s.At(s.cur).parent;
    var s2 := WakeParent(Bury(s, status), parent);
    if parent.Some? { ParentOf(s); }
    BuryPlaces(s, status);
    WakeParentPlaces(Bury(s, status), parent);
    ExitFamily(s, status);
    assert StashInv(s, s.cur);
    ExitQuiet(s, status);
    QuietRest(s, s2);
    SwitchInv(s2);
  }

  lemma ExitBadPlaces(s: State, status: int)
    requires Inv(s) && s.cur != IDLE && s.cur != INIT && s.At(s.cur).resume == ToUser && !Good(s, DoExit(status))
    ensures Places(Exit(s, status), s.At(s.cur).parent.value, true) == 2
  {
    var parent := s.At(s.cur).parent;
    ParentOf(s);
    BuryPlaces(s, status);
    WakeParentPlaces(Bury(s, status), parent);
    SwitchKeepsCount(WakeParent(Bury(s, status), parent), parent.value);
    assert Exit(s, status) == Switch(WakeParent(Bury(s, status), parent));
  }

  /** Exit keeps the invariant exactly when the parent's flag is not the initial -1. */
  lemma ExitInvIff(s: State, status: int)
    requires Inv(s) && s.cur != IDLE && s.cur != INIT && s.At(s.cur).resume == ToUser
    ensures Inv(Exit(s, status)) <==> Good(s, DoExit(status))
    ensures !Good(s, DoExit(status)) ==> Places(Exit(s, status), s.At(s.cur).parent.value, true) == 2
  {
    if Good(s, DoExit(status)) { ExitGoodInv(s, status); } else { ExitBadPlaces(s, status); }
  }

  lemma ReapQuiet(s: State, z: Pid)
    requires s.cur in s.procs && s.At(s.cur).resume in {ToUser, FromWait} && s.At(s.cur).stash.None?
    requires z in s.procs && z != s.cur && s.At(z).resume == Never
    ensures Quiet(s, Reap(s, z))
  {
    var s' := Reap(s, z);
    forall p ensures QuietFor(s, s', p) {}
  }

  lemma ReapInv(s: State, z: Pid)
    requires Inv(s) && s.cur != IDLE && z in s.zombie && s.At(z).ppid == s.cur
    requires s.At(s.cur).resume in {ToUser, FromWait}
    ensures Inv(Reap(s, z))
  {
    CurrentNotQueued(s);
    ReapFamily(s, z);
    ReapPlaces(s, z);
    assert Kin(s, z);
    assert StashInv(s, s.cur);
    ReapQuiet(s, z);
    QuietRest(s, Reap(s, z));
  }

  function Waiting(s: State): State {
    s.Put(s.cur, s.At(s.cur).(state := Blocked, waiting := 1, resume := FromWait))
  }

  lemma WaitBlockPlaces(s: State)
    requires PlacementInv(s) && s.cur != IDLE
    ensures Placed(Waiting(s), false)
  {
    var s' := Waiting(s);
    CurrentNotQueued(s);
    forall p: Pid ensures Places(s', p, false) == if p in s'.procs && p != IDLE then 1 else 0 {
      assert Places(s, p, true) == if p in s.procs && p != IDLE then 1 else 0;
    }
  }

  lemma WaitingQuiet(s: State)
    requires s.cur in s.procs && s.At(s.cur).resume == ToUser && s.At(s.cur).stash.None?
    ensures Quiet(s, Waiting(s))
  {
  }

  lemma WaitBlockInv(s: State)
    requires Inv(s) && s.cur != IDLE && s.At(s.cur).resume == ToUser && !HasZombie(s, s.cur)
    ensures Inv(Switch(Waiting(s)))
  {
    WaitBlockFamily(s);
    WaitBlockPlaces(s);
    assert StashInv(s, s.cur);
    WaitingQuiet(s);
    QuietRest(s, Waiting(s));
    SwitchInv(Waiting(s));
  }

  lemma WaitInv(s: State)
    requires Inv(s) && s.cur != IDLE && s.At(s.cur).resume == ToUser
    ensures Inv(Wait(s))
  {
    if s.At(s.cur).children == [] {
      ReturnInv(s, ERROR);
    } else {
      match FirstChild(s, s.zombie, s.cur)
      case Some(z) => ReapInv(s, z);
      case None => WaitBlockInv(s);
    }
  }

  /** Resumed inside Wait, a process reaps: the final ERROR is never returned. */
  lemma WaitAgainInv(s: State)
    requires Inv(s) && s.cur != IDLE && s.At(s.cur).resume == FromWait
    ensures Inv(WaitAgain(s)) && FirstChild(s, s.zombie, s.cur).Some?
  {
    ResumedWaitFinds(s);
    ReapInv(s, FirstChild(s, s.zombie, s.cur).value);
  }

  lemma FirstRunQuiet(s: State)
    requires s.cur in s.procs && s.At(s.cur).resume == FirstRun && s.At(s.cur).stash.None?
    ensures Quiet(s, ForkChild(s))
  {
  }

  lemma FirstRunInvIff(s: State)
    requires Inv(s) && s.cur != IDLE && s.At(s.cur).resume == FirstRun
    ensures Inv(ForkChild(s)) <==> s.At(s.cur).ppid in s.procs
  {
    if s.At(s.cur).ppid in s.procs {
      FirstRunFamily(s);
      SamePlaces(s, ForkChild(s), true);
      assert StashInv(s, s.cur);
      FirstRunQuiet(s);
      QuietRest(s, ForkChild(s));
    }
  }

  function Delaying(s: State, n: int): State {
    Block(s.Put(s.cur, s.At(s.cur).(delay := n)), FromDelay)
  }

  lemma DelayingQuiet(s: State, n: int)
    requires s.cur in s.procs && s.At(s.cur).resume == ToUser && s.At(s.cur).stash.None? && n >= -1 && n != 0
    ensures Quiet(s, Delaying(s, n)) && SameFamily(s, Delaying(s, n))
  {
  }

  lemma DelayStepInv(s: State, n: int)
    requires Inv(s) && s.cur != IDLE && s.At(s.cur).resume == ToUser
    ensures Inv(Delay(s, n))
  {
    if n == 0 { ReturnInv(s, SUCCESS); }
    else if n >= -1 {
      var s0 := s.Put(s.cur, s.At(s.cur).(delay := n));
      SamePlaces(s, s0, true);
      BlockPlaces(s0, FromDelay);
      assert StashInv(s, s.cur);
      DelayingQuiet(s, n);
      FamilyFrame(s, Delaying(s, n));
      QuietRest(s, Delaying(s, n));
      SwitchInv(Delaying(s, n));
    } else {
      SamePlaces(s, Delay(s, n), true);
      AllBystanders(s, Delay(s, n));
    }
  }

  // ---------------------------------------------------------------- clock

  /** A visit to p touches p alone: one tick less, and off the blocked queue at zero. */
  ghost predicate Visited(s: State, s': State, p: Pid) {
    && p in s.procs && s.At(p).delay > 0
    && s'.procs == s.procs[p := s.At(p).(delay := s.At(p).delay - 1, state := s'.At(p).state)]
    && (p in s'.blocked <==> s.At(p).delay != 1)
    && (forall q :: q != p ==> (q in s'.blocked <==> q in s.blocked))
    && s' == s.(procs := s'.procs, blocked := s'.blocked, ready := s.ready + (if s.At(p).delay == 1 then [p] else []))
  }

  lemma VisitVisited(s: State, p: Pid)
    requires PlacementInv(s) && p in s.blocked && s.At(p).delay > 0
    ensures Visited(s, Visit(s, p), p)
  {
    var b := s.At(p);
    assert p in s.procs by { assert Places(s, p, true) >= 1; }
    var s1 := s.Put(p, b.(delay := b.delay - 1));
    if b.delay == 1 {
      SamePlaces(s, s1, true);
      WakePlaces(s1, p);
      RemoveFirstMember(s1.blocked, p);
      assert Visit(s, p).procs == s.procs[p := s.At(p).(delay := 0, state := Ready)];
    } else {
      assert s.At(p).(delay := b.delay - 1, state := b.state) == s.At(p).(delay := b.delay - 1);
    }
  }

  lemma VisitQuiet(s: State, s': State, p: Pid)
    requires Visited(s, s', p) && DelayInv(s, p) && s.At(p).stash.None?
    ensures Quiet(s, s') && SameFamily(s, s')
  {
  }

  lemma VisitInv(s: State, p: Pid)
    requires Inv(s)
    ensures Inv(Visit(s, p)) && Visit(s, p).cur == s.cur
  {
    assert DelayInv(s, p) && StashInv(s, p);
    VisitPlaces(s, p);
    if s.At(p).delay > 0 {
      VisitVisited(s, p);
      VisitQuiet(s, Visit(s, p), p);
      FamilyFrame(s, Visit(s, p));
      QuietRest(s, Visit(s, p));
    }
  }

  lemma {:induction false} VisitAllInv(s: State, ps: seq<Pid>)
    requires Inv(s)
    ensures Inv(VisitAll(s, ps)) && VisitAll(s, ps).cur == s.cur && VisitAll(s, ps).ticks == s.ticks
    decreases |ps|
  {
    if ps != [] {
      VisitInv(s, ps[0]);
      VisitAllInv(Visit(s, ps[0]), ps[1..]);
    }
  }

  /** The tick count is a history. */
  lemma Ticked(s: State, n: nat)
    requires Inv(s)
    ensures Inv(s.(ticks := n))
  {
    var s' := s.(ticks := n);
    SamePlaces(s, s', true);
    assert forall p :: Bystander(s, s', p);
    AllBystanders(s, s');
  }

  lemma TickInv(s: State, n: nat, s': State)
    requires Inv(s) && s' == Tick(s, n)
    ensures Inv(s')
  {
    Ticked(s, n);
    PreemptInv(s.(ticks := n));
  }

  lemma SweepInv(s: State, s': State)
    requires Inv(s) && s' == Sweep(s)
    ensures Inv(s')
  {
    VisitAllInv(s, s.blocked);
  }

  lemma ClockInv(s: State)
    requires Inv(s)
    ensures Inv(Clock(s))
  {
    SweepInv(s, Sweep(s));
    TickInv(Sweep(s), s.ticks + 1, Clock(s));
  }
}
