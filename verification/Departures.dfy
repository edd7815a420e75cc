/** Runs of the code as it is that leave the good states, one for each way Good can fail. */
module Departures {
  import opened Common
  import opened KernelState
  import opened Placement
  import opened Invariant

  /** Extend a run by one step. */
  lemma Extend(states: seq<State>, events: seq<Event>, e: Event)
    requires IsRun(states, events) && Enabled(states[|events|], e)
    ensures IsRun(states + [Next(states[|events|], e)], events + [e])
  {
  }

  lemma AddStep(states: seq<State>, events: seq<Event>, e: Event) returns (more: seq<State>, later: seq<Event>)
    requires IsRun(states, events) && Enabled(states[|events|], e)
    ensures IsRun(more, later) && |later| == |events| + 1 && more[0] == states[0]
    ensures more[|later|] == Next(states[|events|], e)
  {
    Extend(states, events, e);
    more, later := states + [Next(states[|events|], e)], events + [e];
  }

  lemma ClockIdleBlocked(s: State)
    requires s.blocked == []
    ensures Clock(s) == Preempt(s.(ticks := s.ticks + 1))
  {
  }

  // The states of the runs below, as far as they matter.

  predicate Booted(s: State, w: int) {
    && s.mode == Run && s.waiting0 == w && s.cur == INIT && s.ready == [] && s.blocked == [] && s.zombie == []
    && s.procs.Keys == {IDLE, INIT} && s.births.Keys == {IDLE, INIT}
    && s.At(INIT).resume == ToUser && s.At(INIT).waiting == w && s.At(INIT).children == []
       && s.At(INIT).state == Running
  }

  predicate Forked(s: State, w: int) {
    && s.mode == Run && s.waiting0 == w && s.cur == INIT && s.ready == [2] && s.blocked == [] && s.zombie == []
    && s.procs.Keys == {IDLE, INIT, 2} && s.births.Keys == {IDLE, INIT, 2}
    && s.At(INIT).resume == ToUser && s.At(INIT).waiting == w && s.At(INIT).children == [2]
       && s.At(INIT).state == Running
    && s.At(2).resume == FirstRun && s.At(2).ppid == INIT && s.At(2).children == []
  }

  predicate ChildUp(s: State, w: int, r: Resume) {
    && s.mode == Run && s.waiting0 == w && s.cur == 2 && s.ready == [INIT] && s.blocked == [] && s.zombie == []
    && s.procs.Keys == {IDLE, INIT, 2} && s.births.Keys == {IDLE, INIT, 2}
    && s.At(INIT).resume == ToUser && s.At(INIT).waiting == w && s.At(INIT).children == [2]
    && s.At(2).resume == r && s.At(2).ppid == INIT && s.At(2).children == [] && s.At(2).state == Running
    && (r == ToUser ==> s.At(2).parent == Some(INIT))
  }

  lemma Boot(w: int)
    ensures Enabled(Initial(w), OnClock) && Booted(Next(Initial(w), OnClock), w)
  {
    ClockIdleBlocked(Initial(w));
  }

  lemma ForkTwo(s: State, w: int)
    requires Booted(s, w)
    ensures Enabled(s, DoFork(2, true)) && Forked(Next(s, DoFork(2, true)), w)
  {
  }

  lemma RunTwo(s: State, w: int)
    requires Forked(s, w)
    ensures Enabled(s, OnClock) && ChildUp(Next(s, OnClock), w, FirstRun)
  {
    ClockIdleBlocked(s);
  }

  lemma LearnParent(s: State, w: int)
    requires ChildUp(s, w, FirstRun)
    ensures Enabled(s, Continue(true)) && ChildUp(Next(s, Continue(true)), w, ToUser)
  {
  }

  /** Init forks child 2, which runs and learns its parent. */
  lemma ForkAndRun(w: int) returns (states: seq<State>, events: seq<Event>)
    ensures IsRun(states, events) && states[0] == Initial(w) && ChildUp(states[|events|], w, ToUser)
  {
    Boot(w);
    states, events := AddStep([Initial(w)], [], OnClock);
    ForkTwo(states[|events|], w);
    states, events := AddStep(states, events, DoFork(2, true));
    RunTwo(states[|events|], w);
    states, events := AddStep(states, events, OnClock);
    LearnParent(states[|events|], w);
    states, events := AddStep(states, events, Continue(true));
  }

  lemma ExitTwice(s: State)
    requires ChildUp(s, -1, ToUser)
    ensures Enabled(s, DoExit(7)) && Places(Next(s, DoExit(7)), INIT, true) == 2
  {
    var s1 := Next(s, DoExit(7));
    assert s1.cur == INIT && s1.ready == [INIT];
  }

  /** With the flag the code starts with, a child's Exit puts a parent that never waited
      in two places at once. */
  lemma FlagDeparture() returns (states: seq<State>, events: seq<Event>)
    ensures IsRun(states, events) && states[0] == Initial(-1)
    ensures Places(states[|events|], INIT, true) == 2 && !Inv(states[|events|])
  {
    states, events := ForkAndRun(-1);
    ExitTwice(states[|events|]);
    states, events := AddStep(states, events, DoExit(7));
    assert !Placed(states[|events|], true);
  }

  predicate GrandchildReady(s: State) {
    && s.mode == Run && s.waiting0 == 0 && s.cur == 2 && s.ready == [INIT, 3] && s.blocked == [] && s.zombie == []
    && s.procs.Keys == {IDLE, INIT, 2, 3}
    && s.At(INIT).resume == ToUser && s.At(INIT).waiting == 0 && s.At(INIT).children == [2]
    && s.At(2).resume == ToUser && s.At(2).ppid == INIT && s.At(2).children == [3] && s.At(2).parent == Some(INIT)
    && s.At(3).resume == FirstRun && s.At(3).ppid == 2
  }

  predicate ChildGone(s: State) {
    && s.mode == Run && s.cur == INIT && s.ready == [3] && s.blocked == [] && s.zombie == [2]
    && s.procs.Keys == {IDLE, INIT, 2, 3}
    && s.At(INIT).resume == ToUser && s.At(INIT).children == [2] && s.At(INIT).state == Running
    && s.At(2).ppid == INIT && s.At(2).children == [3] && s.At(3).resume == FirstRun && s.At(3).ppid == 2
  }

  predicate ChildReaped(s: State, r: Pid) {
    && s.mode == Run && s.cur == r && (r == INIT ==> s.ready == [3]) && s.blocked == []
    && s.procs.Keys == {IDLE, INIT, 3}
    && s.At(INIT).resume == ToUser && s.At(3).resume == FirstRun && s.At(3).ppid == 2
  }

  lemma ForkThree(s: State)
    requires ChildUp(s, 0, ToUser)
    ensures Enabled(s, DoFork(3, true)) && GrandchildReady(Next(s, DoFork(3, true)))
  {
  }

  lemma ExitChild(s: State)
    requires GrandchildReady(s)
    ensures Enabled(s, DoExit(0)) && ChildGone(Next(s, DoExit(0)))
  {
  }

  lemma ReapChild(s: State)
    requires ChildGone(s)
    ensures Enabled(s, DoWait) && ChildReaped(Next(s, DoWait), INIT)
  {
    assert FirstChild(s, s.zombie, INIT) == Some(2);
    assert Next(s, DoWait) == Reap(s, 2);
  }

  lemma RunThree(s: State)
    requires ChildReaped(s, INIT)
    ensures Enabled(s, OnClock) && ChildReaped(Next(s, OnClock), 3)
  {
    ClockIdleBlocked(s);
  }

  /** Even with the flag starting at 0: a grandchild first runs after its parent was
      reaped, and reads a freed PCB. */
  lemma FreedParentDeparture() returns (states: seq<State>, events: seq<Event>)
    ensures IsRun(states, events) && states[0] == Initial(0)
    ensures states[|events|].mode == Fault && !Inv(states[|events|])
  {
    states, events := ForkAndRun(0);
    ForkThree(states[|events|]);
    states, events := AddStep(states, events, DoFork(3, true));
    ExitChild(states[|events|]);
    states, events := AddStep(states, events, DoExit(0));
    ReapChild(states[|events|]);
    states, events := AddStep(states, events, DoWait);
    RunThree(states[|events|]);
    states, events := AddStep(states, events, OnClock);
    states, events := AddStep(states, events, Continue(true));
  }

  // ---------------------------------------------------------------- three writers

  /** Init, 2 and 3 with their continuations, and the fields of terminal 0 that matter. */
  predicate Three(s: State, cur: Pid, ready: seq<Pid>, blocked: seq<Pid>, r1: Resume, r2: Resume, r3: Resume,
                  writer: Option<Pid>, writers: seq<Pid>, inUse: bool)
  {
    && s.mode == Run && s.cur == cur && s.ready == ready && s.blocked == blocked && s.procs.Keys == {IDLE, INIT, 2, 3}
    && s.At(IDLE).resume == ToUser && s.At(INIT).resume == r1 && s.At(2).resume == r2 && s.At(3).resume == r3
    && s.At(2).ppid == INIT && s.At(3).ppid == INIT && s.At(3).delay == 0 && s.At(3).waiting == 0 && s.zombie == []
       && s.At(cur).state == Running
    && |s.terms| == NUM_TERMINALS && s.terms[0].writer == writer && s.terms[0].writers == writers
       && s.terms[0].inUse == inUse
    && s.terms[0].busy == writer.Some? && (writer.Some? ==> s.terms[0].position == |s.terms[0].writeBuf|)
  }

  lemma BootTerminals()
    ensures Next(Initial(0), OnClock).terms == Initial(0).terms && Next(Initial(0), OnClock).At(IDLE).resume == ToUser
  {
    ClockIdleBlocked(Initial(0));
  }

  lemma ForkBoth(s: State)
    requires Forked(s, 0) && s.terms == Initial(0).terms && s.At(IDLE).resume == ToUser
    ensures Enabled(s, DoFork(3, true))
    ensures Three(Next(s, DoFork(3, true)), INIT, [2, 3], [], ToUser, FirstRun, FirstRun, None, [], false)
  {
  }

  lemma InitWrites(s: State)
    requires Three(s, INIT, [2, 3], [], ToUser, FirstRun, FirstRun, None, [], false)
    ensures Enabled(s, DoWrite(0, [65], true, true))
    ensures Three(Next(s, DoWrite(0, [65], true, true)), 2, [3], [INIT], FromIo(0, 1), FirstRun, FirstRun,
                  Some(INIT), [], true)
  {
  }

  lemma SecondRuns(s: State)
    requires Three(s, 2, [3], [INIT], FromIo(0, 1), FirstRun, FirstRun, Some(INIT), [], true)
    ensures Enabled(s, Continue(true))
    ensures Three(Next(s, Continue(true)), 2, [3], [INIT], FromIo(0, 1), ToUser, FirstRun, Some(INIT), [], true)
  {
  }

  lemma SecondWaits(s: State)
    requires Three(s, 2, [3], [INIT], FromIo(0, 1), ToUser, FirstRun, Some(INIT), [], true)
    ensures Enabled(s, DoWrite(0, [66], true, true))
    ensures Three(Next(s, DoWrite(0, [66], true, true)), 3, [], [INIT, 2], FromIo(0, 1), FromLock(0, [66]), FirstRun,
                  Some(INIT), [2], true)
  {
  }

  lemma ThirdRuns(s: State)
    requires Three(s, 3, [], [INIT, 2], FromIo(0, 1), FromLock(0, [66]), FirstRun, Some(INIT), [2], true)
    ensures Enabled(s, Continue(true))
    ensures Three(Next(s, Continue(true)), 3, [], [INIT, 2], FromIo(0, 1), FromLock(0, [66]), ToUser, Some(INIT),
                  [2], true)
  {
  }

  lemma ThirdWaits(s: State)
    requires Three(s, 3, [], [INIT, 2], FromIo(0, 1), FromLock(0, [66]), ToUser, Some(INIT), [2], true)
    ensures Enabled(s, DoWrite(0, [67], true, true))
    ensures Three(Next(s, DoWrite(0, [67], true, true)), IDLE, [], [INIT, 2, 3], FromIo(0, 1), FromLock(0, [66]),
                  FromLock(0, [67]),
                  Some(INIT), [2, 3], true)
  {
  }

  lemma FirstDone(s: State)
    requires Three(s, IDLE, [], [INIT, 2, 3], FromIo(0, 1), FromLock(0, [66]), FromLock(0, [67]), Some(INIT), [2, 3],
                   true)
    ensures Enabled(s, OnTransmit(0))
    ensures Three(Next(s, OnTransmit(0)), IDLE, [INIT, 2], [3], FromIo(0, 1), FromLock(0, [66]), FromLock(0, [67]),
                  None, [3], true)
  {
    assert RemoveFirst([INIT, 2, 3], INIT) == [2, 3] && RemoveFirst([2, 3], 2) == [3];
  }

  lemma InitBack(s: State)
    requires Three(s, IDLE, [INIT, 2], [3], FromIo(0, 1), FromLock(0, [66]), FromLock(0, [67]), None, [3], true)
    ensures Enabled(s, OnClock)
    ensures Three(Next(s, OnClock), INIT, [2], [3], FromIo(0, 1), FromLock(0, [66]), FromLock(0, [67]), None, [3], true)
  {
    assert VisitAll(s, [3]) == s;
  }

  lemma InitReturns(s: State)
    requires Three(s, INIT, [2], [3], FromIo(0, 1), FromLock(0, [66]), FromLock(0, [67]), None, [3], true)
    ensures Enabled(s, Continue(true))
    ensures Three(Next(s, Continue(true)), INIT, [2], [3], ToUser, FromLock(0, [66]), FromLock(0, [67]), None, [3],
                  true)
  {
  }

  lemma SecondBack(s: State)
    requires Three(s, INIT, [2], [3], ToUser, FromLock(0, [66]), FromLock(0, [67]), None, [3], true)
    ensures Enabled(s, OnClock)
    ensures Three(Next(s, OnClock), 2, [INIT], [3], ToUser, FromLock(0, [66]), FromLock(0, [67]), None, [3], true)
  {
    assert VisitAll(s, [3]) == s;
  }

  lemma SecondFails(s: State)
    requires Three(s, 2, [INIT], [3], ToUser, FromLock(0, [66]), FromLock(0, [67]), None, [3], true)
    ensures Enabled(s, Continue(false)) && Places(Next(s, Continue(false)), 3, true) == 2
  {
    var s1 := Next(s, Continue(false));
    assert s1.ready == [INIT, 3] && s1.blocked == [3];
  }

  /** Init writes while 2 and 3 wait for the terminal. */
  lemma WriteAndWait() returns (states: seq<State>, events: seq<Event>)
    ensures IsRun(states, events) && states[0] == Initial(0)
    ensures Three(states[|events|], IDLE, [], [INIT, 2, 3], FromIo(0, 1), FromLock(0, [66]), FromLock(0, [67]),
                  Some(INIT), [2, 3], true)
  {
    Boot(0);
    BootTerminals();
    states, events := AddStep([Initial(0)], [], OnClock);
    ForkTwo(states[|events|], 0);
    states, events := AddStep(states, events, DoFork(2, true));
    ForkBoth(states[|events|]);
    states, events := AddStep(states, events, DoFork(3, true));
    InitWrites(states[|events|]);
    states, events := AddStep(states, events, DoWrite(0, [65], true, true));
    SecondRuns(states[|events|]);
    states, events := AddStep(states, events, Continue(true));
    SecondWaits(states[|events|]);
    states, events := AddStep(states, events, DoWrite(0, [66], true, true));
    ThirdRuns(states[|events|]);
    states, events := AddStep(states, events, Continue(true));
    ThirdWaits(states[|events|]);
    states, events := AddStep(states, events, DoWrite(0, [67], true, true));
  }

  /** A woken writer that gets no buffer while another waits puts that one in two places at once. */
  lemma NoBufferDeparture() returns (states: seq<State>, events: seq<Event>)
    ensures IsRun(states, events) && states[0] == Initial(0)
    ensures Places(states[|events|], 3, true) == 2 && !Inv(states[|events|])
  {
    states, events := WriteAndWait();
    FirstDone(states[|events|]);
    states, events := AddStep(states, events, OnTransmit(0));
    InitBack(states[|events|]);
    states, events := AddStep(states, events, OnClock);
    InitReturns(states[|events|]);
    states, events := AddStep(states, events, Continue(true));
    SecondBack(states[|events|]);
    states, events := AddStep(states, events, OnClock);
    SecondFails(states[|events|]);
    states, events := AddStep(states, events, Continue(false));
    assert !Placed(states[|events|], true);
  }
}
