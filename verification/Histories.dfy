/** What a call led to, told from the event over whole runs. */
module Histories {
  import opened Common
  import opened KernelState
  import opened Placement
  import opened Family
  import opened Terminals
  import opened Readers
  import opened Invariant
  import opened TtySteps
  import opened Scheduling
  import opened Runs
  import opened Reads
  import opened Answers
  import opened Service

  // ---------------------------------------------------------------- what others leave alone

  /** What the steps of others leave alone in a process that waits in the kernel. */
  predicate Kept(b: Pcb, b': Pcb) {
    b'.resume == b.resume && b'.ppid == b.ppid && b'.readLen == b.readLen && b'.got == b.got
  }

  /** p is still in the table, and so is what it waits with. */
  predicate Stands(s: State, s': State, p: Pid) {
    && p in s'.procs && Kept(s.At(p), s'.At(p))
    && s'.At(p).ret == s.At(p).ret && s'.At(p).stash == s.At(p).stash
  }

  lemma LifeStands(s: State, e: Event, s': State, p: Pid)
    requires Inv(s) && Enabled(s, e) && Good(s, e) && s' == Next(s, e) && p in s.procs && p != s.cur && p !in s.zombie
    requires e.DoFork? || e.DoExit? || e.DoWait? || e.DoDelay?
    ensures Stands(s, s', p)
  {
    match e
    case DoFork(child, ok) =>
      if ok { ForkAnswers(s, child, s'); } else { ForkFails(s, child, s'); }
    case DoExit(status) => ExitAnswers(s, status, s');
    case DoWait =>
      var k := WaitAnswers(s, s');
      assert k < |s.zombie| ==> s.zombie[k] in s.zombie;
    case DoDelay(n) => DelayAnswers(s, n, s');
  }

  lemma TtyStands(s: State, e: Event, s': State, p: Pid)
    requires Inv(s) && Enabled(s, e) && s' == Next(s, e) && p in s.procs && p != s.cur
    requires e.DoRead? || e.DoWrite?
    ensures Stands(s, s', p)
  {
    match e
    case DoRead(t, len, bufOk, allocOk) => ReadAnswers(s, t, len, bufOk, allocOk, s');
    case DoWrite(t, msg, bufOk, allocOk) => WriteAnswers(s, t, msg, bufOk, allocOk, s');
  }

  lemma ContinueStands(s: State, allocOk: bool, s': State, p: Pid)
    requires Inv(s) && Enabled(s, Continue(allocOk)) && Good(s, Continue(allocOk)) && s' == Next(s, Continue(allocOk))
    requires p in s.procs && p != s.cur && p !in s.zombie
    ensures Stands(s, s', p)
  {
    CurrentThere(s);
    match s.At(s.cur).resume
    case FirstRun => ChildAnswers(s, allocOk, s');
    case FromWait =>
      var k := WaitResumes(s, allocOk, s');
      assert s.zombie[k] in s.zombie;
    case FromRead(t) => StashAnswers(s, t, allocOk, s');
    case FromLock(t, msg) => LockAnswers(s, t, msg, allocOk, s');
    case FromIo(t, len) => IoAnswers(s, t, len, allocOk, s');
    case FromDelay => DelayResumes(s, allocOk, s');
  }

  lemma CurrentThere(s: State)
    requires Inv(s)
    ensures s.At(s.cur).resume != Never
  {
    assert Kin(s, s.cur);
    if s.cur != IDLE { CurrentNotQueued(s); }
  }

  /** Whatever else happens, but for the end of its own message or bytes for itself. */
  lemma StepStands(s: State, e: Event, s': State, p: Pid)
    requires Inv(s) && Enabled(s, e) && Good(s, e) && s' == Next(s, e) && p in s.procs && p !in s.zombie
    requires p != s.cur && !e.OnTransmit? && !e.OnReceive?
    ensures Stands(s, s', p)
  {
    if e.DoRead? || e.DoWrite? {
      TtyStands(s, e, s', p);
    } else if e.OnClock? {
      ClockStands(s, s', p);
    } else if e.Continue? {
      ContinueStands(s, e.callocOk, s', p);
    } else {
      LifeStands(s, e, s', p);
    }
  }

  lemma ClockStands(s: State, s': State, p: Pid)
    requires Inv(s) && Enabled(s, OnClock) && s' == Next(s, OnClock) && p in s.procs
    ensures Stands(s, s', p)
  {
    ClockAnswers(s, s');
  }

  lemma TransmitStands(s: State, t: nat, s': State, p: Pid)
    requires Inv(s) && Enabled(s, OnTransmit(t)) && s' == Next(s, OnTransmit(t)) && p in s.procs
    ensures p in s'.procs && Kept(s.At(p), s'.At(p))
    ensures !s.At(p).resume.FromIo? ==> Stands(s, s', p)
  {
    TransmitAnswers(s, t, s');
    WriterSends(s, t);
    LineStands(s, t, s', p);
  }

  lemma WriterSends(s: State, t: nat)
    requires Inv(s) && t < |s.terms| && s.terms[t].writer.Some?
    ensures s.At(s.terms[t].writer.value).resume == FromIo(t, |s.terms[t].writeBuf|)
  {
    assert WriterInv(s, t);
  }

  lemma LineStands(s: State, t: nat, s': State, p: Pid)
    requires t < |s.terms| && s.terms[t].writer.Some? && s'.procs.Keys == s.procs.Keys
    requires if s.terms[t].position < |s.terms[t].writeBuf| then NextLine(s, s', t) else LastLine(s, s', t)
    requires p in s.procs && s.At(s.terms[t].writer.value).resume.FromIo?
    ensures p in s'.procs && Kept(s.At(p), s'.At(p)) && (!s.At(p).resume.FromIo? ==> Stands(s, s', p))
  {
  }

  lemma ReceiveStands(s: State, t: nat, data: seq<Byte>, allocs: seq<bool>, s': State, p: Pid)
    requires Inv(s) && Enabled(s, OnReceive(t, data, allocs)) && s' == Next(s, OnReceive(t, data, allocs))
    requires p in s.procs && p !in s.terms[t].readers
    ensures Stands(s, s', p)
  {
    var n := ReceiveAnswers(s, t, data, allocs, s');
  }

  /** p is not the one whose message ends, nor a reader of the terminal that receives. */
  predicate Aside(s: State, e: Event, p: Pid) {
    && p in s.procs && p !in s.zombie && p != s.cur && (e.OnTransmit? ==> !s.At(p).resume.FromIo?)
    && (e.OnReceive? ==> e.it < |s.terms| && p !in s.terms[e.it].readers)
  }

  lemma AsideStands(s: State, e: Event, s': State, p: Pid)
    requires Inv(s) && Enabled(s, e) && Good(s, e) && s' == Next(s, e) && Aside(s, e, p)
    ensures Stands(s, s', p)
  {
    if e.OnTransmit? {
      TransmitStands(s, e.tt, s', p);
    } else if e.OnReceive? {
      ReceiveStands(s, e.it, e.data, e.allocs, s', p);
    } else {
      StepStands(s, e, s', p);
    }
  }

  /** p is in the table, came from the process ppid, and is to go on at r inside Fork, Wait or Delay. */
  predicate Parked(s: State, p: Pid, r: Resume, ppid: Pid) {
    p in s.procs && s.At(p).resume == r && s.At(p).ppid == ppid && r in {FirstRun, FromWait, FromDelay}
  }

  /** Processes that do not run keep what they wait with if they wait for no terminal. */
  lemma ParkedStands(s: State, e: Event, s': State, p: Pid, r: Resume, ppid: Pid)
    requires Inv(s) && Enabled(s, e) && Good(s, e) && s' == Next(s, e) && p != s.cur && Parked(s, p, r, ppid)
    ensures Parked(s', p, r, ppid)
  {
    assert Kin(s, p);
    if e.OnReceive? {
      assert ReaderInv(s, e.it);
      assert RoleOf(s, p).NoRole?;
    }
    AsideStands(s, e, s', p);
  }

  // ---------------------------------------------------------------- Fork, twice returned

  lemma StaysParked(states: seq<State>, events: seq<Event>, k: nat, p: Pid, r: Resume, ppid: Pid)
    requires GoodRun(states, events) && Inv(states[0]) && k < |events| && Parked(states[k], p, r, ppid)
    requires states[k].cur != p
    ensures Parked(states[k + 1], p, r, ppid)
  {
    GoodUpTo(states, events, k);
    ParkedStands(states[k], events[k], states[k + 1], p, r, ppid);
  }

  /** Whether a process runs, and whether it is parked. */
  datatype Stop = Stop(running: bool, parked: bool)

  function StopOf(s: State, p: Pid, r: Resume, ppid: Pid): Stop { Stop(s.cur == p, Parked(s, p, r, ppid)) }

  function Stops(states: seq<State>, p: Pid, r: Resume, ppid: Pid): (vs: seq<Stop>)
    ensures |vs| == |states| && forall i :: 0 <= i < |states| ==> vs[i] == StopOf(states[i], p, r, ppid)
  {
    seq(|states|, i requires 0 <= i < |states| => StopOf(states[i], p, r, ppid))
  }

  predicate StopStep(v: Stop, v': Stop) { v.parked && !v.running ==> v'.parked }

  lemma {:induction false} StopUntil(vs: seq<Stop>, i: nat, k: nat)
    requires i <= k < |vs| && (forall j :: 0 <= j < |vs| - 1 ==> StopStep(vs[j], vs[j + 1])) && vs[i].parked
    requires forall j :: i <= j < k ==> !vs[j].running
    ensures vs[k].parked
    decreases k
  {
    if k > i {
      StopUntil(vs, i, k - 1);
      assert StopStep(vs[k - 1], vs[k - 1 + 1]);
    }
  }

  lemma ParkedUntil(states: seq<State>, events: seq<Event>, i: nat, k: nat, p: Pid, r: Resume, ppid: Pid)
    requires GoodRun(states, events) && Inv(states[0]) && i <= k <= |events| && Parked(states[i], p, r, ppid)
    requires forall j :: i <= j < k ==> states[j].cur != p
    ensures Parked(states[k], p, r, ppid)
  {
    var vs := Stops(states, p, r, ppid);
    forall j | 0 <= j < |vs| - 1 ensures StopStep(vs[j], vs[j + 1]) {
      if vs[j].parked && !vs[j].running { StaysParked(states, events, j, p, r, ppid); }
    }
    StopUntil(vs, i, k);
  }

  /** A fork returns twice: to the caller at once, with the child's pid, and to the child when it is first
      dispatched, with 0 and with the caller as its parent. */
  lemma ForkReturnsTwice(states: seq<State>, events: seq<Event>, i: nat, k: nat, child: Pid)
    requires GoodRun(states, events) && Inv(states[0]) && i < k < |events| && events[i] == DoFork(child, true)
    requires states[k].cur == child && forall j :: i < j < k ==> states[j].cur != child
    ensures Answered(states[i], states[i + 1], child) && child !in states[i].procs
    ensures states[k].At(child).ppid == states[i].cur
    ensures events[k].Continue? && Answered(states[k], states[k + 1], 0)
    ensures states[k + 1].At(child).parent == Some(states[i].cur)
  {
    GoodUpTo(states, events, i);
    ForkAnswers(states[i], child, states[i + 1]);
    ParkedUntil(states, events, i + 1, k, child, FirstRun, states[i].cur);
    GoodUpTo(states, events, k);
    FirstStep(states[k], events[k], states[k + 1]);
  }

  lemma FirstStep(s: State, e: Event, s': State)
    requires Inv(s) && Enabled(s, e) && Good(s, e) && s' == Next(s, e) && s.At(s.cur).resume == FirstRun
    ensures e.Continue? && Answered(s, s', 0) && s'.At(s.cur).parent == Some(s.At(s.cur).ppid)
  {
    ChildAnswers(s, e.callocOk, s');
  }

  /** Delay returns 0 when its caller is dispatched again. */
  lemma DelayReturns(states: seq<State>, events: seq<Event>, i: nat, k: nat, n: int)
    requires GoodRun(states, events) && Inv(states[0]) && i < k < |events| && events[i] == DoDelay(n) && n >= -1
             && n != 0
    requires states[k].cur == states[i].cur && forall j :: i < j < k ==> states[j].cur != states[i].cur
    ensures events[k].Continue? && Answered(states[k], states[k + 1], SUCCESS)
  {
    GoodUpTo(states, events, i);
    DelayParks(states[i], n, states[i + 1]);
    ParkedUntil(states, events, i + 1, k, states[i].cur, FromDelay, states[i].At(states[i].cur).ppid);
    GoodUpTo(states, events, k);
    DelayEnds(states[k], events[k], states[k + 1]);
  }

  lemma DelayParks(s: State, n: int, s': State)
    requires Inv(s) && Enabled(s, DoDelay(n)) && s' == Next(s, DoDelay(n)) && n >= -1 && n != 0
    ensures Parked(s', s.cur, FromDelay, s.At(s.cur).ppid)
  {
  }

  lemma DelayEnds(s: State, e: Event, s': State)
    requires Inv(s) && Enabled(s, e) && s' == Next(s, e) && s.At(s.cur).resume == FromDelay
    ensures e.Continue? && Answered(s, s', SUCCESS)
  {
    DelayResumes(s, e.callocOk, s');
  }

  // ---------------------------------------------------------------- the status of an Exit

  /** Nobody exited, and nobody was reaped. */
  predicate SameEnds(s: State, s': State) { s'.exits == s.exits && s'.reaps == s.reaps }

  lemma {:induction false} VisitAllEnds(s: State, ps: seq<Pid>)
    ensures SameEnds(s, VisitAll(s, ps))
    decreases |ps|
  {
    if ps != [] { VisitAllEnds(Visit(s, ps[0]), ps[1..]); }
  }

  lemma ClockEnds(s: State)
    ensures SameEnds(s, Clock(s))
  {
    VisitAllEnds(s, s.blocked);
    TickEnds(Sweep(s), s.ticks + 1);
  }

  lemma TickEnds(s: State, n: nat)
    ensures SameEnds(s, Tick(s, n))
  {
  }

  lemma {:induction false} ServeEnds(s: State, t: nat, allocs: seq<bool>)
    requires t < |s.terms|
    ensures SameEnds(s, Serve(s, t, allocs))
    decreases |s.terms[t].readers|
  {
    if s.terms[t].readers != [] && s.terms[t].readBuf != [] {
      ServeEnds(ServeOne(s, t, NextAlloc(allocs)), t, LaterAllocs(allocs));
    }
  }

  lemma BeginEnds(s: State, t: nat, msg: seq<Byte>, allocOk: bool)
    ensures SameEnds(s, Begin(s, t, msg, allocOk))
  {
  }

  lemma WriteEnds(s: State, t: int, msg: seq<Byte>, bufOk: bool, allocOk: bool)
    ensures SameEnds(s, TtyWrite(s, t, msg, bufOk, allocOk))
  {
    if 0 <= t < NUM_TERMINALS && bufOk && |msg| > 0 && !s.Term(t).inUse {
      var x := s.Term(t);
      BeginEnds(s.PutTerm(t, x.(calls := x.calls + [Message(s.cur, msg)])), t, msg, allocOk);
    }
  }

  lemma ReadEnds(s: State, t: int, len: int, bufOk: bool, allocOk: bool)
    ensures SameEnds(s, TtyRead(s, t, len, bufOk, allocOk))
  {
  }

  lemma TransmitEnds(s: State, t: nat)
    ensures SameEnds(s, TransmitTrap(s, t))
  {
  }

  lemma TtyEnds(s: State, e: Event, s': State)
    requires Enabled(s, e) && s' == Next(s, e)
             && (e.DoRead? || e.DoWrite? || e.OnTransmit? || e.OnReceive? || e.OnClock?)
    ensures SameEnds(s, s')
  {
    match e
    case DoRead(t, len, bufOk, allocOk) => ReadEnds(s, t, len, bufOk, allocOk);
    case DoWrite(t, msg, bufOk, allocOk) => WriteEnds(s, t, msg, bufOk, allocOk);
    case OnTransmit(t) => TransmitEnds(s, t);
    case OnReceive(t, data, allocs) => ServeEnds(s.PutTerm(t, Extended(s.terms[t], data)), t, allocs);
    case OnClock => ClockEnds(s);
  }

  lemma ContinueEnds(s: State, allocOk: bool)
    ensures ContinueStep(s, allocOk).exits == s.exits
  {
    match s.At(s.cur).resume
    case FromLock(t, msg) => BeginEnds(s, t, msg, allocOk);
    case _ =>
  }

  lemma ExitsStep(s: State, e: Event, s': State)
    requires Inv(s) && Enabled(s, e) && Good(s, e) && s' == Next(s, e)
    ensures if e.DoExit? && s.cur != INIT then s.cur !in s.exits && s'.exits == s.exits[s.cur := e.status]
            else s'.exits == s.exits
  {
    if e.DoExit? {
      ExitAnswers(s, e.status, s');
      assert Kin(s, s.cur);
      if s.cur != IDLE { CurrentNotQueued(s); }
    } else if e.Continue? {
      ContinueEnds(s, e.callocOk);
    } else if e.DoFork? || e.DoWait? || e.DoDelay? {
    } else {
      TtyEnds(s, e, s');
    }
  }

  /** Who runs, and who has exited with what. */
  datatype Ending = Ending(cur: Pid, exits: map<Pid, int>)

  /** The exits are those of DoExit, each with its status, and each for a process that had not exited before. */
  predicate EndStep(x: Ending, x': Ending, e: Event) {
    if e.DoExit? && x.cur != INIT then x.cur !in x.exits && x'.exits == x.exits[x.cur := e.status]
    else x'.exits == x.exits
  }

  predicate EndRun(xs: seq<Ending>, events: seq<Event>) {
    |xs| == |events| + 1 && forall i :: 0 <= i < |events| ==> EndStep(xs[i], xs[i + 1], events[i])
  }

  function Endings(states: seq<State>): (xs: seq<Ending>)
    ensures |xs| == |states| && forall i :: 0 <= i < |states| ==> xs[i] == Ending(states[i].cur, states[i].exits)
  {
    seq(|states|, i requires 0 <= i < |states| => Ending(states[i].cur, states[i].exits))
  }

  lemma EndStepAt(states: seq<State>, events: seq<Event>, i: nat, x: Ending, x': Ending)
    requires GoodRun(states, events) && Inv(states[0]) && i < |events|
    requires x == Ending(states[i].cur, states[i].exits) && x' == Ending(states[i + 1].cur, states[i + 1].exits)
    ensures EndStep(x, x', events[i])
  {
    GoodUpTo(states, events, i);
    ExitsStep(states[i], events[i], states[i + 1]);
  }

  lemma RunEnds(states: seq<State>, events: seq<Event>, xs: seq<Ending>)
    requires GoodRun(states, events) && Inv(states[0]) && xs == Endings(states)
    ensures EndRun(xs, events)
  {
    forall i | 0 <= i < |events| ensures EndStep(xs[i], xs[i + 1], events[i]) {
      EndStepAt(states, events, i, xs[i], xs[i + 1]);
    }
  }

  lemma {:induction false} ExitsKept(xs: seq<Ending>, events: seq<Event>, i: nat, k: nat, c: Pid)
    requires EndRun(xs, events) && i <= k <= |events| && c in xs[i].exits
    ensures c in xs[k].exits && xs[k].exits[c] == xs[i].exits[c]
    decreases k
  {
    if k > i {
      ExitsKept(xs, events, i, k - 1, c);
      assert EndStep(xs[k - 1], xs[k - 1 + 1], events[k - 1]);
    }
  }

  lemma {:induction false} ExitedAt(xs: seq<Ending>, events: seq<Event>, k: nat, c: Pid) returns (i: nat)
    requires EndRun(xs, events) && k <= |events| && c !in xs[0].exits && c in xs[k].exits
    ensures i < k && xs[i].cur == c != INIT && events[i] == DoExit(xs[k].exits[c])
    decreases k
  {
    assert EndStep(xs[k - 1], xs[k - 1 + 1], events[k - 1]);
    if c in xs[k - 1].exits {
      i := ExitedAt(xs, events, k - 1, c);
    } else {
      i := k - 1;
    }
  }

  lemma ReapedAs(states: seq<State>, events: seq<Event>, k: nat, m: nat)
    requires GoodRun(states, events) && Inv(states[0]) && k <= |events| && m < |states[k].reaps|
    ensures var r := states[k].reaps[m]; r.child in states[k].exits && r.status == states[k].exits[r.child]
  {
    GoodUpTo(states, events, k);
    ReapedOnce(states[k], m, m);
  }

  /** What a process passes to Exit is what its parent is told, however much later it is reaped. */
  lemma ExitStatus(states: seq<State>, events: seq<Event>, i: nat, k: nat, m: nat)
    requires GoodRun(states, events) && Inv(states[0]) && i < k <= |events| && m < |states[k].reaps|
    requires events[i].DoExit? && states[i].cur != INIT && states[k].reaps[m].child == states[i].cur
    ensures states[k].reaps[m].status == events[i].status
  {
    var xs := Endings(states);
    RunEnds(states, events, xs);
    ReapedAs(states, events, k, m);
    assert EndStep(xs[i], xs[i + 1], events[i]);
    ExitsKept(xs, events, i + 1, k, xs[i].cur);
  }

  /** Every child that is reaped made such a call before, or had when the run began. */
  lemma ReapedExited(states: seq<State>, events: seq<Event>, k: nat, m: nat) returns (i: nat)
    requires GoodRun(states, events) && Inv(states[0]) && k <= |events| && m < |states[k].reaps|
    ensures var r := states[k].reaps[m];
            if r.child in states[0].exits then r.status == states[0].exits[r.child]
            else i < k && events[i] == DoExit(r.status) && states[i].cur == r.child != INIT
  {
    var xs, c := Endings(states), states[k].reaps[m].child;
    RunEnds(states, events, xs);
    ReapedAs(states, events, k, m);
    i := 0;
    if c in xs[0].exits {
      ExitsKept(xs, events, 0, k, c);
    } else {
      i := ExitedAt(xs, events, k, c);
    }
  }
}
