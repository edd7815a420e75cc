/** Order of dispatch, and exact delays. */
module Scheduling {
  import opened Common
  import opened KernelState
  import opened Placement
  import opened Family
  import opened Writers
  import opened Readers
  import opened Invariant
  import opened Steps
  import opened TtySteps

  // ---------------------------------------------------------------- first in, first out

  /** Everything ever dispatched from the ready queue, then the queue itself. */
  function Line(s: State): seq<Pid> { s.dispatched + s.ready }

  /** The line only grows at its end, and a dequeued process is the one that runs. */
  ghost predicate Forward(s: State, s': State) {
    && Line(s) <= Line(s')
    && (s'.dispatched == s.dispatched || s'.dispatched == s.dispatched + [s'.cur])
  }

  lemma SwitchForward(s: State)
    ensures Forward(s, Switch(s)) && (s.ready != [] ==> |Switch(s).dispatched| == |s.dispatched| + 1)
  {
    if s.ready != [] { assert s.ready == [s.ready[0]] + s.ready[1..]; }
  }

  lemma PreemptForward(s: State)
    ensures Forward(s, Preempt(s)) && (s.ready != [] ==> |Preempt(s).dispatched| == |s.dispatched| + 1)
  {
    if s.ready != [] { assert s.ready == [s.ready[0]] + s.ready[1..]; }
  }

  /** Steps that only append to the ready queue. */
  predicate Appends(s: State, s': State) { s.ready <= s'.ready && s'.dispatched == s.dispatched && s'.cur == s.cur }

  lemma AppendsThenSwitch(s: State, s1: State)
    requires Appends(s, s1)
    ensures Forward(s, Switch(s1))
  {
    SwitchForward(s1);
    assert Line(s) <= Line(s1);
  }

  lemma {:induction false} VisitAllAppends(s: State, ps: seq<Pid>)
    ensures Appends(s, VisitAll(s, ps))
    decreases |ps|
  {
    if ps != [] { VisitAllAppends(Visit(s, ps[0]), ps[1..]); }
  }

  lemma {:induction false} ServeAppends(s: State, t: nat, allocs: seq<bool>)
    requires t < |s.terms|
    ensures Appends(s, Serve(s, t, allocs))
    decreases |s.terms[t].readers|
  {
    if s.terms[t].readers != [] && s.terms[t].readBuf != [] {
      ServeAppends(ServeOne(s, t, NextAlloc(allocs)), t, LaterAllocs(allocs));
    }
  }

  lemma BeginForward(s: State, t: nat, msg: seq<Byte>, allocOk: bool)
    ensures Forward(s, Begin(s, t, msg, allocOk))
  {
    if allocOk {
      AppendsThenSwitch(s, Block(s.PutTerm(t, Started(s.Term(t), msg, s.cur)), FromIo(t, |msg|)));
    }
  }

  lemma ContinueForward(s: State, allocOk: bool)
    ensures Forward(s, ContinueStep(s, allocOk))
  {
    if s.At(s.cur).resume.FromLock? {
      BeginForward(s, s.At(s.cur).resume.tty, s.At(s.cur).resume.msg, allocOk);
    }
  }

  lemma WriteForward(s: State, t: int, msg: seq<Byte>, bufOk: bool, allocOk: bool)
    ensures Forward(s, TtyWrite(s, t, msg, bufOk, allocOk))
  {
    if 0 <= t < NUM_TERMINALS && bufOk && |msg| > 0 {
      var x := s.Term(t);
      var x1 := x.(calls := x.calls + [Message(s.cur, msg)]);
      if x.inUse {
        AppendsThenSwitch(s, Block(s.PutTerm(t, x1.(writers := x.writers + [s.cur])), FromLock(t, msg)));
      } else {
        BeginForward(s.PutTerm(t, x1), t, msg, allocOk);
      }
    }
  }

  lemma ReadForward(s: State, t: int, len: int, bufOk: bool, allocOk: bool)
    ensures Forward(s, TtyRead(s, t, len, bufOk, allocOk))
  {
    if t >= 0 {
      var x := s.Term(t);
      AppendsThenSwitch(s, Block(s.PutTerm(t, x.(readers := x.readers + [s.cur]))
                                 .Put(s.cur, s.At(s.cur).(readLen := len)), FromRead(t)));
    }
  }

  lemma TickForward(s: State, n: nat)
    ensures Forward(s, Tick(s, n)) && (s.ready != [] ==> |Tick(s, n).dispatched| == |s.dispatched| + 1)
  {
    PreemptForward(s.(ticks := n));
  }

  lemma ClockForward(s: State)
    ensures Forward(s, Clock(s)) && (s.ready != [] ==> |Clock(s).dispatched| == |s.dispatched| + 1)
  {
    VisitAllAppends(s, s.blocked);
    TickForward(Sweep(s), s.ticks + 1);
  }

  lemma ReceiveForward(s: State, t: nat, data: seq<Byte>, allocs: seq<bool>)
    requires t < |s.terms|
    ensures Forward(s, ReceiveTrap(s, t, data, allocs))
  {
    ServeAppends(s.PutTerm(t, Extended(s.terms[t], data)), t, allocs);
  }

  lemma WakeWritersAppends(s: State, x: Terminal)
    ensures Appends(s, WakeWriters(s, x))
  {
  }

  lemma TransmitForward(s: State, t: nat)
    ensures Forward(s, TransmitTrap(s, t))
  {
    WakeWritersAppends(s, s.Term(t));
    assert Appends(s, TransmitTrap(s, t));
  }

  lemma LifeForward(s: State, e: Event)
    requires Enabled(s, e) && (e.DoFork? || e.DoExit? || e.DoWait? || e.DoDelay?)
    ensures Forward(s, Next(s, e))
  {
    match e
    case DoFork(child, ok) =>
    case DoExit(status) =>
      if s.cur != INIT { AppendsThenSwitch(s, WakeParent(Bury(s, status), s.At(s.cur).parent)); }
    case DoWait => AppendsThenSwitch(s, Waiting(s));
    case DoDelay(n) => AppendsThenSwitch(s, Delaying(s, n));
  }

  /** Every step of the kernel keeps the line: nobody overtakes, nobody is dropped. */
  lemma StepForward(s: State, e: Event)
    requires Enabled(s, e)
    ensures Forward(s, Next(s, e))
    ensures e.OnClock? && s.ready != [] ==> |Next(s, e).dispatched| == |s.dispatched| + 1
  {
    match e
    case DoRead(t, len, bufOk, allocOk) => ReadForward(s, t, len, bufOk, allocOk);
    case DoWrite(t, msg, bufOk, allocOk) => WriteForward(s, t, msg, bufOk, allocOk);
    case OnClock => ClockForward(s);
    case OnTransmit(t) => TransmitForward(s, t);
    case OnReceive(t, data, allocs) => ReceiveForward(s, t, data, allocs);
    case Continue(allocOk) => ContinueForward(s, allocOk);
    case _ => LifeForward(s, e);
  }

  function Clocks(events: seq<Event>): nat {
    if events == [] then 0
    else Clocks(events[..|events| - 1]) + if events[|events| - 1].OnClock? then 1 else 0
  }

  /** What dispatching is about. */
  datatype Turn = Turn(dispatched: seq<Pid>, ready: seq<Pid>, cur: Pid)

  function TurnOf(s: State): Turn { Turn(s.dispatched, s.ready, s.cur) }

  function Turns(states: seq<State>): (vs: seq<Turn>)
    ensures |vs| == |states| && forall i :: 0 <= i < |states| ==> vs[i] == TurnOf(states[i])
  {
    seq(|states|, i requires 0 <= i < |states| => TurnOf(states[i]))
  }

  /** One step: the line grows at its end, at most one process is dequeued and it runs, and a clock trap dequeues. */
  predicate Moves(v: Turn, v': Turn, clock: bool) {
    && v.dispatched + v.ready <= v'.dispatched + v'.ready
    && (v'.dispatched == v.dispatched || v'.dispatched == v.dispatched + [v'.cur])
    && (clock && v.ready != [] ==> |v'.dispatched| == |v.dispatched| + 1)
  }

  ghost predicate AllMove(vs: seq<Turn>, events: seq<Event>) {
    |vs| == |events| + 1 && forall i :: 0 <= i < |events| ==> Moves(vs[i], vs[i + 1], events[i].OnClock?)
  }

  lemma StepMoves(states: seq<State>, events: seq<Event>, i: nat)
    requires IsRun(states, events) && i < |events|
    ensures Moves(TurnOf(states[i]), TurnOf(states[i + 1]), events[i].OnClock?)
  {
    StepForward(states[i], events[i]);
  }

  lemma RunMoves(states: seq<State>, events: seq<Event>, vs: seq<Turn>)
    requires IsRun(states, events) && vs == Turns(states)
    ensures AllMove(vs, events)
  {
    forall i | 0 <= i < |events| ensures Moves(vs[i], vs[i + 1], events[i].OnClock?) { StepMoves(states, events, i); }
  }

  lemma ClocksMore(events: seq<Event>, j: nat, k: nat)
    requires j <= k < |events|
    ensures Clocks(events[j..k + 1]) == Clocks(events[j..k]) + if events[k].OnClock? then 1 else 0
  {
    assert events[j..k + 1][..k - j] == events[j..k] && events[j..k + 1][k - j] == events[k];
  }

  /** Up to the n-th state the line only grew, and clock traps did not pass without dequeues while the first k + 1
      of the ready queue were not all dispatched. */
  lemma {:induction false} MovesOn(vs: seq<Turn>, events: seq<Event>, k: nat, n: nat)
    requires AllMove(vs, events) && k < |vs[0].ready| && n <= |events|
    ensures vs[0].dispatched + vs[0].ready <= vs[n].dispatched + vs[n].ready
    ensures |vs[n].dispatched| - |vs[0].dispatched| >= Min(k + 1, Clocks(events[0..n]))
  {
    if n > 0 {
      MovesOn(vs, events, k, n - 1);
      ClocksMore(events, 0, n - 1);
      assert Moves(vs[n - 1], vs[n - 1 + 1], events[n - 1].OnClock?);
    }
  }

  /** Over a whole run the line only grows, and clock traps cannot pass without dequeues
      while the first k + 1 of the ready queue are not all dispatched. */
  lemma RunForward(states: seq<State>, events: seq<Event>, k: nat)
    requires IsRun(states, events) && k < |states[0].ready|
    ensures Line(states[0]) <= Line(states[|events|])
    ensures |states[|events|].dispatched| - |states[0].dispatched| >= Min(k + 1, Clocks(events))
  {
    RunMoves(states, events, Turns(states));
    MovesOn(Turns(states), events, k, |events|);
    assert events[0..|events|] == events;
  }

  /** The step at which the process at index k was dispatched. */
  lemma {:induction false} DispatchedAt(vs: seq<Turn>, events: seq<Event>, k: nat, n: nat) returns (i: nat)
    requires AllMove(vs, events) && k < |vs[0].ready| && n <= |events|
    requires |vs[n].dispatched| > |vs[0].dispatched| + k
    ensures 0 < i <= n && vs[i].cur == vs[0].ready[k]
    ensures |vs[i].dispatched| == |vs[0].dispatched| + k + 1 && |vs[i - 1].dispatched| == |vs[0].dispatched| + k
  {
    assert Moves(vs[n - 1], vs[n - 1 + 1], events[n - 1].OnClock?);
    if |vs[n - 1].dispatched| > |vs[0].dispatched| + k {
      i := DispatchedAt(vs, events, k, n - 1);
    } else {
      i := n;
      MovesOn(vs, events, k, n);
      LineAt(vs[0], vs[n], k);
    }
  }

  /** Whoever stood at index k of the ready queue is the k-th dispatched since. */
  lemma LineAt(v: Turn, v': Turn, k: nat)
    requires v.dispatched + v.ready <= v'.dispatched + v'.ready
    requires k < |v.ready| && |v'.dispatched| > |v.dispatched| + k
    ensures v'.dispatched[|v.dispatched| + k] == v.ready[k]
  {
    assert (v.dispatched + v.ready)[|v.dispatched| + k] == v.ready[k];
    assert (v'.dispatched + v'.ready)[|v.dispatched| + k] == v'.dispatched[|v.dispatched| + k];
  }

  /** Bounded waiting: the process at index k of the ready queue runs at exactly the
      (k + 1)-th later dequeue, and k + 1 clock traps are enough, whatever else happens. */
  lemma BoundedWaiting(states: seq<State>, events: seq<Event>, k: nat) returns (i: nat)
    requires IsRun(states, events) && k < |states[0].ready|
    requires Clocks(events) >= k + 1 || |states[|events|].dispatched| > |states[0].dispatched| + k
    ensures 0 < i <= |events| && states[i].cur == states[0].ready[k]
    ensures |states[i].dispatched| == |states[0].dispatched| + k + 1
    ensures |states[i - 1].dispatched| == |states[0].dispatched| + k
  {
    RunForward(states, events, k);
    RunMoves(states, events, Turns(states));
    i := DispatchedAt(Turns(states), events, k, |events|);
  }

  // ---------------------------------------------------------------- delays

  lemma ServeOneDelays(s: State, t: nat, allocOk: bool, p: Pid)
    requires t < |s.terms| && s.terms[t].readers != []
    ensures ServeOne(s, t, allocOk).At(p).delay == s.At(p).delay
  {
  }

  lemma {:induction false} ServeDelays(s: State, t: nat, allocs: seq<bool>, p: Pid)
    requires t < |s.terms|
    ensures Serve(s, t, allocs).At(p).delay == s.At(p).delay
    decreases |s.terms[t].readers|
  {
    if s.terms[t].readers != [] && s.terms[t].readBuf != [] {
      ServeOneDelays(s, t, NextAlloc(allocs), p);
      ServeDelays(ServeOne(s, t, NextAlloc(allocs)), t, LaterAllocs(allocs), p);
    }
  }

  lemma BeginDelays(s: State, t: nat, msg: seq<Byte>, allocOk: bool, p: Pid)
    ensures Begin(s, t, msg, allocOk).At(p).delay == s.At(p).delay
  {
    if allocOk {
      var n := Min(|msg|, TERMINAL_MAX_LINE);
      var s1 := s.PutTerm(t, Transmit(s.Term(t), msg[..n]).(inUse := true, writeBuf := msg, position := n,
                                                           writer := Some(s.cur), handed := None));
      assert s1.procs == s.procs;
      SwitchDelays(Block(s1, FromIo(t, |msg|)), p);
    } else {
      GiveUpDelays(s, t, msg, p);
    }
  }

  lemma SwitchDelays(s: State, p: Pid)
    ensures Switch(s).At(p).delay == s.At(p).delay
  {
  }

  lemma GiveUpDelays(s: State, t: nat, msg: seq<Byte>, p: Pid)
    ensures Begin(s, t, msg, false).At(p).delay == s.At(p).delay
  {
  }

  lemma WakeDelays(s: State, w: Pid, p: Pid)
    ensures Wake(s, w).At(p).delay == s.At(p).delay
  {
  }

  lemma WakeWritersDelays(s: State, x: Terminal, p: Pid)
    ensures WakeWriters(s, x).At(p).delay == s.At(p).delay
  {
    if x.writer.Some? {
      var s0 := Credited(s, x);
      WakeDelays(s0, x.writer.value, p);
      if x.writers != [] { WakeDelays(Wake(s0, x.writer.value), x.writers[0], p); }
    } else if x.writers != [] {
      WakeDelays(s, x.writers[0], p);
    }
  }

  lemma ReapDelays(s: State, z: Pid, p: Pid)
    requires p != z
    ensures Reap(s, z).At(p).delay == s.At(p).delay
  {
  }

  lemma LifeDelays(s: State, e: Event, p: Pid)
    requires Enabled(s, e) && (e.DoFork? || e.DoExit? || e.DoWait? || e.DoDelay?)
    requires p in s.procs && p in s.births && p != s.cur && p !in s.zombie
    ensures Next(s, e).At(p).delay == s.At(p).delay
  {
    match e
    case DoWait =>
      if FirstChild(s, s.zombie, s.cur).Some? { ReapDelays(s, FirstChild(s, s.zombie, s.cur).value, p); }
    case _ =>
  }

  lemma ContinueDelays(s: State, allocOk: bool, p: Pid)
    requires p !in s.zombie
    ensures ContinueStep(s, allocOk).At(p).delay == s.At(p).delay
  {
    match s.At(s.cur).resume
    case FromLock(t, msg) => BeginDelays(s, t, msg, allocOk, p);
    case FromWait =>
      if FirstChild(s, s.zombie, s.cur).Some? { ReapDelays(s, FirstChild(s, s.zombie, s.cur).value, p); }
    case _ =>
  }

  lemma ReadDelays(s: State, t: int, len: int, bufOk: bool, allocOk: bool, p: Pid)
    ensures TtyRead(s, t, len, bufOk, allocOk).At(p).delay == s.At(p).delay
  {
    if 0 <= t < NUM_TERMINALS && bufOk && len > 0 && s.Term(t).readBuf == [] {
      var x, c := s.Term(t), s.At(s.cur);
      var s1 := s.PutTerm(t, x.(readers := x.readers + [s.cur])).Put(s.cur, c.(readLen := len));
      assert s1.At(p).delay == s.At(p).delay;
      SwitchDelays(Block(s1, FromRead(t)), p);
    }
  }

  lemma WriteDelays(s: State, t: int, msg: seq<Byte>, bufOk: bool, allocOk: bool, p: Pid)
    ensures TtyWrite(s, t, msg, bufOk, allocOk).At(p).delay == s.At(p).delay
  {
    if 0 <= t < NUM_TERMINALS && bufOk && |msg| > 0 && !s.Term(t).inUse {
      var x := s.Term(t);
      BeginDelays(s.PutTerm(t, x.(calls := x.calls + [Message(s.cur, msg)])), t, msg, allocOk, p);
    }
  }

  lemma TransmitDelays(s: State, t: nat, p: Pid)
    ensures TransmitTrap(s, t).At(p).delay == s.At(p).delay
  {
    WakeWritersDelays(s, s.Term(t), p);
  }

  /** Between clock traps nobody's ticks change. */
  lemma DelayKept(s: State, e: Event, p: Pid)
    requires PlacementInv(s) && FamilyInv(s) && Enabled(s, e) && !e.OnClock? && p in s.blocked
    ensures Next(s, e).At(p).delay == s.At(p).delay
  {
    assert Places(s, p, true) == 1 && p in s.procs && p != s.cur && p !in s.zombie;
    assert Kin(s, p);
    match e
    case DoRead(t, len, bufOk, allocOk) => ReadDelays(s, t, len, bufOk, allocOk, p);
    case DoWrite(t, msg, bufOk, allocOk) => WriteDelays(s, t, msg, bufOk, allocOk, p);
    case OnTransmit(t) => TransmitDelays(s, t, p);
    case OnReceive(t, data, allocs) =>
      var x := s.terms[t];
      ServeDelays(s.PutTerm(t, x.(readBuf := x.readBuf + data, received := x.received + data)), t, allocs, p);
    case Continue(allocOk) => ContinueDelays(s, allocOk, p);
    case _ => LifeDelays(s, e, p);
  }

  lemma {:induction false} VisitOthers(s: State, ps: seq<Pid>, p: Pid)
    requires p !in ps
    ensures VisitAll(s, ps).At(p) == s.At(p)
    ensures p in s.ready ==> p in VisitAll(s, ps).ready
    decreases |ps|
  {
    if ps != [] {
      assert p != ps[0];
      VisitOthers(Visit(s, ps[0]), ps[1..], p);
    }
  }

  /** What one visit does to the ticks of p. */
  lemma VisitDelay(s: State, q: Pid, p: Pid)
    requires Inv(s) && p in s.blocked && s.At(p).delay != 0
    ensures var s', d := Visit(s, q), s.At(p).delay;
            && s'.At(p).delay == (if q == p && d > 0 then d - 1 else d)
            && (q != p ==> p in s'.blocked) && (q == p && d == 1 ==> p in s'.ready)
  {
    if s.At(q).delay > 0 {
      assert DelayInv(s, q);
      VisitVisited(s, q);
    }
  }

  /** The sweep visits each original member once although it removes some on the way. */
  lemma {:induction false} SweepDelay(s: State, ps: seq<Pid>, p: Pid)
    requires Inv(s) && multiset(ps)[p] == 1 && p in s.blocked && s.At(p).delay != 0
    ensures VisitAll(s, ps).At(p).delay == if s.At(p).delay > 0 then s.At(p).delay - 1 else s.At(p).delay
    ensures s.At(p).delay == 1 ==> p in VisitAll(s, ps).ready
    decreases |ps|
  {
    assert ps == [ps[0]] + ps[1..];
    VisitDelay(s, ps[0], p);
    if ps[0] == p {
      assert p !in multiset(ps[1..]);
      VisitOthers(Visit(s, p), ps[1..], p);
    } else {
      VisitInv(s, ps[0]);
      SweepDelay(Visit(s, ps[0]), ps[1..], p);
    }
  }

  lemma PreemptKeeps(s: State, p: Pid)
    ensures Preempt(s).At(p).delay == s.At(p).delay
    ensures p in s.ready ==> p in Preempt(s).ready || Preempt(s).cur == p
  {
    if s.ready != [] { assert s.ready == [s.ready[0]] + s.ready[1..]; }
  }

  lemma TickedKeeps(s: State, n: nat, p: Pid, s': State)
    requires s' == Tick(s, n)
    ensures s'.At(p).delay == s.At(p).delay && (p in s.ready ==> p in s'.ready || s'.cur == p)
  {
    PreemptKeeps(s.(ticks := n), p);
  }

  lemma ClockDelay(s: State, p: Pid, s1: State, s': State)
    requires Inv(s) && p in s.blocked && s.At(p).delay != 0
    requires s1 == Sweep(s) && s' == Tick(s1, s.ticks + 1)
    ensures s'.At(p).delay == if s.At(p).delay > 0 then s.At(p).delay - 1 else s.At(p).delay
    ensures s.At(p).delay == 1 ==> p in s'.ready || s'.cur == p
  {
    SweptDelay(s, p);
    TickedKeeps(s1, s.ticks + 1, p, s');
  }

  lemma SweptDelay(s: State, p: Pid)
    requires Inv(s) && p in s.blocked && s.At(p).delay != 0
    ensures var s', d := Sweep(s), s.At(p).delay;
            s'.At(p).delay == (if d > 0 then d - 1 else d) && (d == 1 ==> p in s'.ready)
  {
    assert Places(s, p, true) <= 1;
    SweepDelay(s, s.blocked, p);
  }

  /** One step of a delayed process: only clock traps count, the last one makes it ready. */
  lemma DelayStep(s: State, e: Event, p: Pid)
    requires Inv(s) && Enabled(s, e) && Good(s, e) && s.At(p).delay != 0
    ensures var s', d := Next(s, e), s.At(p).delay;
            if e.OnClock? && d > 0
            then s'.At(p).delay == d - 1 && (if d == 1 then p in s'.ready || s'.cur == p else p in s'.blocked)
            else s'.At(p).delay == d && p in s'.blocked
  {
    assert DelayInv(s, p);
    DelayInvAfter(s, e, p);
    if e.OnClock? { ClockDelays(s, p); } else { DelayKept(s, e, p); }
  }

  lemma DelayInvAfter(s: State, e: Event, p: Pid)
    requires Inv(s) && Enabled(s, e) && Good(s, e)
    ensures DelayInv(Next(s, e), p)
  {
    StepIff(s, e);
  }

  lemma ClockDelays(s: State, p: Pid)
    requires Inv(s) && p in s.blocked && s.At(p).delay != 0
    ensures Clock(s).At(p).delay == if s.At(p).delay > 0 then s.At(p).delay - 1 else s.At(p).delay
    ensures s.At(p).delay == 1 ==> p in Clock(s).ready || Clock(s).cur == p
  {
    ClockDelay(s, p, Sweep(s), Clock(s));
  }

  ghost predicate GoodRun(states: seq<State>, events: seq<Event>) {
    && IsRun(states, events)
    && forall i :: 0 <= i < |events| ==> Good(states[i], events[i])
  }

  lemma {:induction false} GoodUpTo(states: seq<State>, events: seq<Event>, k: nat)
    requires GoodRun(states, events) && Inv(states[0]) && k <= |events|
    ensures Inv(states[k])
  {
    if k > 0 {
      GoodUpTo(states, events, k - 1);
      StepIff(states[k - 1], events[k - 1]);
    }
  }

  lemma GoodRunInv(states: seq<State>, events: seq<Event>)
    requires GoodRun(states, events) && Inv(states[0])
    ensures forall i :: 0 <= i < |states| ==> Inv(states[i])
  {
    forall i | 0 <= i < |states| ensures Inv(states[i]) { GoodUpTo(states, events, i); }
  }

  /** How long p still has to wait, whether it is blocked, and whether it is ready or running. */
  datatype Wait = Wait(delay: int, blocked: bool, awake: bool)

  function WaitOf(s: State, p: Pid): Wait {
    Wait(s.At(p).delay, p in s.blocked, p in s.ready || s.cur == p)
  }

  /** What a step does to a waiting process. */
  predicate Ticks(w: Wait, w': Wait, clock: bool) {
    w.delay != 0 ==>
      if clock && w.delay > 0 then
        w'.delay == w.delay - 1 && (if w.delay == 1 then w'.awake && !w'.blocked else w'.blocked)
      else w'.delay == w.delay && w'.blocked
  }

  lemma StepTicks(s: State, e: Event, p: Pid)
    requires Inv(s) && Enabled(s, e) && Good(s, e)
    ensures Ticks(WaitOf(s, p), WaitOf(Next(s, e), p), e.OnClock?)
  {
    if s.At(p).delay != 0 {
      DelayStep(s, e, p);
      StepIff(s, e);
      assert Places(Next(s, e), p, true) <= 1;
    }
  }

  /** d ticks were asked for and c clock traps have come. */
  ghost predicate DelayedSince(w: Wait, d: int, c: nat, atClock: bool) {
    && (d < 0 || c < d ==> w.blocked && w.delay == if d < 0 then d else d - c)
    && (d > 0 && c == d && atClock ==> !w.blocked && w.awake)
  }

  lemma {:induction false} TicksFrom(ws: seq<Wait>, events: seq<Event>, j: nat, k: nat)
    requires |ws| == |events| + 1 && j <= k <= |events| && ws[j].delay != 0 && ws[j].blocked
    requires forall i :: 0 <= i < |events| ==> Ticks(ws[i], ws[i + 1], events[i].OnClock?)
    ensures DelayedSince(ws[k], ws[j].delay, Clocks(events[j..k]), k > j && events[k - 1].OnClock?)
  {
    if k > j {
      TicksFrom(ws, events, j, k - 1);
      ClocksMore(events, j, k - 1);
      assert Ticks(ws[k - 1], ws[k - 1 + 1], events[k - 1].OnClock?);
    }
  }

  lemma TicksAt(states: seq<State>, events: seq<Event>, p: Pid, i: nat)
    requires GoodRun(states, events) && Inv(states[0]) && i < |events|
    ensures Ticks(WaitOf(states[i], p), WaitOf(states[i + 1], p), events[i].OnClock?)
  {
    GoodUpTo(states, events, i);
    StepTicks(states[i], events[i], p);
  }

  lemma DelayBlocks(states: seq<State>, events: seq<Event>, p: Pid, i: nat)
    requires GoodRun(states, events) && Inv(states[0]) && i <= |events| && states[i].At(p).delay != 0
    ensures p in states[i].blocked
  {
    GoodUpTo(states, events, i);
    assert DelayInv(states[i], p);
  }

  /** How p waits in each state of a run. */
  function Waits(states: seq<State>, p: Pid): (ws: seq<Wait>)
    ensures |ws| == |states| && forall i :: 0 <= i < |states| ==> ws[i] == WaitOf(states[i], p)
  {
    seq(|states|, i requires 0 <= i < |states| => WaitOf(states[i], p))
  }

  lemma RunTicks(states: seq<State>, events: seq<Event>, p: Pid, ws: seq<Wait>)
    requires GoodRun(states, events) && Inv(states[0]) && ws == Waits(states, p)
    ensures forall i :: 0 <= i < |events| ==> Ticks(ws[i], ws[i + 1], events[i].OnClock?)
  {
    forall i | 0 <= i < |events| ensures Ticks(ws[i], ws[i + 1], events[i].OnClock?) { TicksAt(states, events, p, i); }
  }

  /** From the j-th state of a run to the last. */
  lemma DelayFrom(states: seq<State>, events: seq<Event>, p: Pid, j: nat, ws: seq<Wait>)
    requires GoodRun(states, events) && Inv(states[0]) && ws == Waits(states, p)
    requires j <= |events| && ws[j].delay != 0
    ensures DelayedSince(ws[|events|], ws[j].delay, Clocks(events[j..]), |events| > j && events[|events| - 1].OnClock?)
  {
    DelayBlocks(states, events, p, j);
    RunTicks(states, events, p, ws);
    TicksFrom(ws, events, j, |events|);
    assert events[j..|events|] == events[j..];
  }

  /** A process with d ticks left is blocked until the d-th clock trap from now on, which makes it ready;
      with -1 it stays blocked. */
  lemma DelayExact(states: seq<State>, events: seq<Event>, p: Pid)
    requires GoodRun(states, events) && Inv(states[0]) && states[0].At(p).delay != 0
    ensures DelayedSince(WaitOf(states[|events|], p), states[0].At(p).delay, Clocks(events),
                         |events| > 0 && events[|events| - 1].OnClock?)
  {
    DelayFrom(states, events, p, 0, Waits(states, p));
    assert events[0..] == events;
  }

  /** Delay(n) lasts exactly n clock traps: before the n-th after the call the caller is blocked, and the n-th makes
      it ready.  Delay(-1) never ends. */
  lemma DelayCall(states: seq<State>, events: seq<Event>, p: Pid, n: int)
    requires GoodRun(states, events) && Inv(states[0]) && states[0].cur == p && -1 <= n && n != 0
    requires |events| > 0 && events[0] == DoDelay(n)
    ensures DelayedSince(WaitOf(states[|events|], p), n, Clocks(events[1..]),
                         |events| > 1 && events[|events| - 1].OnClock?)
  {
    DelayStarts(states[0], n, states[1]);
    DelayFrom(states, events, p, 1, Waits(states, p));
  }

  lemma DelayStarts(s: State, n: int, s': State)
    requires -1 <= n && n != 0 && s' == Delay(s, n)
    ensures s'.At(s.cur).delay == n
  {
  }
}
