/** Who is served at a terminal, and in which order, over whole runs. */
module Reads {
  import opened Common
  import opened KernelState
  import opened Readers
  import opened Invariant
  import opened Scheduling
  import opened Runs

  /** The blocked readers terminal t has served in the first n deliveries. */
  function WokenUpTo(log: seq<Delivery>, t: nat, n: nat): seq<Pid>
    requires n <= |log|
  {
    if n == 0 then []
    else WokenUpTo(log, t, n - 1) + if log[n - 1].tty == t && log[n - 1].waited then [log[n - 1].reader] else []
  }

  function Woken(log: seq<Delivery>, t: nat): seq<Pid> { WokenUpTo(log, t, |log|) }

  lemma {:induction false} WokenSame(log: seq<Delivery>, d: Delivery, t: nat, n: nat)
    requires n <= |log|
    ensures WokenUpTo(log + [d], t, n) == WokenUpTo(log, t, n)
  {
    if n > 0 { WokenSame(log, d, t, n - 1); }
  }

  lemma WokenMore(log: seq<Delivery>, d: Delivery, t: nat)
    ensures Woken(log + [d], t) == Woken(log, t) + if d.tty == t && d.waited then [d.reader] else []
  {
    WokenSame(log, d, t, |log|);
  }

  /** Everyone terminal t made wait and has served, then those still waiting. */
  function Arrivals(s: State, t: nat): seq<Pid> { Woken(s.log, t) + s.Term(t).readers }

  /** The processes event e makes wait for terminal t. */
  function Joins(s: State, e: Event, t: nat): seq<Pid> {
    if e.DoRead? && e.rt == t && e.rbufOk && e.len > 0 && s.Term(t).readBuf == [] then [s.cur] else []
  }

  /** Neither the deliveries nor any reader queue changed. */
  ghost predicate Still(s: State, s': State) {
    s'.log == s.log && |s'.terms| == |s.terms| && forall t :: 0 <= t < |s.terms| ==>
      s'.terms[t].readers == s.terms[t].readers
  }

  lemma SwitchStill(s: State)
    ensures Still(s, Switch(s))
  {
  }

  lemma {:induction false} VisitAllStill(s: State, ps: seq<Pid>)
    ensures Still(s, VisitAll(s, ps))
    decreases |ps|
  {
    if ps != [] { VisitAllStill(Visit(s, ps[0]), ps[1..]); }
  }

  lemma BeginStill(s: State, t: nat, msg: seq<Byte>, allocOk: bool)
    ensures Still(s, Begin(s, t, msg, allocOk))
  {
    if allocOk {
      SwitchStill(Block(s.PutTerm(t, Started(s.Term(t), msg, s.cur)), FromIo(t, |msg|)));
    } else {
      GiveUpStill(s, t, msg);
    }
  }

  lemma GiveUpStill(s: State, t: nat, msg: seq<Byte>)
    ensures Still(s, Begin(s, t, msg, false))
  {
  }

  lemma WriteStill(s: State, t: int, msg: seq<Byte>, bufOk: bool, allocOk: bool)
    ensures Still(s, TtyWrite(s, t, msg, bufOk, allocOk))
  {
    if 0 <= t < NUM_TERMINALS && bufOk && |msg| > 0 && !s.Term(t).inUse {
      var x := s.Term(t);
      BeginStill(s.PutTerm(t, x.(calls := x.calls + [Message(s.cur, msg)])), t, msg, allocOk);
    }
  }

  lemma TransmitStill(s: State, t: nat)
    ensures Still(s, TransmitTrap(s, t))
  {
    var x := s.Term(t);
    if x.position < |x.writeBuf| {
      PutTermStill(s, s, t, Advanced(x));
    } else {
      WakeWritersStill(s, x);
      PutTermStill(s, WakeWriters(s, x), t, HandOver(x));
    }
  }

  lemma PutTermStill(s: State, s1: State, t: nat, y: Terminal)
    requires s1.log == s.log && s1.terms == s.terms && y.readers == s.Term(t).readers
    ensures Still(s, s1.PutTerm(t, y))
  {
  }

  lemma WakeWritersStill(s: State, x: Terminal)
    ensures WakeWriters(s, x).log == s.log && WakeWriters(s, x).terms == s.terms
  {
  }

  lemma ContinueStill(s: State, allocOk: bool)
    ensures Still(s, ContinueStep(s, allocOk))
  {
    match s.At(s.cur).resume
    case FromLock(t, msg) => BeginStill(s, t, msg, allocOk);
    case _ =>
  }

  lemma LifeStill(s: State, e: Event)
    requires Enabled(s, e) && (e.DoFork? || e.DoExit? || e.DoWait? || e.DoDelay?)
    ensures Still(s, Next(s, e))
  {
  }

  /** The head of terminal t's reader queue was served. */
  ghost predicate HeadServed(s: State, s': State, t: nat, d: Delivery)
    requires t < |s.terms|
  {
    && s.terms[t].readers != [] && d.tty == t && d.reader == s.terms[t].readers[0] && d.waited
    && s'.log == s.log + [d] && |s'.terms| == |s.terms| && s'.terms[t].readers == s.terms[t].readers[1..]
    && forall u :: 0 <= u < |s.terms| && u != t ==> s'.terms[u].readers == s.terms[u].readers
  }

  lemma ServeOneHead(s: State, t: nat, allocOk: bool)
    requires t < |s.terms| && s.terms[t].readers != []
    ensures HeadServed(s, ServeOne(s, t, allocOk), t,
                       Delivery(t, s.terms[t].readers[0], Bytes(Handout(s, t, allocOk)), true))
  {
    ServeOneForm(s, t, allocOk);
  }

  lemma HeadServedLine(s: State, s': State, t: nat, d: Delivery, u: nat)
    requires t < |s.terms| && HeadServed(s, s', t, d)
    ensures Arrivals(s', u) == Arrivals(s, u)
  {
    WokenMore(s.log, d, u);
    assert s.terms[t].readers == [d.reader] + s.terms[t].readers[1..];
  }

  lemma ServeOneLine(s: State, t: nat, allocOk: bool, u: nat)
    requires t < |s.terms| && s.terms[t].readers != []
    ensures Arrivals(ServeOne(s, t, allocOk), u) == Arrivals(s, u)
  {
    ServeOneHead(s, t, allocOk);
    var d := Delivery(t, s.terms[t].readers[0], Bytes(Handout(s, t, allocOk)), true);
    HeadServedLine(s, ServeOne(s, t, allocOk), t, d, u);
  }

  /** Serving moves readers from the head of the queue to the end of those served. */
  lemma {:induction false} ServeLine(s: State, t: nat, allocs: seq<bool>, u: nat)
    requires t < |s.terms|
    ensures Arrivals(Serve(s, t, allocs), u) == Arrivals(s, u)
    decreases |s.terms[t].readers|
  {
    if s.terms[t].readers != [] && s.terms[t].readBuf != [] {
      ServeOneLine(s, t, NextAlloc(allocs), u);
      ServeLine(ServeOne(s, t, NextAlloc(allocs)), t, LaterAllocs(allocs), u);
    }
  }

  /** A step that leaves deliveries and queues alone leaves the line alone. */
  lemma StillLine(s: State, s': State, t: nat)
    requires Still(s, s')
    ensures Arrivals(s', t) == Arrivals(s, t)
  {
  }

  lemma ClockStill(s: State)
    ensures Still(s, Clock(s))
  {
    VisitAllStill(s, s.blocked);
    TickStill(Sweep(s), s.ticks + 1);
  }

  lemma TickStill(s: State, n: nat)
    ensures Still(s, Tick(s, n))
  {
  }

  lemma ReceiveLine(s: State, u: nat, data: seq<Byte>, allocs: seq<bool>, t: nat)
    requires u < |s.terms|
    ensures Arrivals(ReceiveTrap(s, u, data, allocs), t) == Arrivals(s, t)
  {
    var x := s.terms[u];
    var s1 := s.PutTerm(u, Extended(x, data));
    StillLine(s, s1, t);
    ServeLine(s1, u, allocs, t);
  }

  lemma ReadWaits(s: State, t: nat, len: int, allocOk: bool, u: nat)
    requires |s.terms| == NUM_TERMINALS && t < NUM_TERMINALS && u < NUM_TERMINALS && len > 0 && s.terms[t].readBuf == []
    ensures Arrivals(TtyRead(s, t, len, true, allocOk), u) == Arrivals(s, u) + if u == t then [s.cur] else []
  {
    var s1 := Queueing(s, t, len);
    SwitchStill(s1);
    assert s1.log == s.log && s1.Term(u).readers == s.Term(u).readers + (if u == t then [s.cur] else []);
    StillLine(s1, Switch(s1), u);
  }

  lemma ReadGets(s: State, t: nat, len: int, u: nat)
    requires |s.terms| == NUM_TERMINALS && t < NUM_TERMINALS && u < NUM_TERMINALS && len > 0 && s.terms[t].readBuf != []
    ensures Arrivals(TtyRead(s, t, len, true, true), u) == Arrivals(s, u)
  {
    var n := Min(len, |s.terms[t].readBuf|);
    WokenMore(s.log, Delivery(t, s.cur, s.terms[t].readBuf[..n], false), u);
  }

  lemma ReadLine(s: State, t: int, len: int, bufOk: bool, allocOk: bool, u: nat)
    requires |s.terms| == NUM_TERMINALS && u < NUM_TERMINALS
    ensures Arrivals(TtyRead(s, t, len, bufOk, allocOk), u)
            == Arrivals(s, u) + Joins(s, DoRead(t, len, bufOk, allocOk), u)
  {
    if 0 <= t < NUM_TERMINALS && bufOk && len > 0 && s.terms[t].readBuf == [] {
      ReadWaits(s, t, len, allocOk, u);
    } else if 0 <= t < NUM_TERMINALS && bufOk && len > 0 && allocOk {
      ReadGets(s, t, len, u);
    } else {
      StillLine(s, Return(s, ERROR), u);
    }
  }

  lemma QuietStill(s: State, e: Event)
    requires Enabled(s, e) && !e.DoRead? && !e.OnReceive?
    ensures Still(s, Next(s, e))
  {
    match e
    case DoWrite(u, msg, bufOk, allocOk) => WriteStill(s, u, msg, bufOk, allocOk);
    case OnClock => ClockStill(s);
    case OnTransmit(u) => TransmitStill(s, u);
    case Continue(allocOk) => ContinueStill(s, allocOk);
    case _ => LifeStill(s, e);
  }

  /** A step adds to the line of terminal t exactly the reader it makes wait, at the end. */
  lemma StepLine(s: State, e: Event, t: nat)
    requires Enabled(s, e) && |s.terms| == NUM_TERMINALS && t < NUM_TERMINALS
    ensures Arrivals(Next(s, e), t) == Arrivals(s, t) + Joins(s, e, t)
  {
    match e
    case DoRead(u, len, bufOk, allocOk) => ReadLine(s, u, len, bufOk, allocOk, t);
    case OnReceive(u, data, allocs) => ReceiveLine(s, u, data, allocs, t);
    case _ =>
      QuietStill(s, e);
      StillLine(s, Next(s, e), t);
  }

  /** Over a run, those a terminal made wait only grow at the end. */
  lemma {:induction false} RunLine(states: seq<State>, events: seq<Event>, t: nat, k: nat)
    requires IsRun(states, events) && t < NUM_TERMINALS && k <= |events|
    requires forall i :: 0 <= i < |states| ==> |states[i].terms| == NUM_TERMINALS
    ensures Arrivals(states[0], t) <= Arrivals(states[k], t)
  {
    if k > 0 {
      RunLine(states, events, t, k - 1);
      StepLine(states[k - 1], events[k - 1], t);
    }
  }

  /** First come, first served: the reader at index k of a terminal's queue is the (k+1)-th blocked reader
      it serves from then on. */
  lemma ServedInOrder(states: seq<State>, events: seq<Event>, t: nat, k: nat)
    requires GoodRun(states, events) && Inv(states[0]) && t < NUM_TERMINALS && k < |states[0].Term(t).readers|
    requires |Woken(states[|events|].log, t)| > |Woken(states[0].log, t)| + k
    ensures Woken(states[|events|].log, t)[|Woken(states[0].log, t)| + k] == states[0].Term(t).readers[k]
  {
    RunTerminals(states, events);
    RunLine(states, events, t, |events|);
    var s, s', w := states[0], states[|events|], |Woken(states[0].log, t)|;
    assert Arrivals(s, t)[w + k] == s.Term(t).readers[k];
    assert Arrivals(s', t)[w + k] == Woken(s'.log, t)[w + k];
  }
}
