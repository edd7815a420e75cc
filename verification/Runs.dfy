/** The main theorems: what holds in every run of the kernel. */
module Runs {
  import opened Common
  import opened KernelState
  import opened Placement
  import opened Family
  import opened Terminals
  import opened Writers
  import opened Readers
  import opened Invariant
  import opened Steps
  import opened TtySteps
  import opened Scheduling

  // ---------------------------------------------------------------- safety of runs

  lemma InitialPlaces(waiting0: int)
    requires -1 <= waiting0 <= 0
    ensures PlacementInv(Initial(waiting0))
  {
    var s := Initial(waiting0);
    forall p: Pid ensures Places(s, p, true) == if p in s.procs && p != IDLE then 1 else 0 {}
  }

  lemma InitialFamily(waiting0: int)
    requires -1 <= waiting0 <= 0
    ensures FamilyInv(Initial(waiting0))
  {
    var s := Initial(waiting0);
    forall p | p in s.procs ensures Kin(s, p) && Children(s, p) {}
  }

  /** The state KernelStart leaves behind is good, with the flag the code uses or with 0. */
  lemma InitialInv(waiting0: int)
    requires -1 <= waiting0 <= 0
    ensures Inv(Initial(waiting0))
  {
    var s := Initial(waiting0);
    InitialPlaces(waiting0);
    InitialFamily(waiting0);
    assert Chunks([])[..0] == [];
    forall t | 0 <= t < |s.terms| ensures WriterInv(s, t) && ReaderInv(s, t) {}
  }

  lemma BadStep(s: State, e: Event)
    requires Enabled(s, e) && !Good(s, e)
    ensures !Inv(s) || !Inv(Next(s, e))
  {
    if Inv(s) { StepIff(s, e); }
  }

  ghost predicate AllInv(states: seq<State>) { forall i :: 0 <= i < |states| ==> Inv(states[i]) }

  ghost predicate AllGood(states: seq<State>, events: seq<Event>)
    requires |states| > |events|
  {
    forall i :: 0 <= i < |events| ==> Good(states[i], events[i])
  }

  lemma BadRun(states: seq<State>, events: seq<Event>)
    requires IsRun(states, events) && !AllGood(states, events)
    ensures !AllInv(states)
  {
    var i :| 0 <= i < |events| && !Good(states[i], events[i]);
    BadStep(states[i], events[i]);
    assert !Inv(states[i]) || !Inv(states[i + 1]);
  }

  /** A run stays good exactly as long as its steps are good. */
  lemma RunIff(states: seq<State>, events: seq<Event>)
    requires IsRun(states, events) && Inv(states[0])
    ensures AllInv(states) <==> AllGood(states, events)
  {
    if AllGood(states, events) {
      GoodRunInv(states, events);
    } else {
      BadRun(states, events);
    }
  }

  /** With the flag starting at 0, no Exit is ever bad. */
  lemma ExitAlwaysGood(s: State, status: int)
    requires Inv(s) && s.waiting0 == 0
    ensures Good(s, DoExit(status))
  {
    if s.At(s.cur).parent.Some? {
      ParentOf(s);
      assert Kin(s, s.At(s.cur).parent.value);
    }
  }

  // ---------------------------------------------------------------- what a good state says

  /** One place: running, ready once, blocked once, blocked in Wait, or zombie once. */
  lemma OnePlace(s: State, p: Pid)
    requires Inv(s) && p in s.procs && p != IDLE
    ensures Places(s, p, true) == 1
    ensures s.cur == p ==> p !in s.ready && p !in s.blocked && p !in s.zombie && s.At(p).waiting != 1
    ensures p in s.ready ==> p != s.cur && p !in s.blocked && p !in s.zombie && s.At(p).waiting != 1
    ensures p in s.blocked ==> p != s.cur && p !in s.zombie && s.At(p).waiting != 1
    ensures p == s.cur || p in s.ready || p in s.blocked || p in s.zombie || s.At(p).waiting == 1
    ensures multiset(s.ready)[p] <= 1 && multiset(s.blocked)[p] <= 1 && multiset(s.zombie)[p] <= 1
    ensures IDLE !in s.ready && IDLE !in s.blocked && IDLE !in s.zombie
  {
    assert Places(s, p, true) == 1 && Places(s, IDLE, true) == 0;
  }

  /** No lost wakeup: none of the children of a process blocked in Wait is a zombie. */
  lemma NoLostWakeup(s: State, p: Pid)
    requires Inv(s) && p in s.procs && s.At(p).waiting == 1
    ensures forall z :: z in s.zombie ==> s.At(z).ppid != p
    ensures s.At(p).resume == FromWait
  {
    assert Kin(s, p);
    assert !HasZombie(s, p);
  }

  /** Wait never returns ERROR after it blocked: it reaps a child of its own. */
  lemma ResumedWaitReaps(s: State, allocOk: bool)
    requires Inv(s) && Enabled(s, Continue(allocOk)) && s.At(s.cur).resume == FromWait
    ensures var s' := Next(s, Continue(allocOk));
            && |s'.reaps| == |s.reaps| + 1 && s'.reaps[..|s.reaps|] == s.reaps
            && var r := s'.reaps[|s.reaps|];
               r.parent == s.cur && s.At(r.child).ppid == s.cur && s'.At(s.cur).ret == r.child && r.child !in s'.procs
  {
    CurrentNotQueued(s);
    ResumedWaitFinds(s);
    var z := FirstChild(s, s.zombie, s.cur).value;
    assert Places(s, z, true) >= 1;
    NoCycle(s, z);
  }

  /** Each child is reaped at most once, with the status it passed to Exit. */
  lemma ReapedOnce(s: State, i: nat, j: nat)
    requires Inv(s) && i < |s.reaps| && j < |s.reaps|
    ensures s.reaps[i].child in s.exits && s.reaps[i].status == s.exits[s.reaps[i].child]
    ensures s.reaps[i].child !in s.procs
    ensures i != j ==> s.reaps[i].child != s.reaps[j].child
  {
  }

  /** What a terminal shows: whole messages in the order of the TtyWrite calls, then
      exactly write_buffer[..position] of the one being sent. */
  lemma WholeMessagesInOrder(s: State, t: nat)
    requires Inv(s) && t < |s.terms|
    ensures var x := s.terms[t];
            && x.done + |x.writers| <= |x.calls| && x.position <= |x.writeBuf|
            && Flatten(x.chunks) == Texts(x.calls[..x.done]) + x.writeBuf[..x.position]
            && (x.writer.Some? ==> x.done < |x.calls| && x.calls[x.done] == Message(x.writer.value, x.writeBuf))
            && (x.writers != [] ==> x.inUse)
            && forall i :: 0 <= i < |x.writers| ==> x.calls[|x.calls| - |x.writers| + i].writer == x.writers[i]
  {
    assert WriterInv(s, t);
    WireIsMessages(s.terms[t]);
    WaitingInOrder(s, t);
  }

  lemma WaitingInOrder(s: State, t: nat)
    requires t < |s.terms| && Queued(s, t)
    ensures var x := s.terms[t];
            && x.done + |x.writers| <= |x.calls| && (x.writers != [] ==> x.inUse)
            && forall i :: 0 <= i < |x.writers| ==> x.calls[|x.calls| - |x.writers| + i].writer == x.writers[i]
  {
    var x := s.terms[t];
    forall i | 0 <= i < |x.writers| ensures x.calls[|x.calls| - |x.writers| + i].writer == x.writers[i] {
      assert |x.calls| - |x.writers| + i == x.done + Held(x) + i;
    }
  }

  /** At most one process may be transmitting on, or entitled to, a terminal. */
  lemma OneHolder(s: State, t: nat, p: Pid, q: Pid)
    requires Inv(s) && t < |s.terms|
    requires s.At(p).resume.FromLock? && s.At(p).resume.tty == t && p !in s.blocked
    requires (s.At(q).resume.FromLock? && s.At(q).resume.tty == t && q !in s.blocked) || s.terms[t].writer == Some(q)
    ensures p == q
  {
    assert LockInv(s, p) && LockInv(s, q) && WriterInv(s, t);
    var x := s.terms[t];
    assert forall i :: 0 <= i < |x.writers| ==> RoleOf(s, x.writers[i]).blocked;
  }

  /** The bytes handed to readers, in order, then the buffer, are the bytes received; what a process was
      handed is what reached its user buffers plus its stash; and waiting readers mean an empty buffer. */
  lemma ReadsConserved(s: State, t: nat, p: Pid)
    requires Inv(s) && t < |s.terms|
    ensures From(s.log, t) + s.terms[t].readBuf == s.terms[t].received
    ensures s.terms[t].readers != [] ==> s.terms[t].readBuf == []
    ensures p in s.procs ==> To(s.log, p) == s.At(p).got + Stashed(s.At(p))
    ensures p in s.procs && !s.At(p).resume.FromRead? ==> To(s.log, p) == s.At(p).got
  {
    assert ReaderInv(s, t) && StashInv(s, p);
  }

  // ---------------------------------------------------------------- transmit traps per message

  function Busy(x: Terminal): int { if x.busy then 1 else 0 }

  /** A step makes at most one TtyTransmit call on a terminal, never while one is outstanding. */
  ghost predicate Paced(x: Terminal, x': Terminal, trap: bool) {
    && |x'.chunks| - Busy(x') == |x.chunks| - Busy(x) + (if trap then 1 else 0)
    && (|x'.chunks| > |x.chunks| ==> (trap || !x.busy) && |x'.chunks| == |x.chunks| + 1
                                     && 0 < |x'.chunks[|x.chunks|]| <= TERMINAL_MAX_LINE)
    && x.done <= |x.calls| && x'.done <= |x'.calls| && x.calls[..x.done] <= x'.calls[..x'.done]
  }

  lemma SwitchTerms(s: State)
    ensures Switch(s).terms == s.terms
  {
  }

  lemma BeginPaced(s: State, t: nat, msg: seq<Byte>, allocOk: bool, u: nat)
    requires t < |s.terms| && u < |s.terms| && Taking(s, t, msg)
    requires u != t ==> s.terms[u].done <= |s.terms[u].calls|
    ensures |Begin(s, t, msg, allocOk).terms| == |s.terms|
    ensures Paced(s.terms[u], Begin(s, t, msg, allocOk).terms[u], false)
  {
    if allocOk {
      var n := Min(|msg|, TERMINAL_MAX_LINE);
      var s1 := s.PutTerm(t, Transmit(s.Term(t), msg[..n]).(inUse := true, writeBuf := msg, position := n,
                                                           writer := Some(s.cur), handed := None));
      SwitchTerms(Block(s1, FromIo(t, |msg|)));
    } else {
      GiveUpPaced(s, t, msg, u);
    }
  }

  lemma GiveUpPaced(s: State, t: nat, msg: seq<Byte>, u: nat)
    requires t < |s.terms| && u < |s.terms| && Taking(s, t, msg)
    requires u != t ==> s.terms[u].done <= |s.terms[u].calls|
    ensures |Begin(s, t, msg, false).terms| == |s.terms|
    ensures Paced(s.terms[u], Begin(s, t, msg, false).terms[u], false)
  {
    var x, x' := s.terms[t], Begin(s, t, msg, false).terms[t];
    assert x'.calls[..x.done] == x.calls[..x.done];
  }

  lemma WritePaced(s: State, t: int, msg: seq<Byte>, bufOk: bool, allocOk: bool, u: nat)
    requires Inv(s) && s.cur != IDLE && s.At(s.cur).resume == ToUser && u < |s.terms|
    ensures |TtyWrite(s, t, msg, bufOk, allocOk).terms| == |s.terms|
    ensures Paced(s.terms[u], TtyWrite(s, t, msg, bufOk, allocOk).terms[u], false)
  {
    assert WriterInv(s, u);
    if 0 <= t < NUM_TERMINALS && bufOk && |msg| > 0 {
      var x := s.terms[t];
      var x1 := x.(calls := x.calls + [Message(s.cur, msg)]);
      assert WriterInv(s, t);
      assert x1.calls[..x1.done] == x.calls[..x.done];
      if x.inUse {
        SwitchTerms(Block(s.PutTerm(t, x1.(writers := x.writers + [s.cur])), FromLock(t, msg)));
      } else {
        TakeFree(s, t, msg);
        BeginPaced(s.PutTerm(t, x1), t, msg, allocOk, u);
      }
    }
  }

  lemma HandOverPaced(x: Terminal)
    requires x.busy && x.done < |x.calls|
    ensures Paced(x, HandOver(x), true)
  {
    assert x.calls[..x.done] <= x.calls[..x.done + 1];
  }

  /** What a transmit trap does to its terminal. */
  function Advance(x: Terminal): Terminal {
    if x.position < |x.writeBuf| then Advanced(x) else HandOver(x)
  }

  lemma TransmitTerms(s: State, t: nat)
    requires t < |s.terms|
    ensures TransmitTrap(s, t).terms == s.terms[t := Advance(s.terms[t])]
  {
    assert WakeWriters(s, s.terms[t]).terms == s.terms;
  }

  lemma AdvancePaced(x: Terminal)
    requires x.busy && x.done < |x.calls|
    ensures Paced(x, Advance(x), true)
  {
    if x.position >= |x.writeBuf| { HandOverPaced(x); }
  }

  lemma TransmitPaced(s: State, t: nat, u: nat)
    requires t < |s.terms| && s.terms[t].busy && u < |s.terms| && WriterInv(s, t) && WriterInv(s, u)
    ensures |TransmitTrap(s, t).terms| == |s.terms|
    ensures Paced(s.terms[u], TransmitTrap(s, t).terms[u], u == t)
  {
    TransmitTerms(s, t);
    AdvancePaced(s.terms[t]);
    if u != t { SamePaced(s.terms[u], s.terms[u]); }
  }

  lemma {:induction false} ServeWriterSide(s: State, t: nat, allocs: seq<bool>)
    requires t < |s.terms|
    ensures SameWriterSide(s, Serve(s, t, allocs))
    decreases |s.terms[t].readers|
  {
    if s.terms[t].readers != [] && s.terms[t].readBuf != [] {
      ServeWriterSide(ServeOne(s, t, NextAlloc(allocs)), t, LaterAllocs(allocs));
    }
  }

  lemma SamePaced(x: Terminal, x': Terminal)
    requires WriterPart(x') == WriterPart(x) && x.done <= |x.calls|
    ensures Paced(x, x', false)
  {
    assert x'.chunks == WriterPart(x).chunks && x'.busy == WriterPart(x).busy;
    assert x'.calls == WriterPart(x).calls && x'.done == WriterPart(x).done;
  }

  lemma {:induction false} VisitAllTerms(s: State, ps: seq<Pid>)
    ensures VisitAll(s, ps).terms == s.terms
    decreases |ps|
  {
    if ps != [] { VisitAllTerms(Visit(s, ps[0]), ps[1..]); }
  }

  lemma LifeTerms(s: State, e: Event)
    requires Enabled(s, e) && (e.DoFork? || e.DoExit? || e.DoWait? || e.DoDelay?)
    ensures Next(s, e).terms == s.terms
  {
  }

  lemma ContinuePaced(s: State, allocOk: bool, u: nat)
    requires Inv(s) && s.At(s.cur).resume != ToUser && u < |s.terms|
    ensures |ContinueStep(s, allocOk).terms| == |s.terms|
    ensures Paced(s.terms[u], ContinueStep(s, allocOk).terms[u], false)
  {
    assert WriterInv(s, u);
    var r := s.At(s.cur).resume;
    if r.FromLock? {
      TakeHanded(s, r.tty, r.msg);
      BeginPaced(s, r.tty, r.msg, allocOk, u);
    } else {
      ResumeTerms(s, allocOk);
      SamePaced(s.terms[u], s.terms[u]);
    }
  }

  lemma ResumeTerms(s: State, allocOk: bool)
    requires !s.At(s.cur).resume.FromLock?
    ensures ContinueStep(s, allocOk).terms == s.terms
  {
  }

  lemma ReceivePaced(s: State, t: nat, data: seq<Byte>, allocs: seq<bool>, u: nat)
    requires t < |s.terms| && u < |s.terms| && s.terms[u].done <= |s.terms[u].calls|
    ensures |ReceiveTrap(s, t, data, allocs).terms| == |s.terms|
    ensures Paced(s.terms[u], ReceiveTrap(s, t, data, allocs).terms[u], false)
  {
    var x := s.terms[t];
    ServeWriterSide(s.PutTerm(t, Extended(x, data)), t, allocs);
    SamePaced(s.terms[u], ReceiveTrap(s, t, data, allocs).terms[u]);
  }

  lemma ClockTerms(s: State)
    ensures Clock(s).terms == s.terms
  {
    VisitAllTerms(s, s.blocked);
    TickTerms(Sweep(s), s.ticks + 1);
  }

  lemma TickTerms(s: State, n: nat)
    ensures Tick(s, n).terms == s.terms
  {
  }

  lemma StepPaced(s: State, e: Event, u: nat)
    requires Inv(s) && Enabled(s, e) && u < |s.terms|
    ensures |Next(s, e).terms| == |s.terms|
    ensures Paced(s.terms[u], Next(s, e).terms[u], e == OnTransmit(u))
  {
    assert WriterInv(s, u);
    match e
    case DoRead(t, len, bufOk, allocOk) =>
      ReadWriterSide(s, t, len, bufOk, allocOk);
      SamePaced(s.terms[u], Next(s, e).terms[u]);
    case DoWrite(t, msg, bufOk, allocOk) => WritePaced(s, t, msg, bufOk, allocOk, u);
    case OnClock =>
      ClockTerms(s);
      SamePaced(s.terms[u], Next(s, e).terms[u]);
    case OnTransmit(t) =>
      assert WriterInv(s, t);
      TransmitPaced(s, t, u);
    case OnReceive(t, data, allocs) => ReceivePaced(s, t, data, allocs, u);
    case Continue(allocOk) => ContinuePaced(s, allocOk, u);
    case _ => LifeTerms(s, e);
  }

  lemma ReadWriterSide(s: State, t: int, len: int, bufOk: bool, allocOk: bool)
    requires |s.terms| == NUM_TERMINALS
    ensures SameWriterSide(s, TtyRead(s, t, len, bufOk, allocOk))
  {
  }

  function Traps(events: seq<Event>, t: nat): nat {
    if events == [] then 0
    else Traps(events[..|events| - 1], t) + if events[|events| - 1] == OnTransmit(t) then 1 else 0
  }

  lemma RunTerminals(states: seq<State>, events: seq<Event>)
    requires GoodRun(states, events) && Inv(states[0])
    ensures forall i :: 0 <= i < |states| ==> |states[i].terms| == NUM_TERMINALS
  {
    GoodRunInv(states, events);
    forall i | 0 <= i < |states| ensures |states[i].terms| == NUM_TERMINALS { assert Inv(states[i]); }
  }

  ghost predicate PacedSince(x: Terminal, x': Terminal, traps: nat) {
    && |x'.chunks| - Busy(x') == |x.chunks| - Busy(x) + traps
    && x.done <= |x.calls| && x'.done <= |x'.calls| && x.calls[..x.done] <= x'.calls[..x'.done]
  }

  lemma PacedChain(x: Terminal, x1: Terminal, x2: Terminal, traps: nat, trap: bool)
    requires PacedSince(x, x1, traps) && Paced(x1, x2, trap)
    ensures PacedSince(x, x2, traps + if trap then 1 else 0)
  {
  }

  lemma StepPacedTerm(s: State, e: Event, t: nat)
    requires Inv(s) && Enabled(s, e) && t < NUM_TERMINALS
    ensures Paced(s.Term(t), Next(s, e).Term(t), e == OnTransmit(t))
  {
    StepPaced(s, e, t);
  }

  lemma PacedNow(s: State, t: nat)
    requires Inv(s) && t < NUM_TERMINALS
    ensures PacedSince(s.Term(t), s.Term(t), 0)
  {
    assert WriterInv(s, t);
  }

  lemma {:induction false} PacedSteps(xs: seq<Terminal>, events: seq<Event>, t: nat)
    requires |xs| == |events| + 1 && PacedSince(xs[0], xs[0], 0)
    requires forall i :: 0 <= i < |events| ==> Paced(xs[i], xs[i + 1], events[i] == OnTransmit(t))
    ensures PacedSince(xs[0], xs[|events|], Traps(events, t))
    decreases |events|
  {
    var n := |events|;
    if n > 0 {
      PacedSteps(xs[..n], events[..n - 1], t);
      PacedChain(xs[0], xs[n - 1], xs[n], Traps(events[..n - 1], t), events[n - 1] == OnTransmit(t));
    }
  }

  /** Over any good run, transmit traps match TtyTransmit calls one to one, and finished
      messages stay finished in the same order. */
  lemma RunPaced(states: seq<State>, events: seq<Event>, t: nat)
    requires GoodRun(states, events) && Inv(states[0]) && t < NUM_TERMINALS
    ensures PacedSince(states[0].Term(t), states[|events|].Term(t), Traps(events, t))
  {
    GoodRunInv(states, events);
    PacedNow(states[0], t);
    var xs := seq(|states|, i requires 0 <= i < |states| => states[i].Term(t));
    forall i | 0 <= i < |events| ensures Paced(xs[i], xs[i + 1], events[i] == OnTransmit(t)) {
      StepPacedTerm(states[i], events[i], t);
    }
    PacedSteps(xs, events, t);
  }

  lemma IdleTerminal(s: State, t: nat)
    requires Inv(s) && t < |s.terms| && !s.terms[t].busy
    ensures s.terms[t].done <= |s.terms[t].calls| && s.terms[t].chunks == ChunksOf(s.terms[t].calls[..s.terms[t].done])
  {
    assert WriterInv(s, t);
    assert Chunks([])[..0] == [];
  }

  /** A message of L bytes takes exactly ceil(L / TERMINAL_MAX_LINE) transmit traps: from
      before it is begun to its completion. */
  lemma TrapsPerMessage(states: seq<State>, events: seq<Event>, t: nat)
    requires GoodRun(states, events) && Inv(states[0]) && t < NUM_TERMINALS
    requires !states[0].Term(t).busy && !states[|events|].Term(t).busy
    requires states[|events|].Term(t).done == states[0].Term(t).done + 1
    ensures states[0].Term(t).done < |states[|events|].Term(t).calls|
    ensures Traps(events, t) == CeilDiv(|states[|events|].Term(t).calls[states[0].Term(t).done].data|)
  {
    GoodRunInv(states, events);
    RunTerminals(states, events);
    RunPaced(states, events, t);
    IdleTerminal(states[0], t);
    IdleTerminal(states[|events|], t);
    OneMessage(states[0].terms[t], states[|events|].terms[t], Traps(events, t));
  }

  lemma OneMessage(x: Terminal, x': Terminal, traps: nat)
    requires PacedSince(x, x', traps) && !x.busy && !x'.busy && x'.done == x.done + 1
    requires x.chunks == ChunksOf(x.calls[..x.done]) && x'.chunks == ChunksOf(x'.calls[..x'.done])
    ensures x.done < |x'.calls| && traps == CeilDiv(|x'.calls[x.done].data|)
  {
    assert x'.calls[..x'.done][..x.done] == x'.calls[..x.done] == x.calls[..x.done];
    ChunksAreTheMessage(x'.calls[x.done].data, 0);
  }
}
