/** Every state the kernel reaches from its boot state. */
module Reachable {
  import opened Common
  import opened KernelState
  import opened Invariant
  import opened Runs
  import TtySteps

  lemma {:induction false} VisitAllFlag(s: State, ps: seq<Pid>)
    ensures VisitAll(s, ps).waiting0 == s.waiting0
    decreases |ps|
  {
    if ps != [] { VisitAllFlag(Visit(s, ps[0]), ps[1..]); }
  }

  lemma {:induction false} ServeFlag(s: State, t: nat, allocs: seq<bool>)
    requires t < |s.terms|
    ensures Serve(s, t, allocs).waiting0 == s.waiting0
    decreases |s.terms[t].readers|
  {
    if s.terms[t].readers != [] && s.terms[t].readBuf != [] {
      ServeFlag(ServeOne(s, t, NextAlloc(allocs)), t, LaterAllocs(allocs));
    }
  }

  lemma BeginFlag(s: State, t: nat, msg: seq<Byte>, allocOk: bool)
    ensures Begin(s, t, msg, allocOk).waiting0 == s.waiting0
  {
  }

  /** No step changes the value new PCBs start their flag with. */
  lemma StepFlag(s: State, e: Event)
    requires Enabled(s, e)
    ensures Next(s, e).waiting0 == s.waiting0
  {
    match e
    case DoWrite(t, msg, bufOk, allocOk) =>
      if 0 <= t < NUM_TERMINALS && bufOk && |msg| > 0 && !s.Term(t).inUse {
        var x := s.Term(t);
        BeginFlag(s.PutTerm(t, x.(calls := x.calls + [Message(s.cur, msg)])), t, msg, allocOk);
      }
    case OnClock => VisitAllFlag(s, s.blocked);
    case OnReceive(t, data, allocs) =>
      var x := s.terms[t];
      ServeFlag(s.PutTerm(t, Extended(x, data)), t, allocs);
    case Continue(allocOk) =>
      if s.At(s.cur).resume.FromLock? { BeginFlag(s, s.At(s.cur).resume.tty, s.At(s.cur).resume.msg, allocOk); }
    case OnTransmit(t) => TransmitFlag(s, t);
    case _ => LifeFlag(s, e);
  }

  lemma TransmitFlag(s: State, t: nat)
    ensures TransmitTrap(s, t).waiting0 == s.waiting0
  {
  }

  lemma SwitchFlag(s: State)
    ensures Switch(s).waiting0 == s.waiting0
  {
  }

  lemma WaitFlag(s: State)
    ensures Wait(s).waiting0 == s.waiting0
  {
    SwitchFlag(s.Put(s.cur, s.At(s.cur).(state := Blocked, waiting := 1, resume := FromWait)));
  }

  lemma ReadFlag(s: State, t: int, len: int, bufOk: bool, allocOk: bool)
    ensures TtyRead(s, t, len, bufOk, allocOk).waiting0 == s.waiting0
  {
  }

  lemma LifeFlag(s: State, e: Event)
    requires Enabled(s, e) && (e.DoFork? || e.DoExit? || e.DoWait? || e.DoDelay? || e.DoRead?)
    ensures Next(s, e).waiting0 == s.waiting0
  {
    match e
    case DoExit(status) => SwitchFlag(WakeParent(Bury(s, status), s.At(s.cur).parent));
    case DoWait => WaitFlag(s);
    case DoRead(t, len, bufOk, allocOk) => ReadFlag(s, t, len, bufOk, allocOk);
    case _ =>
  }

  /** What is left of Good when the flag starts at 0: a child first runs while its parent's PCB exists, and a
      writer that takes over gets its buffer or nobody else waits. */
  predicate Benign(s: State, e: Event) {
    e.Continue? ==>
      match s.At(s.cur).resume
      case FirstRun => s.At(s.cur).ppid in s.procs
      case FromLock(t, _) => e.callocOk || s.Term(t).writers == []
      case _ => true
  }

  ghost predicate AllBenign(states: seq<State>, events: seq<Event>)
    requires |states| > |events|
  {
    forall i :: 0 <= i < |events| ==> Benign(states[i], events[i])
  }

  lemma BenignStep(s: State, e: Event)
    requires Inv(s) && s.waiting0 == 0 && Enabled(s, e) && Benign(s, e)
    ensures Inv(Next(s, e)) && Next(s, e).waiting0 == 0
  {
    StepFlag(s, e);
    TtySteps.StepIff(s, e);
    if e.DoExit? { ExitAlwaysGood(s, e.status); }
  }

  lemma {:induction false} BenignUpTo(states: seq<State>, events: seq<Event>, k: nat)
    requires IsRun(states, events) && states[0] == Initial(0) && AllBenign(states, events) && k <= |events|
    ensures Inv(states[k]) && states[k].waiting0 == 0
  {
    if k == 0 {
      InitialInv(0);
    } else {
      BenignUpTo(states, events, k - 1);
      BenignStep(states[k - 1], events[k - 1]);
    }
  }

  /** In every run from the boot state with the flag starting at 0, all states are good exactly when each
      child first runs while its parent exists and each woken writer gets its buffer or leaves nobody waiting. */
  lemma ReachableIff(states: seq<State>, events: seq<Event>)
    requires IsRun(states, events) && states[0] == Initial(0)
    ensures AllInv(states) <==> AllBenign(states, events)
  {
    InitialInv(0);
    RunIff(states, events);
    if AllBenign(states, events) {
      forall k | 0 <= k < |states| ensures Inv(states[k]) { BenignUpTo(states, events, k); }
    }
    if AllGood(states, events) { GoodBenign(states, events); }
  }

  lemma GoodBenign(states: seq<State>, events: seq<Event>)
    requires |states| > |events| && AllGood(states, events)
    ensures AllBenign(states, events)
  {
    forall i | 0 <= i < |events| ensures Benign(states[i], events[i]) { assert Good(states[i], events[i]); }
  }
}
