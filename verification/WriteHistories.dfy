/** What a TtyWrite led to, told from the call over whole runs. */
module WriteHistories {
  import opened Common
  import opened KernelState
  import opened Placement
  import opened Family
  import opened Terminals
  import opened Writers
  import opened Readers
  import opened Invariant
  import opened TtySteps
  import opened Scheduling
  import opened Runs
  import opened Answers
  import opened Histories

  /** A process p and terminal t, as far as a TtyWrite is concerned: where p is, whether it transmits, the message
      that is transmitted, and the finished messages. */
  datatype View = View(running: bool, resume: Resume, ret: int, holds: bool, buf: seq<Byte>, sent: seq<Message>)

  function Finishes(x: Terminal): seq<Message> { if x.done <= |x.calls| then x.calls[..x.done] else [] }

  function ViewOf(s: State, t: nat, p: Pid): View {
    View(s.cur == p, s.At(p).resume, s.At(p).ret, s.Term(t).writer == Some(p), s.Term(t).writeBuf, Finishes(s.Term(t)))
  }

  /** What a step does to a writer's message: it stays with the transmitter, or its last line is out. */
  predicate Carried(v: View, v': View, p: Pid) {
    v.holds ==> (v'.holds && v'.buf == v.buf) || v'.sent == v.sent + [Message(p, v.buf)]
  }

  /** What a step does to p inside a TtyWrite of msg. */
  predicate WriteStep(v: View, v': View, e: Event, t: nat, p: Pid, msg: seq<Byte>) {
    && v.sent <= v'.sent
    && (v.resume == FromIo(t, |msg|) && !v.running ==> v'.resume == v.resume && Carried(v, v', p))
    && (v.resume == FromLock(t, msg) && !v.running ==> v'.resume == v.resume)
    && (v.resume == FromIo(t, |msg|) && v.running ==> v'.resume == ToUser && v'.ret == |msg|)
    && (v.resume == FromLock(t, msg) && v.running ==>
          if e.Continue? && e.callocOk then v'.resume == FromIo(t, |msg|) && v'.holds && v'.buf == msg
          else v'.resume == ToUser && v'.ret == ERROR)
  }

  lemma WriterKept(s: State, e: Event, s': State, p: Pid)
    requires Inv(s) && Enabled(s, e) && Good(s, e) && s' == Next(s, e) && p != s.cur
    requires s.At(p).resume.FromIo? || s.At(p).resume.FromLock?
    ensures p in s'.procs && s'.At(p).resume == s.At(p).resume
  {
    assert Kin(s, p);
    if e.OnTransmit? {
      TransmitStands(s, e.tt, s', p);
    } else {
      if e.OnReceive? { NotReader(s, e.it, p); }
      AsideStands(s, e, s', p);
    }
  }

  lemma NotReader(s: State, t: nat, p: Pid)
    requires Inv(s) && t < |s.terms| && !s.At(p).resume.FromRead?
    ensures p !in s.terms[t].readers
  {
    assert ReaderInv(s, t);
  }

  lemma WriterGoesOn(s: State, e: Event, s': State, t: nat, msg: seq<Byte>)
    requires Inv(s) && Enabled(s, e) && Good(s, e) && s' == Next(s, e)
    requires s.At(s.cur).resume == FromLock(t, msg) || s.At(s.cur).resume == FromIo(t, |msg|)
    ensures var v, v' := ViewOf(s, t, s.cur), ViewOf(s', t, s.cur);
            if v.resume.FromIo? then v'.resume == ToUser && v'.ret == |msg|
            else if e.Continue? && e.callocOk then v'.resume == FromIo(t, |msg|) && v'.holds && v'.buf == msg
            else v'.resume == ToUser && v'.ret == ERROR
  {
    if s.At(s.cur).resume.FromIo? {
      IoAnswers(s, t, |msg|, e.callocOk, s');
    } else {
      LockAnswers(s, t, msg, e.callocOk, s');
    }
  }

  // ---------------------------------------------------------------- the transmitter

  /** The transmitter of terminal t and its message. */
  ghost predicate SameHolder(s: State, s': State, t: nat) {
    s'.Term(t).writer == s.Term(t).writer && s'.Term(t).writeBuf == s.Term(t).writeBuf
  }

  lemma PartHolder(s: State, s': State, t: nat)
    requires t < |s.terms| && SameWriterSide(s, s')
    ensures SameHolder(s, s', t)
  {
    assert s.terms[t].writer == WriterPart(s.terms[t]).writer && s'.terms[t].writer == WriterPart(s'.terms[t]).writer;
    assert s.terms[t].writeBuf == WriterPart(s.terms[t]).writeBuf;
    assert s'.terms[t].writeBuf == WriterPart(s'.terms[t]).writeBuf;
  }

  /** Steps that are not about writing. */
  lemma OtherHolder(s: State, e: Event, s': State, t: nat)
    requires Inv(s) && Enabled(s, e) && s' == Next(s, e) && t < |s.terms|
    requires !e.DoWrite? && !e.OnTransmit? && (e.Continue? ==> !s.At(s.cur).resume.FromLock?)
    ensures SameHolder(s, s', t)
  {
    if e.DoRead? {
      ReadHolder(s, e.rt, e.len, e.rbufOk, e.rallocOk, t);
    } else if e.OnReceive? {
      ReceiveHolder(s, e.it, e.data, e.allocs, t);
    } else if e.OnClock? {
      ClockTerms(s);
    } else if e.Continue? {
      ResumeTerms(s, e.callocOk);
    } else {
      LifeTerms(s, e);
    }
  }

  lemma ReadHolder(s: State, u: int, len: int, bufOk: bool, allocOk: bool, t: nat)
    requires |s.terms| == NUM_TERMINALS && t < NUM_TERMINALS
    ensures SameHolder(s, TtyRead(s, u, len, bufOk, allocOk), t)
  {
    ReadWriterSide(s, u, len, bufOk, allocOk);
    PartHolder(s, TtyRead(s, u, len, bufOk, allocOk), t);
  }

  lemma ReceiveHolder(s: State, u: nat, data: seq<Byte>, allocs: seq<bool>, t: nat)
    requires u < |s.terms| && t < |s.terms|
    ensures SameHolder(s, ReceiveTrap(s, u, data, allocs), t)
  {
    ServeWriterSide(s.PutTerm(u, Extended(s.terms[u], data)), u, allocs);
    PartHolder(s, ReceiveTrap(s, u, data, allocs), t);
  }

  lemma WriteHolder(s: State, u: int, msg: seq<Byte>, bufOk: bool, allocOk: bool, s': State, t: nat)
    requires Inv(s) && s' == TtyWrite(s, u, msg, bufOk, allocOk) && t < |s.terms| && s.terms[t].inUse
    ensures SameHolder(s, s', t)
  {
    if 0 <= u < NUM_TERMINALS { assert WriterInv(s, u); }
    WriteIs(s, u, msg, bufOk, allocOk, s');
    if WriteValid(u, msg, bufOk) {
      if s.terms[u].inUse {
        QueuesHolder(s, s', u, msg, t);
      } else if allocOk {
        assert u != t;
        TransmitsHolder(s, s', u, msg, t);
      }
    }
  }

  lemma QueuesHolder(s: State, s': State, u: nat, msg: seq<Byte>, t: nat)
    requires u < |s.terms| && t < |s.terms| && Answers.Queues(s, s', u, msg)
    ensures SameHolder(s, s', t)
  {
  }

  lemma TransmitsHolder(s: State, s': State, u: nat, msg: seq<Byte>, t: nat)
    requires u < |s.terms| && t < |s.terms| && Transmits(s, s', u, msg) && u != t
    ensures SameHolder(s, s', t)
  {
  }

  lemma LockHolder(s: State, u: nat, msg: seq<Byte>, allocOk: bool, s': State, t: nat)
    requires Inv(s) && s.At(s.cur).resume == FromLock(u, msg) && s' == Begin(s, u, msg, allocOk)
    requires (!allocOk ==> s.Term(u).writers == []) && t < |s.terms| && s.terms[t].writer.Some?
    ensures SameHolder(s, s', t)
  {
    TakeHanded(s, u, msg);
    LockIs(s, u, msg, allocOk, s');
    if allocOk { TransmitsHolder(s, s', u, msg, t); } else { GivesUpHolder(s, s', u, t); }
  }

  lemma GivesUpHolder(s: State, s': State, u: nat, t: nat)
    requires u < |s.terms| && t < |s.terms| && GivesUp(s, s', u) && u != t
    ensures SameHolder(s, s', t)
  {
  }

  lemma LineHolder(s: State, u: nat, s': State, t: nat)
    requires Inv(s) && u < |s.terms| && t < |s.terms| && s.terms[u].busy && s.terms[t].writer.Some?
    requires s' == TransmitTrap(s, u)
    ensures Carried(ViewOf(s, t, s.terms[t].writer.value), ViewOf(s', t, s.terms[t].writer.value),
                    s.terms[t].writer.value)
  {
    TransmitTerms(s, u);
    assert WriterInv(s, t);
    if u == t && s.terms[t].position >= |s.terms[t].writeBuf| { LastFinishes(s.terms[t], s'.terms[t]); }
  }

  lemma LastFinishes(x: Terminal, x': Terminal)
    requires x.done < |x.calls| && x'.calls == x.calls && x'.done == x.done + 1
    ensures Finishes(x') == Finishes(x) + [x.calls[x.done]]
  {
  }

  lemma HolderStep(s: State, e: Event, s': State, t: nat, p: Pid)
    requires Inv(s) && Enabled(s, e) && Good(s, e) && s' == Next(s, e) && t < |s.terms|
    ensures Carried(ViewOf(s, t, p), ViewOf(s', t, p), p)
  {
    if s.terms[t].writer == Some(p) {
      assert WriterInv(s, t);
      if e.OnTransmit? {
        LineHolder(s, e.tt, s', t);
      } else if e.DoWrite? {
        WriteHolder(s, e.wt, e.msg, e.wbufOk, e.wallocOk, s', t);
      } else if e.Continue? && s.At(s.cur).resume.FromLock? {
        LockResumes(s, s.At(s.cur).resume.tty, s.At(s.cur).resume.msg, e.callocOk, s');
        LockHolder(s, s.At(s.cur).resume.tty, s.At(s.cur).resume.msg, e.callocOk, s', t);
      } else {
        OtherHolder(s, e, s', t);
      }
    }
  }

  lemma SentGrows(s: State, e: Event, s': State, t: nat)
    requires Inv(s) && Enabled(s, e) && s' == Next(s, e) && t < |s.terms|
    ensures Finishes(s.Term(t)) <= Finishes(s'.Term(t))
  {
    StepPaced(s, e, t);
  }

  lemma StepWrites(s: State, e: Event, s': State, t: nat, p: Pid, msg: seq<Byte>)
    requires Inv(s) && Enabled(s, e) && Good(s, e) && s' == Next(s, e) && t < NUM_TERMINALS
    ensures WriteStep(ViewOf(s, t, p), ViewOf(s', t, p), e, t, p, msg)
  {
    SentGrows(s, e, s', t);
    HolderStep(s, e, s', t, p);
    if s.At(p).resume == FromLock(t, msg) || s.At(p).resume == FromIo(t, |msg|) {
      if p == s.cur { WriterGoesOn(s, e, s', t, msg); } else { WriterKept(s, e, s', p); }
    }
  }

  // ---------------------------------------------------------------- runs

  function Views(states: seq<State>, t: nat, p: Pid): (vs: seq<View>)
    ensures |vs| == |states| && forall i :: 0 <= i < |states| ==> vs[i] == ViewOf(states[i], t, p)
  {
    seq(|states|, i requires 0 <= i < |states| => ViewOf(states[i], t, p))
  }

  predicate WriteRun(vs: seq<View>, events: seq<Event>, t: nat, p: Pid, msg: seq<Byte>) {
    |vs| == |events| + 1 && forall i :: 0 <= i < |events| ==> WriteStep(vs[i], vs[i + 1], events[i], t, p, msg)
  }

  lemma WriteStepAt(states: seq<State>, events: seq<Event>, t: nat, p: Pid, msg: seq<Byte>, i: nat)
    requires GoodRun(states, events) && Inv(states[0]) && t < NUM_TERMINALS && i < |events|
    ensures WriteStep(ViewOf(states[i], t, p), ViewOf(states[i + 1], t, p), events[i], t, p, msg)
  {
    GoodUpTo(states, events, i);
    StepWrites(states[i], events[i], states[i + 1], t, p, msg);
  }

  lemma RunWrites(states: seq<State>, events: seq<Event>, t: nat, p: Pid, msg: seq<Byte>, vs: seq<View>)
    requires GoodRun(states, events) && Inv(states[0]) && t < NUM_TERMINALS && vs == Views(states, t, p)
    ensures WriteRun(vs, events, t, p, msg)
  {
    forall i | 0 <= i < |events| ensures WriteStep(vs[i], vs[i + 1], events[i], t, p, msg) {
      WriteStepAt(states, events, t, p, msg, i);
    }
  }

  /** A message of p with that text was finished after the first n. */
  predicate Finished(v: View, n: nat, p: Pid, msg: seq<Byte>) {
    exists d :: n <= d < |v.sent| && v.sent[d] == Message(p, msg)
  }

  /** Inside the call, n messages having been finished when it was made. */
  predicate Inside(v: View, t: nat, p: Pid, msg: seq<Byte>, n: nat) {
    && n <= |v.sent|
    && (v.resume == FromLock(t, msg)
        || (v.resume == FromIo(t, |msg|) && ((v.holds && v.buf == msg) || Finished(v, n, p, msg))))
  }

  lemma StillFinished(v: View, v': View, n: nat, p: Pid, msg: seq<Byte>)
    requires Finished(v, n, p, msg) && v.sent <= v'.sent
    ensures Finished(v', n, p, msg)
  {
    var d :| n <= d < |v.sent| && v.sent[d] == Message(p, msg);
    assert v'.sent[d] == Message(p, msg);
  }

  lemma InsideStep(v: View, v': View, e: Event, t: nat, p: Pid, msg: seq<Byte>, n: nat)
    requires WriteStep(v, v', e, t, p, msg) && Inside(v, t, p, msg, n) && v'.resume != ToUser
    ensures Inside(v', t, p, msg, n)
  {
    if Finished(v, n, p, msg) {
      StillFinished(v, v', n, p, msg);
    } else if v.resume.FromIo? && !(v'.holds && v'.buf == v.buf) {
      assert v'.sent[|v.sent|] == Message(p, msg);
    }
  }

  lemma {:induction false} InsideUntil(vs: seq<View>, events: seq<Event>, i: nat, k: nat, t: nat, p: Pid,
                                       msg: seq<Byte>,
                                       n: nat)
    requires WriteRun(vs, events, t, p, msg) && i <= k <= |events| && Inside(vs[i], t, p, msg, n)
    requires forall m :: i <= m <= k ==> vs[m].resume != ToUser
    ensures Inside(vs[k], t, p, msg, n)
    decreases k
  {
    if k > i {
      InsideUntil(vs, events, i, k - 1, t, p, msg, n);
      assert WriteStep(vs[k - 1], vs[k - 1 + 1], events[k - 1], t, p, msg);
      InsideStep(vs[k - 1], vs[k], events[k - 1], t, p, msg, n);
    }
  }

  /** The call is made, and does not return at once. */
  lemma WriteBegins(s: State, e: Event, s': State, t: nat)
    requires Inv(s) && Enabled(s, e) && s' == Next(s, e) && e.DoWrite? && e.wt == t && WriteValid(t, e.msg, e.wbufOk)
    requires s'.At(s.cur).resume != ToUser
    ensures Inside(ViewOf(s', t, s.cur), t, s.cur, e.msg, |Finishes(s.Term(t))|)
  {
    SentGrows(s, e, s', t);
    WriteAnswers(s, t, e.msg, e.wbufOk, e.wallocOk, s');
  }

  lemma RunningHoldsNot(s: State, t: nat)
    requires Inv(s) && t < |s.terms|
    ensures s.terms[t].writer != Some(s.cur)
  {
    assert WriterInv(s, t);
    assert Places(s, s.cur, true) <= 1;
  }

  /** TtyWrite, to the end: it returns the length of its message, and that only when the whole message is among those
      the terminal has finished since; or ERROR, when it was handed the terminal and there was no memory. */
  lemma WriteReturns(states: seq<State>, events: seq<Event>, i: nat, k: nat, t: nat)
    requires GoodRun(states, events) && Inv(states[0]) && i < k < |events| && events[i].DoWrite? && events[i].wt == t
    requires WriteValid(t, events[i].msg, events[i].wbufOk)
    requires (forall m :: i < m <= k ==> states[m].At(states[i].cur).resume != ToUser)
    requires states[k + 1].At(states[i].cur).resume == ToUser
    ensures var p, msg := states[i].cur, events[i].msg;
            && states[k].cur == p && events[k].Continue?
            && if states[k + 1].At(p).ret == |msg|
               then Finished(ViewOf(states[k + 1], t, p), |Finishes(states[i].Term(t))|, p, msg)
               else states[k + 1].At(p).ret == ERROR && !events[k].callocOk
  {
    var p, msg := states[i].cur, events[i].msg;
    var vs := Views(states, t, p);
    RunWrites(states, events, t, p, msg, vs);
    GoodUpTo(states, events, i);
    WriteBegins(states[i], events[i], states[i + 1], t);
    InsideUntil(vs, events, i + 1, k, t, p, msg, |Finishes(states[i].Term(t))|);
    GoodUpTo(states, events, k);
    WriteEnds(states[k], events[k], states[k + 1], t, p, msg, |Finishes(states[i].Term(t))|);
  }

  lemma WriteEnds(s: State, e: Event, s': State, t: nat, p: Pid, msg: seq<Byte>, n: nat)
    requires Inv(s) && Enabled(s, e) && Good(s, e) && s' == Next(s, e) && t < NUM_TERMINALS && msg != []
    requires Inside(ViewOf(s, t, p), t, p, msg, n) && s'.At(p).resume == ToUser
    ensures s.cur == p && e.Continue?
    ensures if s'.At(p).ret == |msg| then Finished(ViewOf(s', t, p), n, p, msg)
            else s'.At(p).ret == ERROR && !e.callocOk
  {
    StepWrites(s, e, s', t, p, msg);
    RunningHoldsNot(s, t);
    if Finished(ViewOf(s, t, p), n, p, msg) { StillFinished(ViewOf(s, t, p), ViewOf(s', t, p), n, p, msg); }
  }
}
