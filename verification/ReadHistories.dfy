/** What a TtyRead led to, told from the call over whole runs. */
module ReadHistories {
  import opened Common
  import opened KernelState
  import opened Placement
  import opened Family
  import opened Terminals
  import opened Readers
  import opened Invariant
  import opened TtySteps
  import opened Scheduling
  import opened Reads
  import opened Answers
  import opened Service
  import opened Histories

  /** A process p and terminal t, as far as a TtyRead is concerned: whether p runs, whether it is in t's line,
      whether it is inside TtyRead, and what it has got. */
  datatype View = View(running: bool, inLine: bool, reading: bool, readLen: int, ret: int, stashed: seq<Byte>,
                       got: seq<Byte>, received: seq<Byte>, log: seq<Delivery>)

  function ViewOf(s: State, t: nat, p: Pid): View {
    var b := s.At(p);
    View(s.cur == p, p in s.Term(t).readers, b.resume == FromRead(t), b.readLen, b.ret, Stashed(b), b.got,
         s.Term(t).received, s.log)
  }

  // ---------------------------------------------------------------- one step

  /** The log has grown, and no new entry is for p, but for entry d. */
  predicate OnlyAt(log: seq<Delivery>, log': seq<Delivery>, p: Pid, d: int) {
    log <= log' && forall n :: |log| <= n < |log'| && n != d ==> log'[n].reader != p
  }

  predicate Silent(log: seq<Delivery>, log': seq<Delivery>, p: Pid) { OnlyAt(log, log', p, -1) }

  /** Entry d of the log hands p its share of what terminal t had left, which was not nothing. */
  predicate Handed(v: View, v': View, allocs: seq<bool>, t: nat, p: Pid, d: nat) {
    && |v.log| <= d < |v'.log| && OnlyAt(v.log, v'.log, p, d)
    && var left := Left(v'.received, v'.log, t, d);
       var bytes := Share(left, v.readLen, AllocAt(allocs, d - |v.log|));
       left != [] && v'.log[d] == Delivery(t, p, bytes, true) && v'.ret == |bytes| && v'.stashed == bytes
  }

  /** In a step in which it does not run, a reader keeps its place in line and gets nothing, or is handed its share
      by a receive trap; and once out of the line it keeps that. */
  ghost predicate ReadStep(v: View, v': View, e: Event, t: nat, p: Pid) {
    v.reading && !v.running ==>
      && v'.reading && v'.readLen == v.readLen && v'.got == v.got
      && if v.inLine then
           (v'.inLine && Silent(v.log, v'.log, p))
           || (e.OnReceive? && e.it == t && !v'.inLine && exists d: nat :: Handed(v, v', e.allocs, t, p, d))
         else !v'.inLine && Silent(v.log, v'.log, p) && v'.ret == v.ret && v'.stashed == v.stashed
  }

  /** In steps other than receive traps, p keeps its place in line or outside, and is handed nothing. */
  ghost predicate Passed(s: State, s': State, t: nat, p: Pid)
    requires t < |s.terms|
  {
    |s'.terms| == |s.terms| && (p in s'.terms[t].readers <==> p in s.terms[t].readers) && Silent(s.log, s'.log, p)
  }

  lemma StillPassed(s: State, s': State, t: nat, p: Pid)
    requires t < |s.terms| && Still(s, s')
    ensures Passed(s, s', t, p)
  {
  }

  lemma ReadPassed(s: State, t: int, len: int, bufOk: bool, allocOk: bool, s': State, u: nat, p: Pid)
    requires PlacementInv(s) && |s.terms| == NUM_TERMINALS && s' == TtyRead(s, t, len, bufOk, allocOk)
    requires u < NUM_TERMINALS && p != s.cur
    ensures Passed(s, s', u, p)
  {
    ReadIs(s, t, len, bufOk, allocOk, s');
    if ReadValid(t, len, bufOk) {
      if s.terms[t].readBuf == [] {
        LaterPassed(s, s', t, len, u, p);
      } else if allocOk {
        NowPassed(s, s', t, Min(len, |s.terms[t].readBuf|), u, p);
      }
    }
  }

  lemma LaterPassed(s: State, s': State, t: nat, len: int, u: nat, p: Pid)
    requires t < |s.terms| && u < |s.terms| && ReadsLater(s, s', t, len) && p != s.cur
    ensures Passed(s, s', u, p)
  {
  }

  lemma NowPassed(s: State, s': State, t: nat, n: nat, u: nat, p: Pid)
    requires t < |s.terms| && u < |s.terms| && n <= |s.terms[t].readBuf| && ReadsNow(s, s', t, n) && p != s.cur
    ensures Passed(s, s', u, p)
  {
  }

  lemma StepPassed(s: State, e: Event, s': State, t: nat, p: Pid)
    requires Inv(s) && Enabled(s, e) && s' == Next(s, e) && t < |s.terms| && p != s.cur && !e.OnReceive?
    ensures Passed(s, s', t, p)
  {
    if e.DoRead? {
      ReadPassed(s, e.rt, e.len, e.rbufOk, e.rallocOk, s', t, p);
    } else {
      QuietStill(s, e);
      StillPassed(s, s', t, p);
    }
  }

  /** A process inside TtyRead that does not run is blocked exactly while it is in line. */
  lemma ReaderWaits(s: State, t: nat, p: Pid)
    requires Inv(s) && t < NUM_TERMINALS && s.At(p).resume == FromRead(t)
    ensures p in s.procs && p !in s.zombie && (p in s.terms[t].readers <==> p in s.blocked)
    ensures p in s.blocked ==> s.At(p).stash.None? && p != s.cur
    ensures forall u :: 0 <= u < |s.terms| && u != t ==> p !in s.terms[u].readers
  {
    assert Kin(s, p) && StashInv(s, p);
    assert p in s.blocked ==> Places(s, p, true) <= 1;
    forall u | 0 <= u < |s.terms| ensures p in s.terms[u].readers ==> u == t && p in s.blocked {
      assert ReaderInv(s, u);
    }
  }

  /** A receive trap, for a process that is not in line there. */
  lemma ReceivePasses(s: State, u: nat, data: seq<Byte>, allocs: seq<bool>, s': State, t: nat, p: Pid)
    requires Inv(s) && Enabled(s, OnReceive(u, data, allocs)) && s' == Next(s, OnReceive(u, data, allocs))
    requires t < |s.terms| && p !in s.terms[u].readers
    ensures Passed(s, s', t, p)
  {
    var n := ReceiveAnswers(s, u, data, allocs, s');
    HandsOthers(s, s', u, n, allocs, t, p);
  }

  lemma HandsOthers(s: State, s': State, u: nat, n: nat, allocs: seq<bool>, t: nat, p: Pid)
    requires u < |s.terms| && t < |s.terms| && HandsOut(s, s', u, n, allocs) && p !in s.terms[u].readers
    ensures Passed(s, s', t, p)
  {
    forall i | |s.log| <= i < |s'.log| ensures s'.log[i].reader != p { assert HandedAt(s, s', u, allocs, i); }
  }

  /** A receive trap, for a process in line: it is served or stays. */
  lemma HandsReader(s: State, s': State, t: nat, n: nat, allocs: seq<bool>, p: Pid)
    requires t < |s.terms| && HandsOut(s, s', t, n, allocs) && p in s.terms[t].readers
    requires forall i, j :: 0 <= i < j < |s.terms[t].readers| ==> s.terms[t].readers[i] != s.terms[t].readers[j]
    requires s.At(p).stash.None?
    ensures Kept(s.At(p), s'.At(p))
    ensures p in s'.terms[t].readers ==> Silent(s.log, s'.log, p) && s'.At(p) == s.At(p)
    ensures p !in s'.terms[t].readers ==>
              exists d: nat :: Handed(ViewOf(s, t, p), ViewOf(s', t, p), allocs, t, p, d)
  {
    var q := s.terms[t].readers;
    var k :| 0 <= k < |q| && q[k] == p;
    forall i | |s.log| <= i < |s'.log| && i != |s.log| + k ensures s'.log[i].reader != p {
      assert HandedAt(s, s', t, allocs, i);
    }
    if k < n {
      assert HandedAt(s, s', t, allocs, |s.log| + k);
      assert Handed(ViewOf(s, t, p), ViewOf(s', t, p), allocs, t, p, |s.log| + k);
    } else {
      assert q[n..][k - n] == p;
    }
  }

  lemma ServedStep(s: State, t: nat, data: seq<Byte>, allocs: seq<bool>, s': State, p: Pid)
    requires Inv(s) && Enabled(s, OnReceive(t, data, allocs)) && s' == Next(s, OnReceive(t, data, allocs))
    requires p in s.terms[t].readers
    ensures ReadStep(ViewOf(s, t, p), ViewOf(s', t, p), OnReceive(t, data, allocs), t, p)
  {
    var n := ReceiveAnswers(s, t, data, allocs, s');
    assert ReaderInv(s, t) && StashInv(s, p);
    HandsReader(s, s', t, n, allocs, p);
  }

  lemma AsideStep(s: State, e: Event, s': State, t: nat, p: Pid)
    requires t < |s.terms| && Stands(s, s', p) && Passed(s, s', t, p)
    ensures ReadStep(ViewOf(s, t, p), ViewOf(s', t, p), e, t, p)
  {
  }

  lemma StepReads(s: State, e: Event, s': State, t: nat, p: Pid)
    requires Inv(s) && Enabled(s, e) && Good(s, e) && s' == Next(s, e) && t < NUM_TERMINALS
    ensures ReadStep(ViewOf(s, t, p), ViewOf(s', t, p), e, t, p)
  {
    if s.At(p).resume == FromRead(t) && p != s.cur {
      ReaderWaits(s, t, p);
      if e.OnReceive? && p in s.terms[e.it].readers {
        ServedStep(s, t, e.data, e.allocs, s', p);
      } else {
        AsideStands(s, e, s', p);
        if e.OnReceive? {
          ReceivePasses(s, e.it, e.data, e.allocs, s', t, p);
        } else {
          StepPassed(s, e, s', t, p);
        }
        AsideStep(s, e, s', t, p);
      }
    }
  }

  // ---------------------------------------------------------------- runs

  function Views(states: seq<State>, t: nat, p: Pid): (vs: seq<View>)
    ensures |vs| == |states| && forall i :: 0 <= i < |states| ==> vs[i] == ViewOf(states[i], t, p)
  {
    seq(|states|, i requires 0 <= i < |states| => ViewOf(states[i], t, p))
  }

  ghost predicate ReadRun(vs: seq<View>, events: seq<Event>, t: nat, p: Pid) {
    |vs| == |events| + 1 && forall i :: 0 <= i < |events| ==> ReadStep(vs[i], vs[i + 1], events[i], t, p)
  }

  lemma ReadStepAt(states: seq<State>, events: seq<Event>, t: nat, p: Pid, i: nat)
    requires GoodRun(states, events) && Inv(states[0]) && t < NUM_TERMINALS && i < |events|
    ensures ReadStep(ViewOf(states[i], t, p), ViewOf(states[i + 1], t, p), events[i], t, p)
  {
    GoodUpTo(states, events, i);
    StepReads(states[i], events[i], states[i + 1], t, p);
  }

  lemma RunReads(states: seq<State>, events: seq<Event>, t: nat, p: Pid, vs: seq<View>)
    requires GoodRun(states, events) && Inv(states[0]) && t < NUM_TERMINALS && vs == Views(states, t, p)
    ensures ReadRun(vs, events, t, p)
  {
    forall i | 0 <= i < |events| ensures ReadStep(vs[i], vs[i + 1], events[i], t, p) {
      ReadStepAt(states, events, t, p, i);
    }
  }

  /** From i to k, p was handed its share once, by the receive trap at j, in entry d. */
  ghost predicate ServedOnce(vs: seq<View>, events: seq<Event>, t: nat, p: Pid, i: nat, j: nat, d: nat, k: nat) {
    && i <= j < k <= |events| < |vs| && events[j].OnReceive? && events[j].it == t
    && Handed(vs[j], vs[j + 1], events[j].allocs, t, p, d) && vs[j].readLen == vs[i].readLen
    && |vs[i].log| <= d < |vs[k].log| && OnlyAt(vs[i].log, vs[k].log, p, d) && vs[k].log[d] == vs[j + 1].log[d]
    && vs[k].ret == vs[j + 1].ret && vs[k].stashed == vs[j + 1].stashed && !vs[k].inLine
  }

  ghost predicate StillInLine(vs: seq<View>, i: nat, k: nat, p: Pid) {
    i <= k < |vs| && vs[k].inLine && Silent(vs[i].log, vs[k].log, p)
  }

  /** A reader in line, as long as it does not run: it is still in line, or was served once. */
  lemma {:induction false} ReadUntil(vs: seq<View>, events: seq<Event>, t: nat, p: Pid, i: nat, k: nat)
    returns (j: nat, d: nat)
    requires ReadRun(vs, events, t, p) && i <= k <= |events| && vs[i].inLine && vs[i].reading
    requires forall m :: i <= m < k ==> !vs[m].running
    ensures vs[k].reading && vs[k].readLen == vs[i].readLen && vs[k].got == vs[i].got
    ensures StillInLine(vs, i, k, p) || ServedOnce(vs, events, t, p, i, j, d, k)
    decreases k
  {
    j, d := 0, 0;
    if k > i {
      j, d := ReadUntil(vs, events, t, p, i, k - 1);
      assert ReadStep(vs[k - 1], vs[k - 1 + 1], events[k - 1], t, p);
      if StillInLine(vs, i, k - 1, p) {
        if !vs[k].inLine {
          j := k - 1;
          d :| Handed(vs[k - 1], vs[k], events[k - 1].allocs, t, p, d);
        }
      }
    }
  }

  /** The call makes p wait in line, with its length. */
  lemma ReadBegins(s: State, e: Event, s': State, t: nat)
    requires Inv(s) && Enabled(s, e) && s' == Next(s, e) && e.DoRead? && e.rt == t && ReadValid(t, e.len, e.rbufOk)
    requires s.terms[t].readBuf == []
    ensures var v, v' := ViewOf(s, t, s.cur), ViewOf(s', t, s.cur);
            v'.inLine && v'.reading && v'.readLen == e.len && v'.got == v.got && v'.log == v.log
  {
    ReadAnswers(s, t, e.len, e.rbufOk, e.rallocOk, s');
  }

  /** Dispatched again, p is no longer in line, and it returns with what was stashed for it. */
  lemma ReadEnds(s: State, e: Event, s': State, t: nat)
    requires Inv(s) && Enabled(s, e) && Good(s, e) && s' == Next(s, e) && s.At(s.cur).resume == FromRead(t)
    ensures e.Continue? && Answered(s, s', s.At(s.cur).ret)
    ensures s'.At(s.cur).got == s.At(s.cur).got + Stashed(s.At(s.cur))
  {
    StashAnswers(s, t, e.callocOk, s');
  }

  lemma RunningNotInLine(s: State, t: nat)
    requires Inv(s) && t < NUM_TERMINALS && s.At(s.cur).resume == FromRead(t)
    ensures !ViewOf(s, t, s.cur).inLine
  {
    ReaderWaits(s, t, s.cur);
  }

  /** Between the call in s0 and p's next turn in `end`, p was handed bytes once: by a receive trap of that terminal,
      from s to s', which had something left for it, and gave it as many bytes as it had asked for as far as there
      were, or none without memory for them. */
  ghost predicate ReadServed(s0: State, s: State, e: Event, s': State, end: State, d: nat, t: nat, p: Pid, len: int) {
    && e.OnReceive? && e.it == t && |s.log| <= d < |s'.log| && d < |end.log| && OnlyAt(s0.log, end.log, p, d)
    && var left := Left(s'.Term(t).received, s'.log, t, d);
       var bytes := Share(left, len, AllocAt(e.allocs, d - |s.log|));
       left != [] && end.log[d] == Delivery(t, p, bytes, true)
       && end.At(p).ret == |bytes| && Stashed(end.At(p)) == bytes
  }

  lemma ServedIs(s0: State, s: State, e: Event, s': State, end: State, d: nat, t: nat, p: Pid)
    requires e.OnReceive? && e.it == t && Handed(ViewOf(s, t, p), ViewOf(s', t, p), e.allocs, t, p, d)
    requires d < |end.log| && OnlyAt(s0.log, end.log, p, d) && end.log[d] == s'.log[d]
    requires end.At(p).ret == s'.At(p).ret && Stashed(end.At(p)) == Stashed(s'.At(p))
    ensures ReadServed(s0, s, e, s', end, d, t, p, s.At(p).readLen)
  {
  }

  lemma ReadIsServed(states: seq<State>, events: seq<Event>, vs: seq<View>, i: nat, k: nat, t: nat, p: Pid)
    returns (j: nat, d: nat)
    requires |states| == |events| + 1 && i < k <= |events| && vs == Views(states, t, p) && ReadRun(vs, events, t, p)
    requires vs[i + 1].inLine && vs[i + 1].reading && vs[i + 1].log == vs[i].log && vs[i + 1].got == vs[i].got
    requires (forall m :: i < m < k ==> !vs[m].running) && (vs[k].reading ==> !vs[k].inLine)
    ensures i < j < k && vs[k].reading && vs[k].got == vs[i].got
    ensures ReadServed(states[i], states[j], events[j], states[j + 1], states[k], d, t, p, vs[i + 1].readLen)
  {
    j, d := ReadUntil(vs, events, t, p, i + 1, k);
    ServedIs(states[i], states[j], events[j], states[j + 1], states[k], d, t, p);
  }

  /** TtyRead, to the end: a reader that had to wait returns with the bytes that it was handed, and their number. */
  lemma ReadReturns(states: seq<State>, events: seq<Event>, i: nat, k: nat, t: nat) returns (j: nat, d: nat)
    requires GoodRun(states, events) && Inv(states[0]) && i < k < |events| && events[i].DoRead? && events[i].rt == t
    requires ReadValid(t, events[i].len, events[i].rbufOk) && |states[i].terms| > t && states[i].terms[t].readBuf == []
    requires states[k].cur == states[i].cur && forall m :: i < m < k ==> states[m].cur != states[i].cur
    ensures i < j < k && events[k].Continue?
    ensures ReadServed(states[i], states[j], events[j], states[j + 1], states[k], d, t, states[i].cur, events[i].len)
    ensures var bytes, p := states[k].log[d].bytes, states[i].cur;
            Answered(states[k], states[k + 1], |bytes|) && states[k + 1].At(p).got == states[i].At(p).got + bytes
  {
    var p := states[i].cur;
    var vs := Views(states, t, p);
    RunReads(states, events, t, p, vs);
    GoodUpTo(states, events, i);
    ReadBegins(states[i], events[i], states[i + 1], t);
    GoodUpTo(states, events, k);
    if states[k].At(p).resume == FromRead(t) { RunningNotInLine(states[k], t); }
    j, d := ReadIsServed(states, events, vs, i, k, t, p);
    ReadEnds(states[k], events[k], states[k + 1], t);
  }
}
