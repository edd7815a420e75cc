/** What each system call answers to its caller, said of one step without the functions that make it. */
module Answers {
  import opened Common
  import opened KernelState
  import opened Placement
  import opened Family
  import opened Terminals
  import opened Writers
  import opened Readers
  import opened Invariant
  import opened Steps

  // ---------------------------------------------------------------- what is common to the answers

  /** The caller goes on in user mode with r in register 0. */
  predicate Answered(s: State, s': State, r: int) {
    s'.cur == s.cur && s'.At(s.cur).resume == ToUser && s'.At(s.cur).ret == r
  }

  /** Nobody but the caller looks any different, and no queue does. */
  ghost predicate OnlyCaller(s: State, s': State) {
    && s'.procs.Keys == s.procs.Keys && (forall p :: p != s.cur ==> s'.At(p) == s.At(p))
    && s'.cur == s.cur && s'.mode == s.mode && s'.ready == s.ready && s'.blocked == s.blocked && s'.zombie == s.zombie
    && s'.births == s.births && s'.exits == s.exits && s'.reaps == s.reaps
  }

  /** Nothing at all happened but the answer r. */
  ghost predicate JustAnswered(s: State, s': State, r: int) {
    && Answered(s, s', r) && OnlyCaller(s, s') && s'.terms == s.terms && s'.log == s.log
    && s'.At(s.cur) == s.At(s.cur).(ret := r, resume := ToUser)
  }

  /** The processor goes to the head of the queue `line`, and to idle only if there is nobody. */
  predicate Dispatched(line: seq<Pid>, s': State) {
    if line == [] then s'.cur == IDLE && s'.ready == [] else [s'.cur] + s'.ready == line
  }

  /** The caller waits in the kernel, to go on at r. */
  ghost predicate Waits(s: State, s': State, r: Resume) {
    && s'.At(s.cur).resume == r && s'.blocked == s.blocked + [s.cur] && Dispatched(s.ready, s')
    && s'.procs.Keys == s.procs.Keys && (forall p :: p != s.cur ==> s'.At(p) == s.At(p).(state := s'.At(p).state))
    && s'.At(s.cur).ret == s.At(s.cur).ret && s'.At(s.cur).got == s.At(s.cur).got
  }

  lemma SwitchIs(s: State, s': State)
    requires s' == Switch(s) && IDLE in s.procs && (s.ready != [] ==> s.ready[0] in s.procs)
    ensures Dispatched(s.ready, s') && s'.procs.Keys == s.procs.Keys && s'.mode == s.mode
    ensures forall p :: s'.At(p) == s.At(p).(state := s'.At(p).state)
    ensures s'.blocked == s.blocked && s'.zombie == s.zombie && s'.terms == s.terms && s'.log == s.log
    ensures s'.exits == s.exits && s'.reaps == s.reaps && s'.births == s.births
  {
    if s.ready != [] { assert s.ready == [s.ready[0]] + s.ready[1..]; }
  }

  lemma ReadyThere(s: State)
    requires PlacementInv(s)
    ensures IDLE in s.procs && (s.ready != [] ==> s.ready[0] in s.procs)
  {
    if s.ready != [] { assert Places(s, s.ready[0], true) >= 1; }
  }

  lemma JustReturns(s: State, r: int, s': State)
    requires s.cur in s.procs && s' == Return(s, r)
    ensures JustAnswered(s, s', r)
  {
  }

  /** A call that puts the caller on the blocked queue and gives the processor away. */
  lemma BlockWaits(s: State, s0: State, r: Resume, s': State)
    requires PlacementInv(s) && s' == Switch(Block(s0, r)) && s0.procs.Keys == s.procs.Keys && s0.cur == s.cur
    requires (forall p :: p != s.cur ==> s0.At(p) == s.At(p)) && s0.ready == s.ready && s0.blocked == s.blocked
    requires s0.At(s.cur).ret == s.At(s.cur).ret && s0.At(s.cur).got == s.At(s.cur).got
    ensures Waits(s, s', r) && s'.terms == s0.terms && s'.log == s0.log
    ensures s'.At(s.cur).delay == s0.At(s.cur).delay && s'.At(s.cur).readLen == s0.At(s.cur).readLen
  {
    ReadyThere(s);
    SwitchIs(Block(s0, r), s');
  }

  // ---------------------------------------------------------------- Fork

  /** The newborn: in the table, at the end of the ready queue, with nothing done and nobody of its own. */
  ghost predicate Newborn(s: State, s': State, child: Pid) {
    && child !in s.procs && s'.procs.Keys == s.procs.Keys + {child} && s'.ready == s.ready + [child]
    && s'.births == s.births[child := |s.births|]
    && var b := s'.At(child);
       b.resume == FirstRun && b.ppid == s.cur && b.parent.None? && b.children == [] && b.delay == 0 && b.got == []
       && b.stash.None? && b.waiting == s.waiting0
  }

  /** Fork returns the child's pid to the parent. */
  lemma ForkAnswers(s: State, child: Pid, s': State)
    requires Inv(s) && Enabled(s, DoFork(child, true)) && s' == Next(s, DoFork(child, true))
    ensures Answered(s, s', child) && Newborn(s, s', child)
    ensures s'.At(s.cur) == s.At(s.cur).(children := s.At(s.cur).children + [child], ret := child)
    ensures forall p :: p != s.cur && p != child ==> s'.At(p) == s.At(p)
    ensures s'.blocked == s.blocked && s'.zombie == s.zombie && s'.terms == s.terms && s'.log == s.log
    ensures s'.exits == s.exits && s'.reaps == s.reaps
  {
    assert child in s.procs ==> Kin(s, child);
    assert s.cur in s.procs;
  }

  /** Without a pid, a frame or memory for the child the machine halts. */
  lemma ForkFails(s: State, child: Pid, s': State)
    requires Enabled(s, DoFork(child, false)) && s' == Next(s, DoFork(child, false))
    ensures s'.mode == Halted && s'.procs == s.procs && s'.ready == s.ready
  {
  }

  /** To the child Fork returns 0 when it first runs, if the parent's PCB is still there to be read. */
  lemma ChildAnswers(s: State, allocOk: bool, s': State)
    requires Inv(s) && Enabled(s, Continue(allocOk)) && s.At(s.cur).resume == FirstRun
             && s' == Next(s, Continue(allocOk))
    ensures if Good(s, Continue(allocOk)) then
              && Answered(s, s', 0) && OnlyCaller(s, s') && s'.terms == s.terms && s'.log == s.log
              && s'.At(s.cur).parent == Some(s.At(s.cur).ppid)
              && s'.At(s.cur) == s.At(s.cur).(parent := s'.At(s.cur).parent, ret := 0, resume := ToUser)
            else s'.mode == Fault
  {
  }

  // ---------------------------------------------------------------- Exit

  /** The ready queue after an exit: the parent joins it if it waits. */
  function Mourners(s: State): seq<Pid> {
    var parent := s.At(s.cur).parent;
    if parent.Some? && s.At(parent.value).waiting == 1 then s.ready + [parent.value] else s.ready
  }

  /** The caller is a zombie with that status, for the parent to collect, which is woken if it waits. */
  ghost predicate Buried(s: State, s': State, status: int) {
    && s'.zombie == s.zombie + [s.cur] && s'.At(s.cur).status == status && s'.At(s.cur).resume == Never
    && s'.exits == s.exits[s.cur := status] && s'.reaps == s.reaps && Dispatched(Mourners(s), s')
    && s'.procs.Keys == s.procs.Keys
    && forall p :: p != s.cur ==> s'.At(p) == s.At(p).(state := s'.At(p).state, waiting := s'.At(p).waiting)
  }

  /** Exit leaves the status; init's exit halts the machine. */
  lemma ExitAnswers(s: State, status: int, s': State)
    requires Inv(s) && Enabled(s, DoExit(status)) && Good(s, DoExit(status)) && s' == Next(s, DoExit(status))
    ensures if s.cur == INIT then s'.mode == Halted && s'.procs == s.procs else Buried(s, s', status)
  {
    if s.cur != INIT {
      if s.At(s.cur).parent.Some? { ParentOf(s); }
      ExitBuries(s, status, s');
    }
  }

  lemma ExitBuries(s: State, status: int, s': State)
    requires PlacementInv(s) && s.cur != INIT && s' == Exit(s, status)
    requires s.At(s.cur).parent.Some? ==> var p := s.At(s.cur).parent.value;
             p in s.procs && p != s.cur && 0 <= s.At(p).waiting <= 1
    ensures Buried(s, s', status)
  {
    var s2 := WakeParent(Bury(s, status), s.At(s.cur).parent);
    ReadyThere(s);
    MournersIs(s, status, s2);
    SwitchIs(s2, s');
  }

  lemma MournersIs(s: State, status: int, s2: State)
    requires s.cur in s.procs && s2 == WakeParent(Bury(s, status), s.At(s.cur).parent)
    requires s.At(s.cur).parent.Some? ==> var p := s.At(s.cur).parent.value;
             p in s.procs && p != s.cur && 0 <= s.At(p).waiting <= 1
    ensures s2.ready == Mourners(s) && s2.procs.Keys == s.procs.Keys && s2.zombie == s.zombie + [s.cur]
    ensures s2.At(s.cur).status == status && s2.At(s.cur).resume == Never
    ensures s2.exits == s.exits[s.cur := status] && s2.reaps == s.reaps
    ensures forall p :: p != s.cur ==> s2.At(p) == s.At(p).(state := s2.At(p).state, waiting := s2.At(p).waiting)
  {
  }

  // ---------------------------------------------------------------- Wait

  /** The first zombie in the queue whose parent is p is at k. */
  ghost predicate FirstZombie(s: State, p: Pid, k: nat) {
    k < |s.zombie| && s.At(s.zombie[k]).ppid == p && forall i :: 0 <= i < k ==> s.At(s.zombie[i]).ppid != p
  }

  /** The caller got that zombie's pid, its status is handed out, and it is gone. */
  ghost predicate Collected(s: State, s': State, k: nat)
    requires k < |s.zombie|
  {
    var z := s.zombie[k];
    && Answered(s, s', z) && s'.reaps == s.reaps + [Reaping(s.cur, z, s.At(z).status)]
    && s'.procs.Keys == s.procs.Keys - {z} && s'.zombie == s.zombie[..k] + s.zombie[k + 1..]
    && s'.ready == s.ready && s'.blocked == s.blocked && s'.exits == s.exits
    && multiset(s'.At(s.cur).children) == multiset(s.At(s.cur).children) - multiset{z}
    && forall p :: p in s'.procs && p != s.cur ==>
         s'.At(p) == s.At(p).(parent := s'.At(p).parent, state := s'.At(p).state)
         && s'.At(p).parent == (if s.At(p).ppid == z then None else s.At(p).parent)
  }

  lemma {:induction false} FirstChildAt(s: State, q: seq<Pid>, p: Pid) returns (k: nat)
    requires FirstChild(s, q, p).Some?
    ensures k < |q| && q[k] == FirstChild(s, q, p).value && s.At(q[k]).ppid == p
    ensures forall i :: 0 <= i < k ==> s.At(q[i]).ppid != p
  {
    if s.At(q[0]).ppid == p {
      k := 0;
    } else {
      var j := FirstChildAt(s, q[1..], p);
      k := j + 1;
    }
  }

  lemma NotBefore(s: State, q: seq<Pid>, p: Pid, k: nat)
    requires k < |q| && s.At(q[k]).ppid == p && forall i :: 0 <= i < k ==> s.At(q[i]).ppid != p
    ensures q[k] !in q[..k]
  {
  }

  /** The dead child's own children lose their parent, and nobody else notices. */
  lemma ReapOthers(s: State, z: Pid, s': State, p: Pid)
    requires FamilyInv(s) && z in s.procs && s' == Reap(s, z) && p in s.procs && p != s.cur && p != z
    ensures p in s'.procs && s'.At(p) == s.At(p).(parent := s'.At(p).parent, state := s'.At(p).state)
    ensures s'.At(p).parent == if s.At(p).ppid == z then None else s.At(p).parent
  {
    assert Kin(s, p) && Children(s, z);
    assert p in s.At(z).children <==> multiset(s.At(z).children)[p] > 0;
  }

  lemma ReapQueues(s: State, k: nat, s': State)
    requires Inv(s) && s.cur != IDLE && FirstZombie(s, s.cur, k) && s' == Reap(s, s.zombie[k])
    ensures s.zombie[k] in s.procs && s.zombie[k] != s.cur && s'.zombie == s.zombie[..k] + s.zombie[k + 1..]
    ensures multiset(s.At(s.cur).children) - multiset{s.zombie[k]}
            == multiset(RemoveFirst(s.At(s.cur).children, s.zombie[k]))
    ensures s.cur !in s.At(s.zombie[k]).children
  {
    var z := s.zombie[k];
    assert Places(s, z, true) >= 1;
    CurrentNotQueued(s);
    NotBefore(s, s.zombie, s.cur, k);
    RemoveFirstAt(s.zombie, z, k);
    assert Children(s, s.cur);
    assert multiset(s.At(s.cur).children)[z] == 1;
    RemoveFirstMultiset(s.At(s.cur).children, z);
    NoCycle(s, z);
  }

  lemma ReapCaller(s: State, z: Pid, s': State)
    requires s' == Reap(s, z) && z in s.procs && s.cur in s.procs && z != s.cur && s.cur !in s.At(z).children
    ensures Answered(s, s', z) && s'.At(s.cur).children == RemoveFirst(s.At(s.cur).children, z)
    ensures s'.reaps == s.reaps + [Reaping(s.cur, z, s.At(z).status)] && s'.procs.Keys == s.procs.Keys - {z}
    ensures s'.ready == s.ready && s'.blocked == s.blocked && s'.exits == s.exits
  {
  }

  lemma ReapCollects(s: State, k: nat, s': State)
    requires Inv(s) && s.cur != IDLE && FirstZombie(s, s.cur, k) && s' == Reap(s, s.zombie[k])
    ensures Collected(s, s', k)
  {
    ReapQueues(s, k, s');
    ReapCaller(s, s.zombie[k], s');
    forall p | p in s'.procs && p != s.cur
      ensures s'.At(p) == s.At(p).(parent := s'.At(p).parent, state := s'.At(p).state)
              && s'.At(p).parent == (if s.At(p).ppid == s.zombie[k] then None else s.At(p).parent)
    {
      ReapOthers(s, s.zombie[k], s', p);
    }
  }

  /** The caller waits for a child to exit. */
  ghost predicate WaitsForChild(s: State, s': State) {
    && Dispatched(s.ready, s')
    && s'.At(s.cur) == s.At(s.cur).(state := s'.At(s.cur).state, waiting := 1, resume := FromWait)
    && s'.procs.Keys == s.procs.Keys && (forall p :: p != s.cur ==> s'.At(p) == s.At(p).(state := s'.At(p).state))
    && s'.zombie == s.zombie && s'.blocked == s.blocked && s'.exits == s.exits && s'.reaps == s.reaps
  }

  ghost predicate HasChild(s: State, p: Pid) { exists c :: c in s.procs && s.At(c).ppid == p }

  /** Wait fails exactly when the caller has no child, collects the first zombie child there is, and otherwise waits. */
  lemma WaitAnswers(s: State, s': State) returns (k: nat)
    requires Inv(s) && Enabled(s, DoWait) && s' == Next(s, DoWait)
    ensures if !HasChild(s, s.cur) then JustAnswered(s, s', ERROR)
            else if HasZombie(s, s.cur) then FirstZombie(s, s.cur, k) && Collected(s, s', k)
            else WaitsForChild(s, s')
  {
    k := WaitIs(s, s');
  }

  lemma ChildrenThere(s: State)
    requires Inv(s)
    ensures s.At(s.cur).children == [] <==> !HasChild(s, s.cur)
  {
    assert Children(s, s.cur);
    if s.At(s.cur).children != [] {
      var c := s.At(s.cur).children[0];
      assert multiset(s.At(s.cur).children)[c] > 0;
      assert c in s.procs && s.At(c).ppid == s.cur;
    }
    if c :| c in s.procs && s.At(c).ppid == s.cur { assert multiset(s.At(s.cur).children)[c] == 1; }
  }

  lemma WaitIs(s: State, s': State) returns (k: nat)
    requires Inv(s) && s.cur != IDLE && s.At(s.cur).resume == ToUser && s' == Wait(s)
    ensures if !HasChild(s, s.cur) then JustAnswered(s, s', ERROR)
            else if HasZombie(s, s.cur) then FirstZombie(s, s.cur, k) && Collected(s, s', k)
            else WaitsForChild(s, s')
  {
    k := 0;
    ChildrenThere(s);
    if s.At(s.cur).children == [] {
      JustReturns(s, ERROR, s');
    } else if FirstChild(s, s.zombie, s.cur).Some? {
      k := FirstChildAt(s, s.zombie, s.cur);
      ReapCollects(s, k, s');
    } else {
      WaitBlocks(s, s');
    }
  }

  lemma WaitBlocks(s: State, s': State)
    requires PlacementInv(s) && s' == Switch(Waiting(s))
    ensures WaitsForChild(s, s')
  {
    ReadyThere(s);
    SwitchIs(Waiting(s), s');
  }

  /** Woken inside Wait, the caller collects a child after all. */
  lemma WaitResumes(s: State, allocOk: bool, s': State) returns (k: nat)
    requires Inv(s) && Enabled(s, Continue(allocOk)) && s.At(s.cur).resume == FromWait
    requires s' == Next(s, Continue(allocOk))
    ensures FirstZombie(s, s.cur, k) && Collected(s, s', k)
  {
    k := WaitAgainIs(s, s');
  }

  lemma WaitAgainIs(s: State, s': State) returns (k: nat)
    requires Inv(s) && s.At(s.cur).resume == FromWait && s' == WaitAgain(s)
    ensures FirstZombie(s, s.cur, k) && Collected(s, s', k)
  {
    CurrentNotQueued(s);
    ResumedWaitFinds(s);
    k := FirstChildAt(s, s.zombie, s.cur);
    ReapCollects(s, k, s');
  }

  // ---------------------------------------------------------------- Delay

  /** Delay of nothing succeeds at once, one below -1 halts the machine, and any other waits with its ticks. */
  lemma DelayAnswers(s: State, n: int, s': State)
    requires Inv(s) && Enabled(s, DoDelay(n)) && s' == Next(s, DoDelay(n))
    ensures if n == 0 then JustAnswered(s, s', SUCCESS)
            else if n < -1 then s'.mode == Halted && s'.procs == s.procs
            else Waits(s, s', FromDelay) && s'.At(s.cur).delay == n && s'.terms == s.terms && s'.log == s.log
  {
    DelayIs(s, n, s');
  }

  lemma DelayIs(s: State, n: int, s': State)
    requires PlacementInv(s) && s' == Delay(s, n)
    ensures if n == 0 then JustAnswered(s, s', SUCCESS)
            else if n < -1 then s'.mode == Halted && s'.procs == s.procs
            else Waits(s, s', FromDelay) && s'.At(s.cur).delay == n && s'.terms == s.terms && s'.log == s.log
  {
    if n == 0 {
      JustReturns(s, SUCCESS, s');
    } else if n >= -1 {
      BlockWaits(s, s.Put(s.cur, s.At(s.cur).(delay := n)), FromDelay, s');
    }
  }

  /** After the last tick, it succeeds as well. */
  lemma DelayResumes(s: State, allocOk: bool, s': State)
    requires Inv(s) && Enabled(s, Continue(allocOk)) && s.At(s.cur).resume == FromDelay
    requires s' == Next(s, Continue(allocOk))
    ensures JustAnswered(s, s', SUCCESS)
  {
  }

  // ---------------------------------------------------------------- TtyRead

  /** Terminals other than t are the same. */
  ghost predicate OtherTerminals(s: State, s': State, t: nat) {
    |s'.terms| == |s.terms| && forall u :: 0 <= u < |s.terms| && u != t ==> s'.terms[u] == s.terms[u]
  }

  /** The caller has the first n bytes of the buffer, and the rest stays there. */
  ghost predicate ReadsNow(s: State, s': State, t: nat, n: nat)
    requires t < |s.terms| && n <= |s.terms[t].readBuf|
  {
    var buf := s.terms[t].readBuf;
    && Answered(s, s', n) && OnlyCaller(s, s') && OtherTerminals(s, s', t)
    && s'.At(s.cur) == s.At(s.cur).(ret := n, resume := ToUser, got := s.At(s.cur).got + buf[..n])
    && s'.terms[t] == s.terms[t].(readBuf := s'.terms[t].readBuf) && buf == buf[..n] + s'.terms[t].readBuf
    && s'.log == s.log + [Delivery(t, s.cur, buf[..n], false)]
  }

  /** The caller waits for terminal t, with the length it asked for. */
  ghost predicate ReadsLater(s: State, s': State, t: nat, len: int)
    requires t < |s.terms|
  {
    && Waits(s, s', FromRead(t)) && s'.At(s.cur).readLen == len && s'.log == s.log && OtherTerminals(s, s', t)
    && s'.terms[t] == s.terms[t].(readers := s.terms[t].readers + [s.cur])
  }

  predicate ReadValid(t: int, len: int, bufOk: bool) { 0 <= t < NUM_TERMINALS && bufOk && len > 0 }

  /** TtyRead refuses a bad call, hands over what is there up to the length, and else waits for bytes. */
  lemma ReadAnswers(s: State, t: int, len: int, bufOk: bool, allocOk: bool, s': State)
    requires Inv(s) && Enabled(s, DoRead(t, len, bufOk, allocOk)) && s' == Next(s, DoRead(t, len, bufOk, allocOk))
    ensures if !ReadValid(t, len, bufOk) then JustAnswered(s, s', ERROR)
            else if s.terms[t].readBuf == [] then ReadsLater(s, s', t, len)
            else if allocOk then ReadsNow(s, s', t, Min(len, |s.terms[t].readBuf|))
            else JustAnswered(s, s', ERROR)
  {
    ReadIs(s, t, len, bufOk, allocOk, s');
  }

  lemma ReadIs(s: State, t: int, len: int, bufOk: bool, allocOk: bool, s': State)
    requires PlacementInv(s) && |s.terms| == NUM_TERMINALS && s' == TtyRead(s, t, len, bufOk, allocOk)
    ensures if !ReadValid(t, len, bufOk) then JustAnswered(s, s', ERROR)
            else if s.terms[t].readBuf == [] then ReadsLater(s, s', t, len)
            else if allocOk then ReadsNow(s, s', t, Min(len, |s.terms[t].readBuf|))
            else JustAnswered(s, s', ERROR)
  {
    if !ReadValid(t, len, bufOk) {
      JustReturns(s, ERROR, s');
    } else if s.terms[t].readBuf == [] {
      var x := s.terms[t];
      var s0 := s.PutTerm(t, x.(readers := x.readers + [s.cur])).Put(s.cur, s.At(s.cur).(readLen := len));
      BlockWaits(s, s0, FromRead(t), s');
    } else if !allocOk {
      JustReturns(s, ERROR, s');
    } else {
      ReadsSome(s, t, len, s');
    }
  }

  lemma ReadsSome(s: State, t: nat, len: nat, s': State)
    requires s.cur in s.procs && t < NUM_TERMINALS == |s.terms| && s.terms[t].readBuf != [] && len > 0
    requires s' == TtyRead(s, t, len, true, true)
    ensures ReadsNow(s, s', t, Min(len, |s.terms[t].readBuf|))
  {
  }

  // ---------------------------------------------------------------- TtyWrite

  /** The caller has taken terminal t, and the first line of its message is on its way. */
  ghost predicate Transmits(s: State, s': State, t: nat, msg: seq<Byte>)
    requires t < |s.terms|
  {
    var x, x', n := s.terms[t], s'.Term(t), Min(|msg|, TERMINAL_MAX_LINE);
    && Waits(s, s', FromIo(t, |msg|)) && s'.log == s.log && OtherTerminals(s, s', t)
    && x'.inUse && x'.busy && x'.writer == Some(s.cur) && x'.handed.None? && x'.writeBuf == msg && x'.position == n
    && x'.chunks == x.chunks + [msg[..n]] && x'.writers == x.writers && x'.done == x.done
    && x'.readers == x.readers && x'.readBuf == x.readBuf && x'.received == x.received
  }

  /** The caller waits for terminal t with its message. */
  ghost predicate Queues(s: State, s': State, t: nat, msg: seq<Byte>)
    requires t < |s.terms|
  {
    var x := s.terms[t];
    && Waits(s, s', FromLock(t, msg)) && s'.log == s.log && OtherTerminals(s, s', t)
    && s'.Term(t) == x.(writers := x.writers + [s.cur], calls := x.calls + [Message(s.cur, msg)])
  }

  predicate WriteValid(t: int, msg: seq<Byte>, bufOk: bool) { 0 <= t < NUM_TERMINALS && bufOk && msg != [] }

  /** TtyWrite refuses a bad call, waits for a terminal in use, and else transmits unless there is no memory for the
      message. */
  lemma WriteAnswers(s: State, t: int, msg: seq<Byte>, bufOk: bool, allocOk: bool, s': State)
    requires Inv(s) && Enabled(s, DoWrite(t, msg, bufOk, allocOk)) && s' == Next(s, DoWrite(t, msg, bufOk, allocOk))
    ensures if !WriteValid(t, msg, bufOk) then JustAnswered(s, s', ERROR)
            else if s.terms[t].inUse then Queues(s, s', t, msg)
            else if allocOk then
              Transmits(s, s', t, msg) && s'.terms[t].calls == s.terms[t].calls + [Message(s.cur, msg)]
            else JustAnswered(s, s', ERROR)
  {
    if 0 <= t < NUM_TERMINALS { assert WriterInv(s, t); }
    WriteIs(s, t, msg, bufOk, allocOk, s');
  }

  lemma WriteIs(s: State, t: int, msg: seq<Byte>, bufOk: bool, allocOk: bool, s': State)
    requires PlacementInv(s) && |s.terms| == NUM_TERMINALS && s' == TtyWrite(s, t, msg, bufOk, allocOk)
    requires 0 <= t < NUM_TERMINALS ==> WriterInv(s, t)
    ensures if !WriteValid(t, msg, bufOk) then JustAnswered(s, s', ERROR)
            else if s.terms[t].inUse then Queues(s, s', t, msg)
            else if allocOk then
              Transmits(s, s', t, msg) && s'.terms[t].calls == s.terms[t].calls + [Message(s.cur, msg)]
            else JustAnswered(s, s', ERROR)
  {
    if !WriteValid(t, msg, bufOk) {
      JustReturns(s, ERROR, s');
    } else {
      var x := s.terms[t];
      var x1 := x.(calls := x.calls + [Message(s.cur, msg)]);
      if x.inUse {
        QueuesLast(s, t, msg, allocOk, s');
      } else if allocOk {
        TransmitsFirst(s, s.PutTerm(t, x1), t, msg, s');
      } else {
        GivesUpAlone(s, t, msg, s');
      }
    }
  }

  lemma QueuesLast(s: State, t: nat, msg: seq<Byte>, allocOk: bool, s': State)
    requires PlacementInv(s) && t < NUM_TERMINALS == |s.terms| && s.terms[t].inUse && msg != []
    requires s' == TtyWrite(s, t, msg, true, allocOk)
    ensures Queues(s, s', t, msg)
  {
    var x := s.terms[t];
    var x1 := x.(calls := x.calls + [Message(s.cur, msg)], writers := x.writers + [s.cur]);
    BlockWaits(s, s.PutTerm(t, x1), FromLock(t, msg), s');
  }

  /** Taking the terminal, whatever was done to its list of calls before. */
  lemma TransmitsFirst(s: State, s0: State, t: nat, msg: seq<Byte>, s': State)
    requires PlacementInv(s) && t < |s.terms| && s' == Begin(s0, t, msg, true)
    requires s0 == s.PutTerm(t, s.terms[t].(calls := s0.Term(t).calls))
    ensures Transmits(s, s', t, msg) && s'.terms[t].calls == s0.terms[t].calls
  {
    BlockWaits(s, s0.PutTerm(t, Started(s0.terms[t], msg, s.cur)), FromIo(t, |msg|), s');
  }

  /** Without memory for the message a free terminal is left as it was. */
  lemma GivesUpAlone(s: State, t: nat, msg: seq<Byte>, s': State)
    requires s.cur in s.procs && t < NUM_TERMINALS == |s.terms| && WriterInv(s, t) && !s.terms[t].inUse && msg != []
    requires s' == TtyWrite(s, t, msg, true, false)
    ensures JustAnswered(s, s', ERROR)
  {
    var x := s.terms[t];
    var x1 := x.(calls := x.calls + [Message(s.cur, msg)]);
    assert x1.calls[..x.done] + x1.calls[x.done + 1..] == x.calls;
    assert GivenUp(x1) == x;
    JustReturns(s, ERROR, s');
  }

  /** The caller gives the terminal up, and its call with it. */
  ghost predicate GivesUp(s: State, s': State, t: nat)
    requires t < |s.terms|
  {
    var x, x' := s.terms[t], s'.Term(t);
    && Answered(s, s', ERROR) && OnlyCaller(s, s') && s'.log == s.log && OtherTerminals(s, s', t)
    && !x'.inUse && x'.handed.None? && x'.writers == [] && x'.done == x.done < |x.calls|
    && x'.calls == x.calls[..x.done] + x.calls[x.done + 1..] && x'.chunks == x.chunks
  }

  /** Handed the terminal, the caller transmits, or gives up without memory. */
  lemma LockAnswers(s: State, t: nat, msg: seq<Byte>, allocOk: bool, s': State)
    requires Inv(s) && Enabled(s, Continue(allocOk)) && Good(s, Continue(allocOk))
    requires s.At(s.cur).resume == FromLock(t, msg) && s' == Next(s, Continue(allocOk))
    ensures t < |s.terms|
    ensures if allocOk then Transmits(s, s', t, msg) && s'.terms[t].calls == s.terms[t].calls
            else GivesUp(s, s', t)
  {
    CurrentNotQueued(s);
    assert LockInv(s, s.cur);
    assert WriterInv(s, t);
    LockIs(s, t, msg, allocOk, s');
  }

  lemma LockIs(s: State, t: nat, msg: seq<Byte>, allocOk: bool, s': State)
    requires PlacementInv(s) && t < |s.terms| && s' == Begin(s, t, msg, allocOk)
    requires !allocOk ==> s.terms[t].writers == [] && s.terms[t].done < |s.terms[t].calls|
    ensures if allocOk then Transmits(s, s', t, msg) && s'.terms[t].calls == s.terms[t].calls
            else GivesUp(s, s', t)
  {
    if allocOk { TransmitsFirst(s, s, t, msg, s'); }
  }

  /** When the last line is out, TtyWrite returns the length of the message. */
  lemma IoAnswers(s: State, t: nat, len: nat, allocOk: bool, s': State)
    requires Inv(s) && Enabled(s, Continue(allocOk)) && s.At(s.cur).resume == FromIo(t, len)
    requires s' == Next(s, Continue(allocOk))
    ensures JustAnswered(s, s', len)
  {
  }

  /** A woken reader gets what was stashed for it, and the number that was put in register 0. */
  lemma StashAnswers(s: State, t: nat, allocOk: bool, s': State)
    requires Inv(s) && Enabled(s, Continue(allocOk)) && s.At(s.cur).resume == FromRead(t)
    requires s' == Next(s, Continue(allocOk))
    ensures Answered(s, s', s.At(s.cur).ret) && OnlyCaller(s, s') && s'.terms == s.terms && s'.log == s.log
    ensures s'.At(s.cur).got == s.At(s.cur).got + Stashed(s.At(s.cur)) && s'.At(s.cur).stash.None?
  {
    assert StashInv(s, s.cur);
  }

  // ---------------------------------------------------------------- transmit trap

  /** The next line is on its way, and nothing else happens. */
  ghost predicate NextLine(s: State, s': State, t: nat)
    requires t < |s.terms|
  {
    var x, x' := s.terms[t], s'.Term(t);
    && s'.procs == s.procs && s'.ready == s.ready && s'.blocked == s.blocked && OtherTerminals(s, s', t)
    && x'.position == Min(x.position + TERMINAL_MAX_LINE, |x.writeBuf|) && x.position < x'.position <= |x.writeBuf|
    && x'.chunks == x.chunks + [x.writeBuf[x.position..x'.position]]
    && x' == x.(position := x'.position, chunks := x'.chunks)
  }

  /** The writer is woken with the length of its message, then the writer that has waited longest, which
      holds the terminal from now on. */
  ghost predicate LastLine(s: State, s': State, t: nat)
    requires t < |s.terms| && s.terms[t].writer.Some?
  {
    var x, x', w := s.terms[t], s'.Term(t), s.terms[t].writer.value;
    var woken := [w] + if x.writers == [] then [] else [x.writers[0]];
    && s'.ready == s.ready + woken && multiset(s'.blocked) == multiset(s.blocked) - multiset(woken)
    && s'.At(w).ret == |x.writeBuf| && OtherTerminals(s, s', t)
    && (forall p :: s'.At(p) == s.At(p).(state := s'.At(p).state, ret := if p == w then |x.writeBuf| else s.At(p).ret))
    && x'.done == x.done + 1 && x'.writer.None? && !x'.busy && x'.chunks == x.chunks && x'.calls == x.calls
    && (x'.inUse <==> x.writers != []) && x'.readers == x.readers && x'.readBuf == x.readBuf
    && (if x.writers == [] then x'.handed.None? && x'.writers == []
        else x'.handed.Some? && [x'.handed.value] + x'.writers == x.writers)
  }

  /** A transmit trap sends the next line, or ends the call. */
  lemma TransmitAnswers(s: State, t: nat, s': State)
    requires Inv(s) && Enabled(s, OnTransmit(t)) && s' == Next(s, OnTransmit(t))
    ensures s.terms[t].writer.Some? && s'.cur == s.cur && s'.log == s.log && s'.procs.Keys == s.procs.Keys
    ensures if s.terms[t].position < |s.terms[t].writeBuf| then NextLine(s, s', t) else LastLine(s, s', t)
  {
    assert WriterInv(s, t);
    HolderBlocked(s, t);
    TransmitIs(s, t, s');
  }

  lemma TransmitIs(s: State, t: nat, s': State)
    requires PlacementInv(s) && t < |s.terms| && s.terms[t].position <= |s.terms[t].writeBuf| && s.terms[t].busy
    requires s.terms[t].handed.None? && s' == TransmitTrap(s, t) && BothBlocked(s, s.terms[t])
    requires s.terms[t].writers != [] ==> s.terms[t].inUse
    ensures s'.cur == s.cur && s'.log == s.log && s'.procs.Keys == s.procs.Keys
    ensures if s.terms[t].position < |s.terms[t].writeBuf| then NextLine(s, s', t) else LastLine(s, s', t)
  {
    var x := s.terms[t];
    if x.position < |x.writeBuf| {
      NextIs(s, t, s');
    } else {
      WakesBoth(s, x, WakeWriters(s, x));
      LastIs(s, t, WakeWriters(s, x), s');
    }
  }

  lemma NextIs(s: State, t: nat, s': State)
    requires t < |s.terms| && s.terms[t].position < |s.terms[t].writeBuf| && s.terms[t].busy && s' == TransmitTrap(s, t)
    ensures s'.cur == s.cur && s'.log == s.log && NextLine(s, s', t)
  {
    assert s'.terms[t] == Advanced(s.terms[t]);
  }

  lemma LastIs(s: State, t: nat, s1: State, s': State)
    requires t < |s.terms| && Woke(s, s.terms[t], s1) && s' == s1.PutTerm(t, HandOver(s.terms[t]))
    requires s.terms[t].handed.None? && (s.terms[t].writers != [] ==> s.terms[t].inUse)
    ensures s'.cur == s.cur && s'.log == s.log && s'.procs.Keys == s.procs.Keys && LastLine(s, s', t)
  {
    var x := s.terms[t];
    if x.writers != [] { assert x.writers == [x.writers[0]] + x.writers[1..]; }
    assert forall p :: s'.At(p) == s1.At(p);
  }

  /** What waking the writer and the next one does. */
  ghost predicate Woke(s: State, x: Terminal, s1: State) {
    && x.writer.Some?
    && var w := x.writer.value;
       var woken := [w] + if x.writers == [] then [] else [x.writers[0]];
       && s1.ready == s.ready + woken && multiset(s1.blocked) == multiset(s.blocked) - multiset(woken)
       && s1.procs.Keys == s.procs.Keys && s1.terms == s.terms && s1.cur == s.cur && s1.log == s.log
       && forall p ::
            s1.At(p) == s.At(p).(state := s1.At(p).state, ret := if p == w then |x.writeBuf| else s.At(p).ret)
  }

  /** s1 is s with the processes ps moved from the blocked to the ready queue. */
  ghost predicate Readied(s: State, s1: State, ps: seq<Pid>) {
    && s1.ready == s.ready + ps && multiset(s1.blocked) == multiset(s.blocked) - multiset(ps)
    && s1.procs.Keys == s.procs.Keys && s1.terms == s.terms && s1.cur == s.cur && s1.log == s.log
    && forall p :: s1.At(p) == s.At(p).(state := s1.At(p).state)
  }

  lemma WakesOne(s: State, w: Pid, s1: State)
    requires s1 == Wake(s, w) && w in s.procs && w in s.blocked
    ensures Readied(s, s1, [w])
  {
    RemoveFirstMultiset(s.blocked, w);
  }

  lemma WakesNext(s: State, s1: State, ps: seq<Pid>, w: Pid, s2: State)
    requires Readied(s, s1, ps) && Readied(s1, s2, [w])
    ensures Readied(s, s2, ps + [w])
  {
    assert s2.ready == s.ready + (ps + [w]);
    assert multiset(ps + [w]) == multiset(ps) + multiset([w]);
  }

  lemma WakesBoth(s: State, x: Terminal, s1: State)
    requires PlacementInv(s) && BothBlocked(s, x) && s1 == WakeWriters(s, x)
    ensures Woke(s, x, s1)
  {
    var w, s0 := x.writer.value, Credited(s, x);
    assert Places(s, w, true) >= 1;
    WakesOne(s0, w, Wake(s0, w));
    if x.writers != [] {
      assert Places(s, x.writers[0], true) >= 1;
      RemoveFirstMember(s.blocked, w);
      WakesOne(Wake(s0, w), x.writers[0], s1);
      WakesNext(s0, Wake(s0, w), [w], x.writers[0], s1);
    }
    CreditedWoke(s, x, s1);
  }

  lemma CreditedWoke(s: State, x: Terminal, s1: State)
    requires x.writer.Some? && x.writer.value in s.procs
    requires Readied(Credited(s, x), s1, [x.writer.value] + if x.writers == [] then [] else [x.writers[0]])
    ensures Woke(s, x, s1)
  {
  }

  // ---------------------------------------------------------------- clock trap

  /** Those of ps whose last tick this is. */
  function Due(s: State, ps: seq<Pid>): seq<Pid> {
    if ps == [] then [] else (if s.At(ps[0]).delay == 1 then [ps[0]] else []) + Due(s, ps[1..])
  }

  lemma {:induction false} DueSame(s: State, s1: State, ps: seq<Pid>)
    requires forall p :: p in ps ==> s1.At(p).delay == s.At(p).delay
    ensures Due(s1, ps) == Due(s, ps)
  {
    if ps != [] {
      assert ps[0] in ps && forall p :: p in ps[1..] ==> p in ps;
      DueSame(s, s1, ps[1..]);
    }
  }

  /** One tick less for p, if it has any. */
  function CountedDown(b: Pcb, b': Pcb): Pcb {
    b.(state := b'.state, delay := if b.delay > 0 then b.delay - 1 else b.delay)
  }

  /** s1 is s after the processes ps were visited. */
  ghost predicate Swept(s: State, ps: seq<Pid>, s1: State) {
    && s1.ready == s.ready + Due(s, ps) && s1.cur == s.cur && s1.procs.Keys == s.procs.Keys
    && forall p :: s1.At(p) == if p in ps then CountedDown(s.At(p), s1.At(p)) else s.At(p)
  }

  lemma VisitSwept(s: State, p: Pid, s1: State)
    requires p in s.procs && s1 == Visit(s, p)
    ensures Swept(s, [p], s1)
  {
    assert Due(s, [p]) == if s.At(p).delay == 1 then [p] else [];
    assert forall q :: q != p ==> s1.At(q) == s.At(q);
  }

  lemma SweptMore(s: State, p: Pid, s0: State, ps: seq<Pid>, s1: State)
    requires Swept(s, [p], s0) && Swept(s0, ps, s1) && p !in ps
    ensures Swept(s, [p] + ps, s1)
  {
    assert Due(s, [p]) == if s.At(p).delay == 1 then [p] else [];
    assert ([p] + ps)[1..] == ps;
    DueSame(s, s0, ps);
    forall q ensures s1.At(q) == if q in [p] + ps then CountedDown(s.At(q), s1.At(q)) else s.At(q) {
      assert q in [p] <==> q == p;
    }
  }

  lemma {:induction false} VisitAllSwept(s: State, ps: seq<Pid>, s1: State)
    requires (forall p :: p in ps ==> p in s.procs && multiset(ps)[p] == 1) && s1 == VisitAll(s, ps)
    ensures Swept(s, ps, s1)
    decreases |ps|
  {
    if ps != [] {
      assert ps == [ps[0]] + ps[1..];
      var s0 := Visit(s, ps[0]);
      VisitSwept(s, ps[0], s0);
      forall p | p in ps[1..]
        ensures p in ps && p != ps[0] && multiset(ps[1..])[p] == 1 { assert multiset(ps)[p] == 1; }
      VisitAllSwept(s0, ps[1..], s1);
      SweptMore(s, ps[0], s0, ps[1..], s1);
    }
  }

  /** The queue behind the processor: those ready, then those whose delay ends. */
  function Line(s: State): seq<Pid> { s.ready + Due(s, s.blocked) }

  /** A clock trap counts every delay down, makes those due ready, and sends the current process, unless it is
      idle, to the end of the line and dispatches the head; with nobody in line it goes on. */
  lemma ClockAnswers(s: State, s': State)
    requires Inv(s) && Enabled(s, OnClock) && s' == Next(s, OnClock)
    ensures if Line(s) == [] then s'.cur == s.cur && s'.ready == []
            else Dispatched(Line(s) + if s.cur == IDLE then [] else [s.cur], s')
    ensures s'.procs.Keys == s.procs.Keys
    ensures forall p :: s'.At(p) == if p in s.blocked then CountedDown(s.At(p), s'.At(p))
                                    else s.At(p).(state := s'.At(p).state)
  {
    BlockedOnce(s);
    VisitAllSwept(s, s.blocked, Sweep(s));
    ReadyThere(Sweep(s)) by { SweepInv(s, Sweep(s)); }
    TickIs(Sweep(s), s.ticks + 1, s');
  }

  lemma BlockedOnce(s: State)
    requires PlacementInv(s)
    ensures forall p :: p in s.blocked ==> p in s.procs && multiset(s.blocked)[p] == 1
  {
    forall p | p in s.blocked ensures p in s.procs && multiset(s.blocked)[p] == 1 { assert Places(s, p, true) <= 1; }
  }

  lemma TickIs(s: State, n: nat, s': State)
    requires s' == Tick(s, n) && s.cur in s.procs && (s.ready != [] ==> s.ready[0] in s.procs)
    requires s.At(s.cur).state == Running
    ensures if s.ready == [] then s'.cur == s.cur && s'.ready == []
            else Dispatched(s.ready + if s.cur == IDLE then [] else [s.cur], s')
    ensures s'.procs.Keys == s.procs.Keys
    ensures forall p :: s'.At(p) == s.At(p).(state := s'.At(p).state)
  {
    if s.ready != [] { assert s.ready == [s.ready[0]] + s.ready[1..]; }
  }
}
