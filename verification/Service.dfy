/** What the receive trap hands to the processes that wait for a terminal. */
module Service {
  import opened Common
  import opened KernelState
  import opened Placement
  import opened Terminals
  import opened Writers
  import opened Readers
  import opened Invariant
  import opened TtySteps
  import opened Answers

  /** The i-th malloc of the trap; they succeed once the list is used up. */
  predicate AllocAt(allocs: seq<bool>, i: int)
    requires i >= 0
  {
    i < |allocs| ==> allocs[i]
  }

  /** What terminal t had received and not handed out before its i-th entry in the log. */
  function Left(received: seq<Byte>, log: seq<Delivery>, t: nat, i: nat): seq<Byte>
    requires i <= |log|
  {
    var n := |FromUpTo(log, t, i)|;
    if n <= |received| then received[n..] else []
  }

  /** In a good state that is what stands in the terminal's buffer, when all entries are counted. */
  lemma LeftIsBuffer(s: State, t: nat)
    requires Inv(s) && t < |s.terms|
    ensures Left(s.terms[t].received, s.log, t, |s.log|) == s.terms[t].readBuf
  {
    assert ReaderInv(s, t);
  }

  /** As much of `left` as a reader of len bytes gets. */
  function Share(left: seq<Byte>, len: int, allocOk: bool): (r: seq<Byte>)
    ensures |r| <= |left|
  {
    if allocOk && len > 0 then left[..Min(len, |left|)] else []
  }

  /** Entry i of the log, the k-th of this trap, hands the k-th reader its share of what was left, which was not
      nothing; the reader finds that in its stash and the number in register 0. */
  ghost predicate HandedAt(s: State, s': State, t: nat, allocs: seq<bool>, i: nat)
    requires t < |s.terms| && t < |s'.terms|
  {
    var k := i - |s.log|;
    && 0 <= k < |s.terms[t].readers| && i < |s'.log|
    && var r, left := s.terms[t].readers[k], Left(s'.terms[t].received, s'.log, t, i);
       var bytes := Share(left, s.At(r).readLen, AllocAt(allocs, k));
       && left != [] && s'.log[i] == Delivery(t, r, bytes, true)
       && s'.At(r) == s.At(r).(state := s'.At(r).state, ret := |bytes|,
                               stash := if AllocAt(allocs, k) then Some(bytes) else s.At(r).stash)
  }

  /** Each of the first n readers has its share, and nobody else noticed. */
  ghost predicate Shares(s: State, s': State, t: nat, n: nat, allocs: seq<bool>)
    requires t < |s.terms| && t < |s'.terms|
  {
    && |s'.log| == |s.log| + n && s'.log[..|s.log|] == s.log && n <= |s.terms[t].readers|
    && (forall i :: |s.log| <= i < |s'.log| ==> HandedAt(s, s', t, allocs, i))
    && (forall p :: p !in s.terms[t].readers[..n] ==> s'.At(p) == s.At(p))
  }

  /** The first n readers left the terminal's queue and are ready, in order. */
  ghost predicate Wakes(s: State, s': State, t: nat, n: nat)
    requires t < |s.terms|
  {
    && |s'.terms| == |s.terms| && n <= |s.terms[t].readers| && s'.terms[t].readers == s.terms[t].readers[n..]
    && s'.ready == s.ready + s.terms[t].readers[..n]
    && multiset(s'.blocked) == multiset(s.blocked) - multiset(s.terms[t].readers[..n])
    && s'.cur == s.cur && s'.procs.Keys == s.procs.Keys && OtherTerminals(s, s', t)
  }

  /** n readers were served, and then there was no reader left or nothing more to hand out. */
  ghost predicate HandsOut(s: State, s': State, t: nat, n: nat, allocs: seq<bool>)
    requires t < |s.terms|
  {
    && Wakes(s, s', t, n) && Shares(s, s', t, n, allocs)
    && (s'.terms[t].readers == [] || s'.terms[t].readBuf == [])
  }

  lemma {:induction false} FromPrefix(log: seq<Delivery>, more: seq<Delivery>, t: nat, n: nat)
    requires n <= |log| <= |more| && more[..|log|] == log
    ensures FromUpTo(more, t, n) == FromUpTo(log, t, n)
  {
    if n > 0 {
      FromPrefix(log, more, t, n - 1);
      assert more[n - 1] == more[..|log|][n - 1];
    }
  }

  /** The head of the queue has its share. */
  lemma HeadHanded(s: State, t: nat, allocs: seq<bool>, s1: State, s': State)
    requires t < |s.terms| && ReaderCore(s, t) && s.terms[t].readers != [] && s.terms[t].readBuf != []
    requires Served(s, s1, t, s.terms[t].readers[0], Handout(s, t, NextAlloc(allocs)))
    requires |s'.terms| == |s.terms| && s'.terms[t].received == s.terms[t].received && |s1.log| <= |s'.log|
    requires s'.log[..|s1.log|] == s1.log && s'.At(s.terms[t].readers[0]) == s1.At(s.terms[t].readers[0])
    ensures HandedAt(s, s', t, allocs, |s.log|)
  {
    var r := s.terms[t].readers[0];
    assert RoleOf(s, r).readLen > 0;
    assert s'.log[..|s.log|] == s1.log[..|s.log|] == s.log;
    FromPrefix(s.log, s'.log, t, |s.log|);
    assert Left(s'.terms[t].received, s'.log, t, |s.log|) == s.terms[t].readBuf;
    assert s'.log[|s.log|] == s'.log[..|s1.log|][|s.log|] == s1.log[|s.log|];
  }

  lemma HandedLater(s: State, t: nat, allocs: seq<bool>, s1: State, s': State, i: nat)
    requires t < |s.terms| && ReaderCore(s, t) && s.terms[t].readers != []
    requires Served(s, s1, t, s.terms[t].readers[0], Handout(s, t, NextAlloc(allocs)))
    requires t < |s'.terms| && HandedAt(s1, s', t, LaterAllocs(allocs), i)
    ensures HandedAt(s, s', t, allocs, i)
  {
    var k := i - |s1.log|;
    assert s1.terms[t].readers[k] == s.terms[t].readers[k + 1] != s.terms[t].readers[0];
    assert AllocAt(LaterAllocs(allocs), k) == AllocAt(allocs, k + 1);
  }

  lemma NothingHanded(s: State, t: nat, allocs: seq<bool>)
    requires t < |s.terms| && (s.terms[t].readers == [] || s.terms[t].readBuf == [])
    ensures HandsOut(s, s, t, 0, allocs)
  {
  }

  /** The head was served, which gave s1, and after it n more. */
  lemma SharesMore(s: State, t: nat, allocs: seq<bool>, s1: State, n: nat, s': State)
    requires t < |s.terms| && ReaderCore(s, t) && s.terms[t].readers != [] && s.terms[t].readBuf != []
    requires Served(s, s1, t, s.terms[t].readers[0], Handout(s, t, NextAlloc(allocs))) && |s'.terms| == |s.terms|
    requires Shares(s1, s', t, n, LaterAllocs(allocs)) && s'.terms[t].received == s.terms[t].received
    ensures Shares(s, s', t, n + 1, allocs)
  {
    var q := s.terms[t].readers;
    OneMore(q, n);
    HeadNotLater(s, t, n);
    HeadHanded(s, t, allocs, s1, s');
    forall i | |s.log| <= i < |s'.log| ensures HandedAt(s, s', t, allocs, i) {
      if i > |s.log| { HandedLater(s, t, allocs, s1, s', i); }
    }
    assert s'.log[..|s.log|] == s1.log[..|s.log|] == s.log;
    forall p | p !in q[..n + 1] ensures s'.At(p) == s.At(p) {
      assert p != q[0] && p !in q[1..][..n];
    }
  }

  lemma HeadNotLater(s: State, t: nat, n: nat)
    requires t < |s.terms| && ReaderCore(s, t) && n < |s.terms[t].readers|
    ensures s.terms[t].readers[0] !in s.terms[t].readers[1..][..n]
  {
  }

  lemma WakesMore(s: State, t: nat, s1: State, n: nat, s': State, r: Pid, d: Option<seq<Byte>>)
    requires t < |s.terms| && Served(s, s1, t, r, d) && HeadReadied(s, s1, r) && Wakes(s1, s', t, n)
    ensures Wakes(s, s', t, n + 1)
  {
    OneMore(s.terms[t].readers, n);
    assert s'.ready == s.ready + s.terms[t].readers[..n + 1];
  }

  lemma OneMore(q: seq<Pid>, n: nat)
    requires n < |q|
    ensures q[..n + 1] == [q[0]] + q[1..][..n] && q[1..][n..] == q[n + 1..]
    ensures multiset(q[..n + 1]) == multiset{q[0]} + multiset(q[1..][..n])
  {
    assert q[..n + 1] == [q[0]] + q[1..][..n];
  }

  /** r moved from the blocked to the ready queue. */
  ghost predicate HeadReadied(s: State, s1: State, r: Pid) {
    s1.ready == s.ready + [r] && multiset(s1.blocked) == multiset(s.blocked) - multiset{r} && s1.cur == s.cur
  }

  lemma ServeOneReadies(s: State, t: nat, allocOk: bool)
    requires t < |s.terms| && s.terms[t].readers != [] && s.terms[t].readers[0] in s.blocked
    ensures HeadReadied(s, ServeOne(s, t, allocOk), s.terms[t].readers[0])
  {
    RemoveFirstMultiset(s.blocked, s.terms[t].readers[0]);
    ServeOneForm(s, t, allocOk);
  }

  lemma HeadBlocked(s: State, t: nat)
    requires t < |s.terms| && ReaderCore(s, t) && s.terms[t].readers != []
    ensures s.terms[t].readers[0] in s.blocked && s.At(s.terms[t].readers[0]).readLen > 0
  {
    assert RoleOf(s, s.terms[t].readers[0]).blocked;
  }

  /** One round served the head of the queue and gave s1. */
  ghost predicate Round(s: State, t: nat, allocs: seq<bool>, s1: State)
    requires t < |s.terms|
  {
    && ReaderCore(s, t) && s.terms[t].readers != [] && s.terms[t].readBuf != [] && |s1.terms| == |s.terms|
    && Served(s, s1, t, s.terms[t].readers[0], Handout(s, t, NextAlloc(allocs)))
    && HeadReadied(s, s1, s.terms[t].readers[0])
  }

  lemma RoundIs(s: State, t: nat, allocs: seq<bool>, s1: State)
    requires PlacementInv(s) && StillWell(s) && Serving(s, t) && s.terms[t].readers != [] && s.terms[t].readBuf != []
    requires s1 == ServeOne(s, t, NextAlloc(allocs))
    ensures Round(s, t, allocs, s1)
  {
    HeadBlocked(s, t);
    ServeOneServed(s, t, NextAlloc(allocs));
    ServeOneReadies(s, t, NextAlloc(allocs));
  }

  lemma HandsOutMore(s: State, t: nat, allocs: seq<bool>, s1: State, n: nat, s': State)
    requires t < |s.terms| && Round(s, t, allocs, s1) && HandsOut(s1, s', t, n, LaterAllocs(allocs))
    requires s'.terms[t].received == s1.terms[t].received
    ensures HandsOut(s, s', t, n + 1, allocs) && s'.terms[t].received == s.terms[t].received
  {
    SharesMore(s, t, allocs, s1, n, s');
    WakesMore(s, t, s1, n, s', s.terms[t].readers[0], Handout(s, t, NextAlloc(allocs)));
  }

  /** The loop took s to s'. */
  ghost predicate Dealt(s: State, s': State, t: nat, allocs: seq<bool>)
    requires t < |s.terms|
  {
    exists n: nat :: HandsOut(s, s', t, n, allocs) && s'.terms[t].received == s.terms[t].received
  }

  lemma DealtMore(s: State, t: nat, allocs: seq<bool>, s1: State, s': State)
    requires t < |s.terms| && Round(s, t, allocs, s1) && Dealt(s1, s', t, LaterAllocs(allocs))
    ensures Dealt(s, s', t, allocs)
  {
    var n: nat :| HandsOut(s1, s', t, n, LaterAllocs(allocs)) && s'.terms[t].received == s1.terms[t].received;
    HandsOutMore(s, t, allocs, s1, n, s');
  }

  lemma DealtNone(s: State, t: nat, allocs: seq<bool>)
    requires t < |s.terms| && (s.terms[t].readers == [] || s.terms[t].readBuf == [])
    ensures Dealt(s, s, t, allocs)
  {
    NothingHanded(s, t, allocs);
  }

  lemma {:induction false} ServeDeals(s: State, t: nat, allocs: seq<bool>, s': State)
    requires PlacementInv(s) && StillWell(s) && Serving(s, t) && s' == Serve(s, t, allocs)
    ensures Dealt(s, s', t, allocs)
    decreases |s.terms[t].readers|
  {
    if s.terms[t].readers != [] && s.terms[t].readBuf != [] {
      var s1 := ServeOne(s, t, NextAlloc(allocs));
      ServeOneInv(s, t, NextAlloc(allocs), s1);
      RoundIs(s, t, allocs, s1);
      ServeDeals(s1, t, LaterAllocs(allocs), s');
      DealtMore(s, t, allocs, s1, s');
    } else {
      DealtNone(s, t, allocs);
    }
  }

  /** The same, from the state before the bytes arrived. */
  lemma ArrivedHands(s: State, t: nat, data: seq<Byte>, allocs: seq<bool>, n: nat, s': State)
    requires t < |s.terms| && HandsOut(s.PutTerm(t, Extended(s.terms[t], data)), s', t, n, allocs)
    ensures HandsOut(s, s', t, n, allocs)
  {
    var s1 := s.PutTerm(t, Extended(s.terms[t], data));
    forall i | |s.log| <= i < |s'.log| ensures HandedAt(s, s', t, allocs, i) { assert HandedAt(s1, s', t, allocs, i); }
    assert forall p :: s1.At(p) == s.At(p);
  }

  /** A receive trap serves as many readers as it can, each with what it asked for as far as there is. */
  lemma ReceiveAnswers(s: State, t: nat, data: seq<Byte>, allocs: seq<bool>, s': State) returns (n: nat)
    requires Inv(s) && Enabled(s, OnReceive(t, data, allocs)) && s' == Next(s, OnReceive(t, data, allocs))
    ensures HandsOut(s, s', t, n, allocs) && s'.terms[t].received == s.terms[t].received + data
  {
    n := ReceiveHands(s, t, data, allocs, s');
  }

  lemma ReceiveHands(s: State, t: nat, data: seq<Byte>, allocs: seq<bool>, s': State) returns (n: nat)
    requires Inv(s) && t < |s.terms| && |s.terms[t].readBuf| + |data| <= TERMINAL_MAX_LINE
    requires s' == ReceiveTrap(s, t, data, allocs)
    ensures HandsOut(s, s', t, n, allocs) && s'.terms[t].received == s.terms[t].received + data
  {
    var s1 := s.PutTerm(t, Extended(s.terms[t], data));
    ArrivedStill(s, t, data, s1);
    ServeDeals(s1, t, allocs, s');
    n :| HandsOut(s1, s', t, n, allocs) && s'.terms[t].received == s1.terms[t].received;
    ArrivedHands(s, t, data, allocs, n, s');
  }

  lemma ArrivedStill(s: State, t: nat, data: seq<Byte>, s1: State)
    requires Inv(s) && t < |s.terms| && |s.terms[t].readBuf| + |data| <= TERMINAL_MAX_LINE
    requires s1 == s.PutTerm(t, Extended(s.terms[t], data))
    ensures PlacementInv(s1) && StillWell(s1) && Serving(s1, t)
  {
    PutTermSame(s, t, Extended(s.terms[t], data));
    ArrivedServing(s, t, data);
    assert forall p :: ReaderStep(s, s1, p);
    ReaderFrame(s, s1);
  }
}
