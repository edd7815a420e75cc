/** Every step keeps the writer side of every terminal. */
module Writers {
  import opened Common
  import opened KernelState
  import opened Placement
  import opened Terminals

  ghost predicate WritersInv(s: State) {
    && |s.terms| == NUM_TERMINALS
    && (forall t :: 0 <= t < |s.terms| ==> WriterInv(s, t))
    && (forall p :: LockInv(s, p))
  }

  lemma RemoveFirstMember<T>(q: seq<T>, x: T)
    requires x in q
    ensures forall y :: y != x ==> (y in RemoveFirst(q, x) <==> y in q)
  {
    RemoveFirstMultiset(q, x);
    forall y | y != x ensures y in RemoveFirst(q, x) <==> y in q {
      assert y in RemoveFirst(q, x) <==> y in multiset(RemoveFirst(q, x));
      assert y in q <==> y in multiset(q);
    }
  }

  lemma WakeRoles(s: State, p: Pid)
    requires PlacementInv(s) && p in s.blocked
    ensures forall q :: q != p ==> RoleOf(Wake(s, p), q) == RoleOf(s, q)
    ensures RoleOf(s, p).Role? ==> RoleOf(Wake(s, p), p) == RoleOf(s, p).(blocked := false)
    ensures RoleOf(s, p).NoRole? ==> RoleOf(Wake(s, p), p).NoRole?
    ensures forall q :: Wake(s, p).At(q).resume == s.At(q).resume
  {
    WakePlaces(s, p);
    RemoveFirstMember(s.blocked, p);
  }

  /** Any step that leaves terminals and roles alone keeps the writers' invariant. */
  lemma WritersFrame(s: State, s': State)
    requires WritersInv(s) && |s'.terms| == |s.terms|
    requires forall t :: 0 <= t < |s.terms| ==> WriterPart(s'.terms[t]) == WriterPart(s.terms[t])
    requires forall p :: RoleOf(s', p) == RoleOf(s, p)
                      || (RoleOf(s, p).Role? && RoleOf(s, p).resume.FromRead? && !s'.At(p).resume.FromLock?)
                      || (RoleOf(s, p).NoRole? && !s'.At(p).resume.FromLock?)
                      || (RoleOf(s, p).Role? && RoleOf(s, p).resume.FromIo? && !RoleOf(s, p).blocked
                          && !s'.At(p).resume.FromLock?)
    ensures WritersInv(s')
  {
    forall t | 0 <= t < |s'.terms| ensures WriterInv(s', t) {
      forall p | Writes(s.terms[t], p) ensures RoleOf(s', p) == RoleOf(s, p) {
        if RoleOf(s', p) != RoleOf(s, p) {
          NotWriting(s, t, p);
        }
      }
      WriterFrame(s, s', t);
    }
    forall p ensures LockInv(s', p) {
      var r := s'.At(p).resume;
      assert LockInv(s, p);
      if r.FromLock? {
        assert RoleOf(s', p).resume == r;
        assert WriterPart(s'.terms[r.tty]) == WriterPart(s.terms[r.tty]);
        assert s'.terms[r.tty].writers == WriterPart(s'.terms[r.tty]).writers;
        assert s'.terms[r.tty].handed == WriterPart(s'.terms[r.tty]).handed;
      }
    }
  }

  // ---------------------------------------------------------------- TtyWrite

  lemma JoinedQueue(s: State, s': State, t: nat, p: Pid, msg: seq<Byte>)
    requires t < |s.terms| && |s'.terms| == |s.terms| && Queued(s, t) && msg != []
    requires s.terms[t].inUse && p !in s.terms[t].writers
    requires s'.terms[t].writers == s.terms[t].writers + [p]
             && s'.terms[t].calls == s.terms[t].calls + [Message(p, msg)]
    requires s'.terms[t].done == s.terms[t].done && s'.terms[t].inUse
    requires forall q :: q != p ==> RoleOf(s', q) == RoleOf(s, q)
    requires RoleOf(s', p) == Role(FromLock(t, msg), true, s'.At(p).readLen)
    ensures Queued(s', t)
  {
    var x, x' := s.terms[t], s'.terms[t];
    forall i | 0 <= i < |x'.writers|
      ensures var c := x'.calls[x'.done + Held(x') + i];
              c.writer == x'.writers[i]
              && RoleOf(s', x'.writers[i]) == Role(FromLock(t, c.data), true, s'.At(c.writer).readLen)
    {
      if i < |x.writers| {
        assert x.writers[i] in x.writers;
      }
    }
  }

  lemma Joined(s: State, s': State, t: nat, p: Pid, msg: seq<Byte>)
    requires t < |s.terms| && |s'.terms| == |s.terms| && WriterInv(s, t) && msg != []
    requires s.terms[t].inUse && !Writes(s.terms[t], p)
    requires var x := s.terms[t];
             s'.terms[t] == x.(calls := x.calls + [Message(p, msg)], writers := x.writers + [p])
    requires forall q :: q != p ==> RoleOf(s', q) == RoleOf(s, q)
    requires RoleOf(s', p) == Role(FromLock(t, msg), true, s'.At(p).readLen)
    ensures WriterInv(s', t)
  {
    var x, x' := s.terms[t], s'.terms[t];
    assert x'.calls[..x'.done] == x.calls[..x.done];
    JoinedQueue(s, s', t, p, msg);
  }

  /** TtyWrite on a busy terminal joins the end of its writer queue. */
  lemma LockWait(s: State, t: nat, msg: seq<Byte>)
    requires WritersInv(s) && PlacementInv(s) && s.cur != IDLE && s.At(s.cur).resume == ToUser
    requires t < |s.terms| && s.terms[t].inUse && msg != []
    ensures var x := s.terms[t];
            WritersInv(Block(s.PutTerm(t, x.(calls := x.calls + [Message(s.cur, msg)], writers := x.writers + [s.cur])),
                             FromLock(t, msg)))
  {
    var x := s.terms[t];
    var x' := x.(calls := x.calls + [Message(s.cur, msg)], writers := x.writers + [s.cur]);
    var s' := Block(s.PutTerm(t, x'), FromLock(t, msg));
    assert forall q :: q != s.cur ==> RoleOf(s', q) == RoleOf(s, q);
    forall u | 0 <= u < |s'.terms| ensures WriterInv(s', u) {
      NotWriting(s, u, s.cur);
      if u != t { WriterFrame(s, s', u); } else { Joined(s, s', t, s.cur, msg); }
    }
    forall p ensures LockInv(s', p) { assert LockInv(s, p); }
  }

  /** The current process is entitled to take terminal t for msg. */
  ghost predicate Taking(s: State, t: nat, msg: seq<Byte>)
    requires t < |s.terms|
  {
    var x := s.terms[t];
    && msg != [] && x.writer.None? && !x.busy && x.writeBuf == [] && Sent(x)
    && |x.calls| == x.done + 1 + |x.writers|
    && x.calls[x.done] == Message(s.cur, msg)
    && s.cur !in x.writers
    && (forall i :: 0 <= i < |x.writers| ==>
          var c := x.calls[x.done + 1 + i];
          c.writer == x.writers[i]
            && RoleOf(s, x.writers[i]) == Role(FromLock(t, c.data), true, s.At(c.writer).readLen))
    && (forall i, j :: 0 <= i < j < |x.writers| ==> x.writers[i] != x.writers[j])
    && (forall i :: 0 <= i < |x.calls| ==> x.calls[i].data != [])
  }

  ghost predicate OthersWell(s: State, t: nat) {
    && |s.terms| == NUM_TERMINALS && t < |s.terms|
    && (forall u :: 0 <= u < |s.terms| && u != t ==> WriterInv(s, u) && !Writes(s.terms[u], s.cur))
    && (forall p :: p != s.cur ==> LockInv(s, p))
    && (s.terms[t].handed.Some? ==> s.terms[t].handed.value == s.cur)
  }

  lemma TakeFree(s: State, t: nat, msg: seq<Byte>)
    requires WritersInv(s) && PlacementInv(s) && s.At(s.cur).resume == ToUser
    requires t < |s.terms| && !s.terms[t].inUse && msg != []
    ensures var s1 := s.PutTerm(t, s.terms[t].(calls := s.terms[t].calls + [Message(s.cur, msg)]));
            Taking(s1, t, msg) && OthersWell(s1, t)
  {
    var x := s.terms[t];
    var x1 := x.(calls := x.calls + [Message(s.cur, msg)]);
    var s1 := s.PutTerm(t, x1);
    assert WriterInv(s, t);
    assert x1.calls[..x1.done] == x.calls[..x.done];
    forall u | 0 <= u < |s1.terms| && u != t ensures WriterInv(s1, u) && !Writes(s1.terms[u], s1.cur) {
      NotWriting(s, u, s.cur);
      WriterFrame(s, s1, u);
    }
    forall p | p != s1.cur ensures LockInv(s1, p) { assert LockInv(s, p); }
  }

  /** The lock passes from the trap handler to the woken writer with nobody in between. */
  lemma TakeHanded(s: State, t: nat, msg: seq<Byte>)
    requires WritersInv(s) && PlacementInv(s) && s.At(s.cur).resume == FromLock(t, msg)
    ensures OthersWell(s, t) && Taking(s, t, msg)
  {
    assert LockInv(s, s.cur) && WriterInv(s, t);
    var x := s.terms[t];
    assert s.cur !in s.blocked by { assert Places(s, s.cur, true) <= 1; }
    assert s.cur !in x.writers;
    forall u | 0 <= u < |s.terms| && u != t ensures WriterInv(s, u) && !Writes(s.terms[u], s.cur) {
      NotWriting(s, u, s.cur);
    }
  }

  lemma FirstSent(x: Terminal, x': Terminal, msg: seq<Byte>)
    requires Sent(x) && x.writeBuf == [] && msg != [] && x'.done == x.done && x'.calls == x.calls && x'.writeBuf == msg
    requires x'.position == Min(|msg|, TERMINAL_MAX_LINE)
             && x'.chunks == x.chunks + [msg[..Min(|msg|, TERMINAL_MAX_LINE)]]
    ensures Sent(x')
  {
    var n := Min(|msg|, TERMINAL_MAX_LINE);
    ChunksStep(msg, 0);
    assert x.chunks == ChunksOf(x.calls[..x.done]);
    assert Chunks(msg)[..1] == [msg[..n]];
  }

  /** The current process holds terminal t, x' now, and sleeps until msg is sent. */
  ghost predicate Begun(s: State, s': State, t: nat, x': Terminal, msg: seq<Byte>)
    requires t < |s.terms|
  {
    && s'.terms == s.terms[t := x'] && s'.cur == s.cur
    && (forall q :: q != s.cur ==> RoleOf(s', q) == RoleOf(s, q) && s'.At(q) == s.At(q))
    && RoleOf(s', s.cur) == Role(FromIo(t, |msg|), true, s'.At(s.cur).readLen)
       && s'.At(s.cur).resume == FromIo(t, |msg|)
  }

  lemma BegunTerminal(s: State, s': State, t: nat, msg: seq<Byte>)
    requires OthersWell(s, t) && Taking(s, t, msg) && Begun(s, s', t, Started(s.terms[t], msg, s.cur), msg)
    ensures WriterInv(s', t)
  {
    var x, x' := s.terms[t], s'.terms[t];
    FirstSent(x, x', msg);
    forall i | 0 <= i < |x'.writers|
      ensures var c := x'.calls[x'.done + Held(x') + i];
              c.writer == x'.writers[i]
              && RoleOf(s', x'.writers[i]) == Role(FromLock(t, c.data), true, s'.At(c.writer).readLen)
    {
      assert x.writers[i] in x.writers;
    }
  }

  lemma BegunWriters(s: State, s': State, t: nat, msg: seq<Byte>)
    requires OthersWell(s, t) && Taking(s, t, msg) && Begun(s, s', t, Started(s.terms[t], msg, s.cur), msg)
    ensures WritersInv(s')
  {
    BegunTerminal(s, s', t, msg);
    forall u | 0 <= u < |s'.terms| ensures WriterInv(s', u) {
      if u != t { WriterFrame(s, s', u); }
    }
    forall p ensures LockInv(s', p) {
      if p != s.cur { assert LockInv(s, p); }
    }
  }

  lemma BeginWriters(s: State, t: nat, msg: seq<Byte>)
    requires OthersWell(s, t) && Taking(s, t, msg)
    ensures WritersInv(Block(s.PutTerm(t, Started(s.terms[t], msg, s.cur)), FromIo(t, |msg|)))
  {
    BegunWriters(s, Block(s.PutTerm(t, Started(s.terms[t], msg, s.cur)), FromIo(t, |msg|)), t, msg);
  }

  /** When malloc fails and nobody waits, the terminal is simply free again. */
  lemma GiveUp(s: State, t: nat, msg: seq<Byte>)
    requires OthersWell(s, t) && Taking(s, t, msg) && s.terms[t].writers == []
    ensures WritersInv(Begin(s, t, msg, false))
  {
    var x := s.terms[t];
    var s' := Begin(s, t, msg, false);
    var x' := s'.terms[t];
    assert x'.calls == x.calls[..x.done];
    assert x'.calls[..x'.done] == x.calls[..x.done];
    assert forall q :: q != s.cur ==> RoleOf(s', q) == RoleOf(s, q);
    forall u | 0 <= u < |s'.terms| ensures WriterInv(s', u) {
      if u != t { WriterFrame(s, s', u); }
    }
    forall p ensures LockInv(s', p) {
      if p != s.cur { assert LockInv(s, p); }
    }
  }

  // ---------------------------------------------------------------- transmit trap

  lemma MoreSent(x: Terminal, x': Terminal)
    requires Sent(x) && x.position < |x.writeBuf|
    requires var n := Min(|x.writeBuf| - x.position, TERMINAL_MAX_LINE);
             x' == x.(chunks := x.chunks + [x.writeBuf[x.position..x.position + n]], busy := true,
                      position := x.position + n)
    ensures Sent(x')
  {
    var k := CeilDiv(x.position);
    var n := Min(|x.writeBuf| - x.position, TERMINAL_MAX_LINE);
    ChunksStep(x.writeBuf, x.position);
    assert x.chunks + [x.writeBuf[x.position..x.position + n]]
        == ChunksOf(x.calls[..x.done]) + (Chunks(x.writeBuf)[..k] + [x.writeBuf[x.position..x.position + n]]);
  }

  lemma NextChunk(s: State, t: nat)
    requires WritersInv(s) && t < |s.terms| && s.terms[t].position < |s.terms[t].writeBuf|
    ensures WritersInv(TransmitTrap(s, t))
  {
    var x := s.terms[t];
    var s' := TransmitTrap(s, t);
    assert WriterInv(s, t);
    MoreSent(x, s'.terms[t]);
    assert SameRoles(s, s');
    forall u | 0 <= u < |s'.terms| ensures WriterInv(s', u) {
      if u != t { WriterFrame(s, s', u); }
    }
    forall p ensures LockInv(s', p) { assert LockInv(s, p); }
  }

  /** Completion, first half: the message counts as done and its writer is woken. */
  lemma SentDone(x: Terminal)
    requires Sent(x) && x.done < |x.calls| && x.calls[x.done].data == x.writeBuf && x.position == |x.writeBuf|
    ensures x.chunks == ChunksOf(x.calls[..x.done + 1])
  {
    assert x.calls[..x.done + 1][..x.done] == x.calls[..x.done];
    assert |Chunks(x.writeBuf)| == CeilDiv(|x.writeBuf|);
  }

  lemma WakeTwo(s: State, w: Pid, v: Pid)
    requires PlacementInv(s) && w in s.blocked && v in s.blocked && w != v
    ensures PlacementInv(Wake(Wake(s, w), v))
    ensures forall q :: q != w && q != v ==> RoleOf(Wake(Wake(s, w), v), q) == RoleOf(s, q)
    ensures RoleOf(s, v).Role? ==> RoleOf(Wake(Wake(s, w), v), v) == RoleOf(s, v).(blocked := false)
    ensures forall q :: Wake(Wake(s, w), v).At(q).resume == s.At(q).resume
  {
    WakePlaces(s, w);
    WakeRoles(s, w);
    RemoveFirstMember(s.blocked, w);
    WakePlaces(Wake(s, w), v);
    WakeRoles(Wake(s, w), v);
  }

  ghost predicate BothBlocked(s: State, x: Terminal) {
    && x.writer.Some? && x.writer.value in s.blocked
    && (x.writers != [] ==> x.writers[0] in s.blocked && x.writers[0] != x.writer.value
                            && RoleOf(s, x.writers[0]).Role?)
  }

  function Credited(s: State, x: Terminal): State
    requires x.writer.Some?
  {
    s.Put(x.writer.value, s.At(x.writer.value).(ret := |x.writeBuf|))
  }

  lemma CreditedSame(s: State, x: Terminal)
    requires PlacementInv(s) && x.writer.Some? && x.writer.value in s.blocked
    ensures PlacementInv(Credited(s, x)) && SameRoles(s, Credited(s, x))
    ensures forall q :: Credited(s, x).At(q).resume == s.At(q).resume
  {
    assert Places(s, x.writer.value, true) >= 1;
    SamePlaces(s, Credited(s, x), true);
  }

  /** Completion moves the writer, and the next one if any, from blocked to ready. */
  lemma WakeWritersPlaces(s: State, x: Terminal)
    requires PlacementInv(s) && BothBlocked(s, x)
    ensures PlacementInv(WakeWriters(s, x))
  {
    CreditedSame(s, x);
    if x.writers == [] {
      WakePlaces(Credited(s, x), x.writer.value);
    } else {
      WakeTwo(Credited(s, x), x.writer.value, x.writers[0]);
    }
  }

  lemma WakeWritersRoles(s: State, x: Terminal)
    requires PlacementInv(s) && BothBlocked(s, x)
    ensures forall q :: q != x.writer.value && (x.writers == [] || q != x.writers[0])
                     ==> RoleOf(WakeWriters(s, x), q) == RoleOf(s, q)
    ensures forall q :: WakeWriters(s, x).At(q).resume == s.At(q).resume
    ensures x.writers != [] ==>
              RoleOf(WakeWriters(s, x), x.writers[0]) == RoleOf(s, x.writers[0]).(blocked := false)
  {
    CreditedSame(s, x);
    if x.writers == [] {
      WakeRoles(Credited(s, x), x.writer.value);
    } else {
      WakeTwo(Credited(s, x), x.writer.value, x.writers[0]);
    }
  }

  lemma HolderBlocked(s: State, t: nat)
    requires t < |s.terms| && WriterInv(s, t) && s.terms[t].busy
    ensures BothBlocked(s, s.terms[t])
  {
    var x := s.terms[t];
    assert x.writers != [] ==> x.writers[0] in x.writers && RoleOf(s, x.writers[0]).resume.FromLock?;
  }

  /** Terminals are not places. */
  lemma PutTermSame(s: State, t: nat, x: Terminal)
    requires PlacementInv(s)
    ensures PlacementInv(s.PutTerm(t, x)) && SameRoles(s, s.PutTerm(t, x))
  {
    SamePlaces(s, s.PutTerm(t, x), true);
  }

  lemma CompletePlaces(s: State, t: nat)
    requires PlacementInv(s) && t < |s.terms| && WriterInv(s, t) && s.terms[t].busy
    requires s.terms[t].position == |s.terms[t].writeBuf|
    ensures PlacementInv(TransmitTrap(s, t))
  {
    HolderBlocked(s, t);
    WakeWritersPlaces(s, s.terms[t]);
    PutTermSame(WakeWriters(s, s.terms[t]), t, HandOver(s.terms[t]));
  }

  /** Only the two woken writers change roles, and nobody's continuation changes. */
  ghost predicate Completed(s: State, s': State, t: nat)
    requires t < |s.terms|
  {
    var x := s.terms[t];
    && s'.terms == s.terms[t := HandOver(x)]
    && x.writer.Some?
    && (forall q :: q != x.writer.value && (x.writers == [] || q != x.writers[0]) ==> RoleOf(s', q) == RoleOf(s, q))
    && (forall q :: s'.At(q).resume == s.At(q).resume)
    && (x.writers != [] ==> RoleOf(s, x.writers[0]).Role?
                            && RoleOf(s', x.writers[0]) == RoleOf(s, x.writers[0]).(blocked := false))
  }

  lemma CompletedStep(s: State, t: nat)
    requires PlacementInv(s) && t < |s.terms| && BothBlocked(s, s.terms[t])
    requires s.terms[t].position == |s.terms[t].writeBuf|
    ensures Completed(s, TransmitTrap(s, t), t)
  {
    WakeWritersRoles(s, s.terms[t]);
    assert WakeWriters(s, s.terms[t]).terms == s.terms;
    assert SameRoles(WakeWriters(s, s.terms[t]), TransmitTrap(s, t));
  }

  /** The writer handed the terminal left its queue. */
  lemma CompleteLock(s: State, s': State, t: nat, p: Pid)
    requires t < |s.terms| && Completed(s, s', t) && LockInv(s, p) && s.terms[t].handed.None?
    ensures LockInv(s', p)
  {
    var x := s.terms[t];
    assert p in x.writers ==> p == x.writers[0] || p in x.writers[1..];
  }

  lemma CompleteOther(s: State, s': State, t: nat, u: nat)
    requires t < |s.terms| && u < |s.terms| && t != u && Completed(s, s', t) && WriterInv(s, t) && WriterInv(s, u)
    ensures WriterInv(s', u)
  {
    var x := s.terms[t];
    NotWriting(s, u, x.writer.value);
    if x.writers != [] {
      NotWriting(s, u, x.writers[0]);
    }
    WriterFrame(s, s', u);
  }

  lemma CompleteTerminal(s: State, s': State, t: nat)
    requires t < |s.terms| && Completed(s, s', t) && WriterInv(s, t) && s.terms[t].position == |s.terms[t].writeBuf|
    ensures WriterInv(s', t)
  {
    var x := s.terms[t];
    SentDone(x);
    assert Chunks([])[..0] == [];
    if x.writers != [] {
      HandedOver(s, s', t, x.writer.value, x.writers[0]);
    }
  }

  /** Completion leaves the terminal free, or in the hands of the writer that waited longest. */
  lemma CompleteWriters(s: State, t: nat)
    requires WritersInv(s) && PlacementInv(s) && t < |s.terms| && s.terms[t].busy
    requires s.terms[t].position == |s.terms[t].writeBuf|
    ensures WritersInv(TransmitTrap(s, t))
  {
    assert WriterInv(s, t);
    HolderBlocked(s, t);
    CompletedStep(s, t);
    CompletedWriters(s, TransmitTrap(s, t), t);
  }

  lemma CompletedWriters(s: State, s': State, t: nat)
    requires WritersInv(s) && t < |s.terms| && Completed(s, s', t)
    requires s.terms[t].position == |s.terms[t].writeBuf|
    ensures WritersInv(s')
  {
    assert WriterInv(s, t);
    forall u | 0 <= u < |s'.terms| ensures WriterInv(s', u) {
      if u == t { CompleteTerminal(s, s', t); } else { CompleteOther(s, s', t, u); }
    }
    forall p ensures LockInv(s', p) {
      assert LockInv(s, p);
      CompleteLock(s, s', t, p);
    }
  }

  lemma HandedOver(s: State, s': State, t: nat, w: Pid, v: Pid)
    requires t < |s.terms| && |s'.terms| == |s.terms| && WriterInv(s, t)
    requires s.terms[t].writers != [] && v == s.terms[t].writers[0] && s.terms[t].writer == Some(w)
    requires var x := s.terms[t];
             s'.terms[t] == x.(writeBuf := [], position := 0, writer := None, busy := false, done := x.done + 1,
                               writers := x.writers[1..], handed := Some(v))
    requires Sent(s'.terms[t])
    requires forall q :: q != w && q != v ==> RoleOf(s', q) == RoleOf(s, q)
    requires RoleOf(s', v) == RoleOf(s, v).(blocked := false)
    ensures WriterInv(s', t)
  {
    var x, x' := s.terms[t], s'.terms[t];
    forall i | 0 <= i < |x'.writers|
      ensures var c := x'.calls[x'.done + Held(x') + i];
              c.writer == x'.writers[i]
              && RoleOf(s', x'.writers[i]) == Role(FromLock(t, c.data), true, s'.At(c.writer).readLen)
    {
      assert x'.writers[i] == x.writers[i + 1];
      assert RoleOf(s, x.writers[i + 1]).resume.FromLock?;
      assert x.writers[0] != x.writers[i + 1];
    }
  }
}
