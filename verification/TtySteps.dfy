/** Terminal steps keep the whole invariant. */
module TtySteps {
  import opened Common
  import opened KernelState
  import opened Placement
  import opened Family
  import opened Terminals
  import opened Writers
  import opened Readers
  import opened Invariant
  import opened Steps

  ghost predicate SameReaderSide(s: State, s': State) {
    && |s'.terms| == |s.terms| && s'.log == s.log
    && forall t :: 0 <= t < |s.terms| ==>
         && s'.terms[t].readers == s.terms[t].readers && s'.terms[t].readBuf == s.terms[t].readBuf
         && s'.terms[t].received == s.terms[t].received
  }

  ghost predicate SameWriterSide(s: State, s': State) {
    && |s'.terms| == |s.terms|
    && forall t :: 0 <= t < |s.terms| ==> WriterPart(s'.terms[t]) == WriterPart(s.terms[t])
  }

  ghost predicate Calm(s: State) { FamilyInv(s) && ReadersInv(s) && DelaysInv(s) }

  /** What a writer step must leave alone in p. */
  ghost predicate WriterStep(s: State, s': State, p: Pid) {
    && SameReading(s, s', p) && (DelayInv(s, p) ==> DelayInv(s', p))
    && (var b, b' := s.At(p), s'.At(p);
        && b'.ppid == b.ppid && b'.parent == b.parent && b'.children == b.children
        && b'.waiting == b.waiting && b'.status == b.status && Kind(b'.resume) == Kind(b.resume))
  }

  lemma CalmFrame(s: State, s': State)
    requires Calm(s) && SameReaderSide(s, s') && SameShared(s, s')
    requires forall p :: WriterStep(s, s', p)
    ensures Calm(s')
  {
    forall p ensures SameReading(s, s', p) { assert WriterStep(s, s', p); }
    ReadersFrame(s, s');
    forall p ensures DelayInv(s', p) { assert DelayInv(s, p) && WriterStep(s, s', p); }
    CalmFamily(s, s');
  }

  lemma CalmFamily(s: State, s': State)
    requires FamilyInv(s) && SameShared(s, s') && forall p :: WriterStep(s, s', p)
    ensures FamilyInv(s')
  {
    assert forall p :: p in s.procs ==> WriterStep(s, s', p);
    FamilyFrame(s, s');
  }

  // ---------------------------------------------------------------- TtyWrite

  lemma BlockWriter(s: State, t: nat, x: Terminal, r: Resume)
    requires s.cur in s.procs && s.At(s.cur).stash.None? && s.At(s.cur).delay == 0 && t < |s.terms|
    requires s.At(s.cur).resume == ToUser || s.At(s.cur).resume.FromLock?
    requires r.FromLock? || r.FromIo?
    requires s.terms[t].readers == x.readers && s.terms[t].readBuf == x.readBuf
    requires s.terms[t].received == x.received
    ensures var s' := Block(s.PutTerm(t, x), r);
            SameReaderSide(s, s') && SameShared(s, s') && forall p :: WriterStep(s, s', p)
  {
  }

  /** The current process waits for terminal t. */
  function Locked(s: State, t: nat, msg: seq<Byte>): State {
    var x := s.Term(t);
    Block(s.PutTerm(t, x.(calls := x.calls + [Message(s.cur, msg)], writers := x.writers + [s.cur])), FromLock(t, msg))
  }

  lemma LockedWrite(s: State, t: nat, msg: seq<Byte>, allocOk: bool)
    requires t < |s.terms| == NUM_TERMINALS && s.terms[t].inUse && msg != []
    ensures TtyWrite(s, t, msg, true, allocOk) == Switch(Locked(s, t, msg))
  {
  }

  lemma LockWaitInv(s: State, t: nat, msg: seq<Byte>)
    requires Inv(s) && s.cur != IDLE && s.At(s.cur).resume == ToUser && t < |s.terms|
    requires s.terms[t].inUse && msg != []
    ensures Inv(Switch(Locked(s, t, msg)))
  {
    var x := s.terms[t];
    var x' := x.(calls := x.calls + [Message(s.cur, msg)], writers := x.writers + [s.cur]);
    var s' := Locked(s, t, msg);
    assert StashInv(s, s.cur) && DelayInv(s, s.cur);
    BlockWriter(s, t, x', FromLock(t, msg));
    CalmFrame(s, s');
    LockWait(s, t, msg);
    PutTermSame(s, t, x');
    BlockPlaces(s.PutTerm(t, x'), FromLock(t, msg));
    SwitchInv(s');
  }

  lemma BeginInv(s: State, t: nat, msg: seq<Byte>)
    requires s.mode != Fault && PlacementInv(s) && Calm(s) && OthersWell(s, t) && Taking(s, t, msg)
    requires s.cur != IDLE && (s.At(s.cur).resume == ToUser || s.At(s.cur).resume.FromLock?)
    ensures Inv(Begin(s, t, msg, true))
  {
    var x' := Started(s.terms[t], msg, s.cur);
    var s' := Block(s.PutTerm(t, x'), FromIo(t, |msg|));
    assert StashInv(s, s.cur) && DelayInv(s, s.cur);
    BlockWriter(s, t, x', FromIo(t, |msg|));
    CalmFrame(s, s');
    BeginWriters(s, t, msg);
    PutTermSame(s, t, x');
    BlockPlaces(s.PutTerm(t, x'), FromIo(t, |msg|));
    SwitchInv(s');
  }

  lemma GiveUpQuiet(s: State, t: nat, msg: seq<Byte>)
    requires s.cur in s.procs && s.At(s.cur).stash.None? && s.At(s.cur).delay == 0
    requires s.At(s.cur).resume == ToUser || s.At(s.cur).resume.FromLock?
    requires t < |s.terms| && s.terms[t].writers == []
    ensures var s' := Begin(s, t, msg, false);
            SameReaderSide(s, s') && SameShared(s, s') && forall p :: WriterStep(s, s', p)
  {
  }

  /** A failed allocation is harmless exactly when no other writer waits; otherwise the
      next writer ends up both blocked and ready. */
  lemma GiveUpInvIff(s: State, t: nat, msg: seq<Byte>)
    requires s.mode != Fault && PlacementInv(s) && Calm(s) && OthersWell(s, t) && Taking(s, t, msg)
    requires s.cur != IDLE && (s.At(s.cur).resume == ToUser || s.At(s.cur).resume.FromLock?)
    ensures Inv(Begin(s, t, msg, false)) <==> s.terms[t].writers == []
  {
    var s' := Begin(s, t, msg, false);
    if s.terms[t].writers == [] {
      assert StashInv(s, s.cur) && DelayInv(s, s.cur);
      GiveUpQuiet(s, t, msg);
      CalmFrame(s, s');
      GiveUp(s, t, msg);
      SamePlaces(s, s', true);
    } else {
      GiveUpBreaks(s, t, msg);
    }
  }

  lemma GiveUpBreaks(s: State, t: nat, msg: seq<Byte>)
    requires PlacementInv(s) && t < |s.terms| && Taking(s, t, msg) && s.terms[t].writers != []
    ensures Places(Begin(s, t, msg, false), s.terms[t].writers[0], true) == 2
    ensures !PlacementInv(Begin(s, t, msg, false))
  {
    var w := s.terms[t].writers[0];
    assert w in s.terms[t].writers;
    assert RoleOf(s, w).Role? && w in s.blocked;
    assert Places(s, w, true) == 1;
  }

  lemma WriteInv(s: State, t: int, msg: seq<Byte>, bufOk: bool, allocOk: bool)
    requires Inv(s) && s.cur != IDLE && s.At(s.cur).resume == ToUser
    ensures Inv(TtyWrite(s, t, msg, bufOk, allocOk))
  {
    if t < 0 || t >= NUM_TERMINALS || !bufOk || |msg| == 0 {
      ReturnInv(s, ERROR);
    } else if s.terms[t].inUse {
      LockWaitInv(s, t, msg);
      LockedWrite(s, t, msg, allocOk);
    } else {
      var x1 := s.terms[t].(calls := s.terms[t].calls + [Message(s.cur, msg)]);
      var s1 := s.PutTerm(t, x1);
      TakeFree(s, t, msg);
      PutTermSame(s, t, x1);
      PutTermCalm(s, t, x1);
      assert WriterInv(s, t);
      if allocOk { BeginInv(s1, t, msg); } else { GiveUpInvIff(s1, t, msg); }
    }
  }

  /** A woken writer whose buffer is allocated. */
  lemma LockTakesInv(s: State, t: nat, msg: seq<Byte>, s': State)
    requires Inv(s) && s.cur != IDLE && s.At(s.cur).resume == FromLock(t, msg) && s' == Begin(s, t, msg, true)
    ensures Inv(s')
  {
    TakeHanded(s, t, msg);
    BeginInv(s, t, msg);
  }

  /** One whose buffer is not. */
  lemma LockFailsInvIff(s: State, t: nat, msg: seq<Byte>, s': State)
    requires Inv(s) && s.cur != IDLE && s.At(s.cur).resume == FromLock(t, msg) && s' == Begin(s, t, msg, false)
    ensures t < |s.terms| && (Inv(s') <==> s.terms[t].writers == [])
  {
    TakeHanded(s, t, msg);
    GiveUpInvIff(s, t, msg);
  }

  lemma LockResumeInvIff(s: State, allocOk: bool)
    requires Inv(s) && s.cur != IDLE && s.At(s.cur).resume.FromLock?
    ensures Inv(ContinueStep(s, allocOk)) <==> Good(s, Continue(allocOk))
  {
    var t, msg := s.At(s.cur).resume.tty, s.At(s.cur).resume.msg;
    LockResumes(s, t, msg, allocOk, ContinueStep(s, allocOk));
    LockBeginIff(s, t, msg, allocOk, ContinueStep(s, allocOk));
  }

  lemma LockBeginIff(s: State, t: nat, msg: seq<Byte>, allocOk: bool, s': State)
    requires Inv(s) && s.cur != IDLE && s.At(s.cur).resume == FromLock(t, msg) && s' == Begin(s, t, msg, allocOk)
    ensures Inv(s') <==> allocOk || s.Term(t).writers == []
  {
    if allocOk { LockTakesInv(s, t, msg, s'); } else { LockFailsInvIff(s, t, msg, s'); }
  }

  lemma LockResumes(s: State, t: nat, msg: seq<Byte>, allocOk: bool, s': State)
    requires s.At(s.cur).resume == FromLock(t, msg) && s' == ContinueStep(s, allocOk)
    ensures s' == Begin(s, t, msg, allocOk)
    ensures Good(s, Continue(allocOk)) <==> allocOk || s.Term(t).writers == []
  {
  }

  // ---------------------------------------------------------------- transmit trap

  lemma WakeWritersQuiet(s: State, x: Terminal)
    requires PlacementInv(s) && BothBlocked(s, x)
    requires s.At(x.writer.value).resume.FromIo? && s.At(x.writer.value).stash.None? && s.At(x.writer.value).delay == 0
    requires x.writers != [] ==> s.At(x.writers[0]).resume.FromLock? && s.At(x.writers[0]).delay == 0
    ensures SameShared(s, WakeWriters(s, x)) && WakeWriters(s, x).terms == s.terms
    ensures WakeWriters(s, x).mode == s.mode
    ensures forall p :: WriterStep(s, WakeWriters(s, x), p)
  {
    var s' := WakeWriters(s, x);
    WakeWritersRoles(s, x);
    assert forall p :: p != x.writer.value && (x.writers == [] || p != x.writers[0]) ==> s'.At(p) == s.At(p);
    assert x.writer.value in s.procs by { assert Places(s, x.writer.value, true) >= 1; }
    assert x.writers != [] ==> Places(s, x.writers[0], true) >= 1;
    RemoveFirstMember(s.blocked, x.writer.value);
    if x.writers != [] {
      RemoveFirstMember(RemoveFirst(s.blocked, x.writer.value), x.writers[0]);
    }
  }

  lemma PutTermCalm(s: State, t: nat, x: Terminal)
    requires Calm(s) && t < |s.terms|
    requires s.terms[t].readers == x.readers && s.terms[t].readBuf == x.readBuf
    requires s.terms[t].received == x.received
    ensures Calm(s.PutTerm(t, x))
  {
    assert forall p :: WriterStep(s, s.PutTerm(t, x), p);
    CalmFrame(s, s.PutTerm(t, x));
  }

  lemma CompleteCalm(s: State, t: nat)
    requires PlacementInv(s) && Calm(s) && t < |s.terms| && WriterInv(s, t) && s.terms[t].busy
    ensures Calm(WakeWriters(s, s.terms[t])) && WakeWriters(s, s.terms[t]).terms == s.terms
    ensures WakeWriters(s, s.terms[t]).mode == s.mode
  {
    var x := s.terms[t];
    HolderBlocked(s, t);
    assert StashInv(s, x.writer.value) && DelayInv(s, x.writer.value);
    assert x.writers != [] ==> x.writers[0] in x.writers && DelayInv(s, x.writers[0]);
    WakeWritersQuiet(s, x);
    CalmFrame(s, WakeWriters(s, x));
  }

  lemma CompleteInv(s: State, t: nat)
    requires Inv(s) && t < |s.terms| && s.terms[t].busy && s.terms[t].position == |s.terms[t].writeBuf|
    ensures Inv(TransmitTrap(s, t))
  {
    assert WriterInv(s, t);
    CompleteWriters(s, t);
    CompletePlaces(s, t);
    CompleteCalm(s, t);
    PutTermCalm(WakeWriters(s, s.terms[t]), t, HandOver(s.terms[t]));
  }

  lemma NextChunkInv(s: State, t: nat)
    requires Inv(s) && t < |s.terms| && s.terms[t].position < |s.terms[t].writeBuf|
    ensures Inv(TransmitTrap(s, t))
  {
    NextChunk(s, t);
    SamePlaces(s, TransmitTrap(s, t), true);
    PutTermCalm(s, t, TransmitTrap(s, t).terms[t]);
  }

  lemma TransmitInv(s: State, t: nat)
    requires Inv(s) && t < |s.terms| && s.terms[t].busy
    ensures Inv(TransmitTrap(s, t))
  {
    assert WriterInv(s, t);
    if s.terms[t].position < |s.terms[t].writeBuf| {
      NextChunkInv(s, t);
    } else {
      CompleteInv(s, t);
    }
  }

  // ---------------------------------------------------------------- TtyRead

  /** What a reader step must leave alone in p. */
  ghost predicate ReaderStep(s: State, s': State, p: Pid) {
    && (RoleOf(s', p) == RoleOf(s, p)
        || ((RoleOf(s, p).NoRole? || RoleOf(s, p).resume.FromRead?) && !s'.At(p).resume.FromLock?))
    && (DelayInv(s, p) ==> DelayInv(s', p))
    && (var b, b' := s.At(p), s'.At(p);
        && b'.ppid == b.ppid && b'.parent == b.parent && b'.children == b.children
        && b'.waiting == b.waiting && b'.status == b.status && Kind(b'.resume) == Kind(b.resume))
  }

  ghost predicate StillWell(s: State) { FamilyInv(s) && WritersInv(s) && DelaysInv(s) }

  lemma ReaderFamily(s: State, s': State)
    requires FamilyInv(s) && SameShared(s, s') && forall p :: ReaderStep(s, s', p)
    ensures FamilyInv(s')
  {
    assert forall p :: p in s.procs ==> ReaderStep(s, s', p);
    FamilyFrame(s, s');
  }

  lemma ReaderFrame(s: State, s': State)
    requires StillWell(s) && SameWriterSide(s, s') && SameShared(s, s')
    requires forall p :: ReaderStep(s, s', p)
    ensures StillWell(s')
  {
    ReaderFamily(s, s');
    forall p ensures DelayInv(s', p) { assert DelayInv(s, p) && ReaderStep(s, s', p); }
    forall p ensures RoleOf(s', p) == RoleOf(s, p)
                     || ((RoleOf(s, p).NoRole? || RoleOf(s, p).resume.FromRead?) && !s'.At(p).resume.FromLock?)
    {
      assert ReaderStep(s, s', p);
    }
    WritersFrame(s, s');
  }

  lemma ReadNowQuiet(s: State, t: nat, len: int)
    requires s.cur in s.procs && s.At(s.cur).resume == ToUser && t < NUM_TERMINALS == |s.terms| && len > 0
    requires s.terms[t].readBuf != []
    ensures var s' := TtyRead(s, t, len, true, true);
            SameWriterSide(s, s') && SameShared(s, s') && forall p :: ReaderStep(s, s', p)
  {
  }

  lemma ReadBlockQuiet(s: State, t: nat, len: int)
    requires s.cur in s.procs && s.At(s.cur).resume == ToUser && t < |s.terms| && len > 0
    ensures var s' := Queueing(s, t, len);
            SameWriterSide(s, s') && SameShared(s, s') && forall p :: ReaderStep(s, s', p)
  {
  }

  lemma ReadInv(s: State, t: int, len: int, bufOk: bool, allocOk: bool)
    requires Inv(s) && s.cur != IDLE && s.At(s.cur).resume == ToUser
    ensures Inv(TtyRead(s, t, len, bufOk, allocOk))
  {
    if t < 0 || t >= NUM_TERMINALS || !bufOk || len <= 0 || (s.terms[t].readBuf != [] && !allocOk) {
      ReturnInv(s, ERROR);
    } else if s.terms[t].readBuf != [] {
      var s' := TtyRead(s, t, len, true, true);
      ReadNow(s, t, len);
      ReadNowQuiet(s, t, len);
      ReaderFrame(s, s');
      SamePlaces(s, s', true);
    } else {
      ReadBlockInv(s, t, len);
    }
  }

  lemma ReadBlockWell(s: State, t: nat, len: int, s': State)
    requires Inv(s) && s.cur != IDLE && s.At(s.cur).resume == ToUser && t < |s.terms| && len > 0
    requires s.terms[t].readBuf == [] && s' == Queueing(s, t, len)
    ensures Rest(s')
  {
    ReadBlock(s, t, len);
    ReadBlockQuiet(s, t, len);
    ReaderFrame(s, s');
  }

  lemma ReadBlockPlaces(s: State, t: nat, len: int, s': State)
    requires PlacementInv(s) && s.cur != IDLE && s.At(s.cur).resume == ToUser && t < |s.terms|
             && s' == Queueing(s, t, len)
    ensures Placed(s', false) && s'.mode == s.mode && IDLE in s'.procs && s'.At(IDLE) == s.At(IDLE)
  {
    var x' := s.terms[t].(readers := s.terms[t].readers + [s.cur]);
    var s1 := s.PutTerm(t, x').Put(s.cur, s.At(s.cur).(readLen := len));
    SamePlaces(s, s1, true);
    BlockPlaces(s1, FromRead(t));
  }

  lemma ReadBlockInv(s: State, t: nat, len: int)
    requires Inv(s) && s.cur != IDLE && s.At(s.cur).resume == ToUser && t < |s.terms| && len > 0
    requires s.terms[t].readBuf == []
    ensures Inv(TtyRead(s, t, len, true, true)) && TtyRead(s, t, len, true, false) == TtyRead(s, t, len, true, true)
  {
    var s' := Queueing(s, t, len);
    ReadBlockWell(s, t, len, s');
    ReadBlockPlaces(s, t, len, s');
    SwitchInv(s');
  }

  lemma UnpackQuiet(s: State)
    requires s.cur in s.procs && s.cur !in s.blocked && s.At(s.cur).resume.FromRead?
    ensures var s' := Unpack(s);
            SameWriterSide(s, s') && SameShared(s, s') && forall p :: ReaderStep(s, s', p)
  {
  }

  lemma UnpackInv(s: State)
    requires Inv(s) && s.cur != IDLE && s.At(s.cur).resume.FromRead?
    ensures Inv(Unpack(s))
  {
    UnpackWell(s, Unpack(s));
    UnpackPlaces(s, Unpack(s));
  }

  lemma UnpackWell(s: State, s': State)
    requires Inv(s) && s.cur != IDLE && s.At(s.cur).resume.FromRead? && s' == Unpack(s)
    ensures Rest(s')
  {
    CurrentNotQueued(s);
    UnpackReaders(s);
    UnpackQuiet(s);
    ReaderFrame(s, s');
  }

  lemma UnpackPlaces(s: State, s': State)
    requires PlacementInv(s) && s.cur in s.procs && s' == Unpack(s)
    ensures PlacementInv(s') && s'.mode == s.mode
  {
    SamePlaces(s, s', true);
  }

  // ---------------------------------------------------------------- receive trap

  lemma ServedQuiet(s: State, s': State, t: nat, r: Pid, d: Option<seq<Byte>>)
    requires t < |s.terms| && Served(s, s', t, r, d) && s.At(r).resume.FromRead?
    ensures SameWriterSide(s, s') && forall p :: ReaderStep(s, s', p)
  {
  }

  lemma HeadReader(s: State, t: nat)
    requires PlacementInv(s) && t < |s.terms| && ReaderCore(s, t) && s.terms[t].readers != []
    ensures var r := s.terms[t].readers[0];
            r in s.procs && r in s.blocked && s.At(r).resume.FromRead? && s.At(r).readLen > 0
  {
    var r := s.terms[t].readers[0];
    assert RoleOf(s, r).Role? && RoleOf(s, r).blocked;
    assert Places(s, r, true) >= 1;
  }

  lemma ServeOneLogs(s: State, t: nat, allocOk: bool)
    requires t < |s.terms| && s.terms[t].readers != [] && s.terms[t].readers[0] in s.procs
    ensures SameShared(s, ServeOne(s, t, allocOk)) && ServeOne(s, t, allocOk).mode == s.mode
  {
  }

  /** One round of the loop: whole, in one place, and one reader less. */
  lemma ServeOneInv(s: State, t: nat, allocOk: bool, s': State)
    requires PlacementInv(s) && StillWell(s) && Serving(s, t) && s.terms[t].readers != [] && s.terms[t].readBuf != []
    requires s' == ServeOne(s, t, allocOk)
    ensures PlacementInv(s') && StillWell(s') && Serving(s', t) && s'.mode == s.mode
    ensures |s'.terms[t].readers| < |s.terms[t].readers|
  {
    var r, d := s.terms[t].readers[0], Handout(s, t, allocOk);
    HeadReader(s, t);
    ServeOneServed(s, t, allocOk);
    ServeOnePlaces(s, t, allocOk);
    ServeOneLogs(s, t, allocOk);
    ServedReaders(s, s', t, r, d);
    ServedQuiet(s, s', t, r, d);
    ReaderFrame(s, s');
  }

  /** When the loop ends, nobody waits while there are bytes. */
  lemma ServedAll(s: State, t: nat)
    requires StillWell(s) && Serving(s, t) && (s.terms[t].readers == [] || s.terms[t].readBuf == [])
    ensures Rest(s)
  {
  }

  /** s' is what the loop makes of s. */
  lemma {:induction false} ServeInv(s: State, t: nat, allocs: seq<bool>, s': State)
    requires PlacementInv(s) && StillWell(s) && Serving(s, t) && s' == Serve(s, t, allocs)
    ensures PlacementInv(s') && Rest(s') && s'.mode == s.mode
    decreases |s.terms[t].readers|
  {
    if s.terms[t].readers != [] && s.terms[t].readBuf != [] {
      var s1 := ServeOne(s, t, NextAlloc(allocs));
      ServeOneInv(s, t, NextAlloc(allocs), s1);
      ServeInv(s1, t, LaterAllocs(allocs), s');
    } else {
      ServedAll(s, t);
    }
  }

  lemma ArrivedServing(s: State, t: nat, data: seq<Byte>)
    requires ReadersInv(s) && t < |s.terms| && |s.terms[t].readBuf| + |data| <= TERMINAL_MAX_LINE
    ensures var x := s.terms[t];
            Serving(s.PutTerm(t, Extended(x, data)), t)
  {
    var x := s.terms[t];
    var s1 := s.PutTerm(t, Extended(x, data));
    assert ReaderInv(s, t);
    assert SameRoles(s, s1);
    forall u | 0 <= u < |s1.terms| && u != t ensures ReaderInv(s1, u) { assert ReaderInv(s, u); }
    forall p ensures StashInv(s1, p) { assert StashInv(s, p); }
  }

  lemma ReceiveInv(s: State, t: nat, data: seq<Byte>, allocs: seq<bool>)
    requires Inv(s) && t < |s.terms| && |s.terms[t].readBuf| + |data| <= TERMINAL_MAX_LINE
    ensures Inv(ReceiveTrap(s, t, data, allocs))
  {
    var x := s.terms[t];
    var x1 := Extended(x, data);
    var s1 := s.PutTerm(t, x1);
    PutTermSame(s, t, x1);
    ArrivedServing(s, t, data);
    assert forall p :: ReaderStep(s, s1, p);
    ReaderFrame(s, s1);
    ServeInv(s1, t, allocs, ReceiveTrap(s, t, data, allocs));
  }

  // ---------------------------------------------------------------- the step theorem

  lemma HaltInv(s: State)
    requires Inv(s)
    ensures Inv(Halt(s))
  {
    SamePlaces(s, Halt(s), true);
    assert forall p :: Bystander(s, Halt(s), p);
    AllBystanders(s, Halt(s));
  }

  lemma ContinueInvIff(s: State, allocOk: bool)
    requires Inv(s) && s.At(s.cur).resume != ToUser
    ensures Inv(ContinueStep(s, allocOk)) <==> Good(s, Continue(allocOk))
  {
    CurrentNotQueued(s);
    assert Kin(s, s.cur);
    match s.At(s.cur).resume
    case FirstRun => FirstRunInvIff(s);
    case FromWait => WaitAgainInv(s);
    case FromRead(_) => UnpackInv(s);
    case FromLock(_, _) => LockResumeInvIff(s, allocOk);
    case FromIo(_, len) => ReturnInv(s, len);
    case FromDelay => ReturnInv(s, SUCCESS);
  }

  /** From any good state, a step leads to a good state exactly when it is a good step. */
  lemma StepIff(s: State, e: Event)
    requires Inv(s) && Enabled(s, e)
    ensures Inv(Next(s, e)) <==> Good(s, e)
  {
    match e
    case DoFork(child, ok) => if ok { ForkInv(s, child); } else { HaltInv(s); }
    case DoExit(status) => if s.cur == INIT { HaltInv(s); } else { ExitInvIff(s, status); }
    case DoWait => WaitInv(s);
    case DoDelay(n) => DelayStepInv(s, n);
    case DoRead(t, len, bufOk, allocOk) => ReadInv(s, t, len, bufOk, allocOk);
    case DoWrite(t, msg, bufOk, allocOk) => WriteInv(s, t, msg, bufOk, allocOk);
    case OnClock => ClockInv(s);
    case OnTransmit(t) => TransmitInv(s, t);
    case OnReceive(t, data, allocs) => ReceiveInv(s, t, data, allocs);
    case Continue(allocOk) => ContinueInvIff(s, allocOk);
  }
}
