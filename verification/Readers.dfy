/** Every step keeps the reader side of every terminal, and the delays. */
module Readers {
  import opened Common
  import opened KernelState
  import opened Placement
  import opened Terminals
  import opened Writers

  // ---------------------------------------------------------------- the delivery log

  /** The bytes terminal t handed out in the first n deliveries. */
  function FromUpTo(log: seq<Delivery>, t: nat, n: nat): seq<Byte>
    requires n <= |log|
  {
    if n == 0 then [] else FromUpTo(log, t, n - 1) + if log[n - 1].tty == t then log[n - 1].bytes else []
  }

  /** The bytes handed to process p in the first n deliveries. */
  function ToUpTo(log: seq<Delivery>, p: Pid, n: nat): seq<Byte>
    requires n <= |log|
  {
    if n == 0 then [] else ToUpTo(log, p, n - 1) + if log[n - 1].reader == p then log[n - 1].bytes else []
  }

  /** All that terminal t handed out, in order. */
  function From(log: seq<Delivery>, t: nat): seq<Byte> { FromUpTo(log, t, |log|) }

  /** All that process p was handed, in order. */
  function To(log: seq<Delivery>, p: Pid): seq<Byte> { ToUpTo(log, p, |log|) }

  lemma {:induction false} LoggedUpTo(log: seq<Delivery>, d: Delivery, t: nat, p: Pid, n: nat)
    requires n <= |log|
    ensures FromUpTo(log + [d], t, n) == FromUpTo(log, t, n) && ToUpTo(log + [d], p, n) == ToUpTo(log, p, n)
  {
    if n > 0 { LoggedUpTo(log, d, t, p, n - 1); }
  }

  lemma Logged(log: seq<Delivery>, d: Delivery, t: nat, p: Pid)
    ensures From(log + [d], t) == From(log, t) + if d.tty == t then d.bytes else []
    ensures To(log + [d], p) == To(log, p) + if d.reader == p then d.bytes else []
  {
    LoggedUpTo(log, d, t, p, |log|);
  }

  /** A process that was never handed anything. */
  lemma {:induction false} NeverGiven(log: seq<Delivery>, p: Pid, n: nat)
    requires n <= |log| && forall i :: 0 <= i < |log| ==> log[i].reader != p
    ensures ToUpTo(log, p, n) == []
  {
    if n > 0 { NeverGiven(log, p, n - 1); }
  }

  // ---------------------------------------------------------------- the invariant

  /** Nothing received is lost, repeated or reordered; blocked readers are in arrival order. */
  ghost predicate ReaderCore(s: State, t: nat)
    requires t < |s.terms|
  {
    var x := s.terms[t];
    && x.received == From(s.log, t) + x.readBuf && |x.readBuf| <= TERMINAL_MAX_LINE
    && (forall i :: 0 <= i < |x.readers| ==>
          var r := RoleOf(s, x.readers[i]);
          r.Role? && r.resume == FromRead(t) && r.blocked && r.readLen > 0)
    && (forall i, j :: 0 <= i < j < |x.readers| ==> x.readers[i] != x.readers[j])
  }

  ghost predicate ReaderInv(s: State, t: nat)
    requires t < |s.terms|
  {
    ReaderCore(s, t) && (s.terms[t].readers != [] ==> s.terms[t].readBuf == [])
  }

  function Stashed(b: Pcb): seq<Byte> { if b.stash.Some? then b.stash.value else [] }

  /** What a process was given is what reached its user buffers plus its stash. */
  ghost predicate StashInv(s: State, p: Pid) {
    var b := s.At(p);
    && (p in s.procs ==> To(s.log, p) == b.got + Stashed(b))
    && (b.stash.Some? ==> b.resume.FromRead? && p !in s.blocked && b.ret == |b.stash.value| > 0)
    && (b.resume.FromRead? && p in s.blocked ==> b.resume.tty < |s.terms| && p in s.terms[b.resume.tty].readers)
  }

  ghost predicate ReadersInv(s: State) {
    && |s.terms| == NUM_TERMINALS
    && (forall t :: 0 <= t < |s.terms| ==> ReaderInv(s, t))
    && (forall p :: StashInv(s, p))
    && LogInv(s)
  }

  /** Only processes that were born are ever handed bytes. */
  ghost predicate LogInv(s: State) { forall i :: 0 <= i < |s.log| ==> s.log[i].reader in s.births }

  predicate Reading(s: State, p: Pid) { s.At(p).resume.FromRead? }

  ghost predicate SameReading(s: State, s': State, p: Pid) {
    var b, b' := s.At(p), s'.At(p);
    || (p !in s'.procs && !Reading(s, p))
    || (p in s'.procs && p !in s.procs && p !in s.births && b'.got == [] && b'.stash.None? && !Reading(s', p))
    || (&& (p in s'.procs ==> p in s.procs) && b'.got == b.got && b'.stash == b.stash
        && (b.stash.Some? ==> b'.ret == b.ret)
        && (Reading(s, p) <==> Reading(s', p))
        && (Reading(s, p) ==> RoleOf(s', p) == RoleOf(s, p)))
  }

  lemma ReadersFrame(s: State, s': State)
    requires ReadersInv(s) && |s'.terms| == |s.terms| && s'.log == s.log && s.births.Keys <= s'.births.Keys
    requires forall t :: 0 <= t < |s.terms| ==>
               && s'.terms[t].readers == s.terms[t].readers && s'.terms[t].readBuf == s.terms[t].readBuf
               && s'.terms[t].received == s.terms[t].received
    requires forall p :: SameReading(s, s', p)
    ensures ReadersInv(s')
  {
    forall t | 0 <= t < |s'.terms| ensures ReaderInv(s', t) {
      assert ReaderInv(s, t);
      forall i | 0 <= i < |s'.terms[t].readers|
        ensures var r := RoleOf(s', s'.terms[t].readers[i]);
                r.Role? && r.resume == FromRead(t) && r.blocked && r.readLen > 0
      {
        assert SameReading(s, s', s.terms[t].readers[i]);
      }
    }
    forall p ensures StashInv(s', p) {
      assert SameReading(s, s', p) && StashInv(s, p);
      if p !in s.births { NeverGiven(s.log, p, |s.log|); }
    }
    forall i | 0 <= i < |s'.log| ensures s'.log[i].reader in s'.births { assert s.log[i].reader in s.births; }
  }

  // ---------------------------------------------------------------- TtyRead

  /** The current process took d.bytes from the front of terminal t's buffer. */
  ghost predicate TookNow(s: State, s': State, t: nat, d: Delivery)
    requires t < |s.terms|
  {
    var x, b := s.terms[t], s.At(s.cur);
    && s'.log == s.log + [d] && d.tty == t && d.reader == s.cur && s'.births == s.births
    && d.bytes <= x.readBuf && s'.terms == s.terms[t := x.(readBuf := x.readBuf[|d.bytes|..])]
    && s'.procs == s.procs[s.cur := b.(ret := |d.bytes|, resume := ToUser, got := b.got + d.bytes)]
    && s'.blocked == s.blocked
  }

  lemma ReadTook(s: State, t: nat, len: int, d: Delivery)
    requires t < |s.terms| && t < NUM_TERMINALS && s.terms[t].readBuf != [] && len > 0
    requires d == Delivery(t, s.cur, s.terms[t].readBuf[..Min(len, |s.terms[t].readBuf|)], false)
    ensures TookNow(s, TtyRead(s, t, len, true, true), t, d)
  {
  }

  lemma TookRoles(s: State, s': State, t: nat, d: Delivery)
    requires t < |s.terms| && s.cur in s.procs && s.At(s.cur).resume == ToUser && TookNow(s, s', t, d)
    ensures forall p :: RoleOf(s', p) == RoleOf(s, p) && s'.At(p).readLen == s.At(p).readLen
  {
  }

  lemma TookTerminals(s: State, s': State, t: nat, d: Delivery, u: nat)
    requires ReadersInv(s) && t < |s.terms| && s.cur in s.procs && s.At(s.cur).resume == ToUser
    requires TookNow(s, s', t, d) && s.terms[t].readBuf != [] && u < |s.terms|
    ensures ReaderInv(s', u)
  {
    assert ReaderInv(s, t) && ReaderInv(s, u);
    TookRoles(s, s', t, d);
    Logged(s.log, d, u, s.cur);
  }

  lemma TookStash(s: State, s': State, t: nat, d: Delivery, p: Pid)
    requires ReadersInv(s) && t < |s.terms| && s.cur in s.procs && s.At(s.cur).resume == ToUser && TookNow(s, s', t, d)
    ensures StashInv(s', p)
  {
    assert StashInv(s, p);
    Logged(s.log, d, t, p);
  }

  /** A read that finds data takes the oldest bytes. */
  lemma ReadNow(s: State, t: nat, len: int)
    requires ReadersInv(s) && t < |s.terms| && s.At(s.cur).resume == ToUser && s.cur in s.procs && len > 0
    requires s.terms[t].readBuf != [] && s.cur in s.births
    ensures ReadersInv(TtyRead(s, t, len, true, true))
  {
    var s' := TtyRead(s, t, len, true, true);
    var d := Delivery(t, s.cur, s.terms[t].readBuf[..Min(len, |s.terms[t].readBuf|)], false);
    ReadTook(s, t, len, d);
    forall u | 0 <= u < |s'.terms| ensures ReaderInv(s', u) { TookTerminals(s, s', t, d, u); }
    forall p ensures StashInv(s', p) { TookStash(s, s', t, d, p); }
  }

  function Queueing(s: State, t: nat, len: int): State
    requires t < |s.terms|
  {
    var x := s.terms[t];
    Block(s.PutTerm(t, x.(readers := x.readers + [s.cur])).Put(s.cur, s.At(s.cur).(readLen := len)), FromRead(t))
  }

  /** What queueing for terminal t changes: the current process and the end of the queue. */
  ghost predicate Queues(s: State, s': State, t: nat, len: int)
    requires t < |s.terms|
  {
    && s'.terms == s.terms[t := s.terms[t].(readers := s.terms[t].readers + [s.cur])] && s'.log == s.log
    && s'.births == s.births && s'.procs.Keys == s.procs.Keys && s'.blocked == s.blocked + [s.cur]
    && (forall p :: p != s.cur ==> s'.At(p) == s.At(p))
    && s'.At(s.cur) == s.At(s.cur).(readLen := len, state := Blocked, resume := FromRead(t))
  }

  lemma QueueingQueues(s: State, t: nat, len: int)
    requires t < |s.terms| && s.cur in s.procs
    ensures Queues(s, Queueing(s, t, len), t, len)
  {
  }

  lemma QueuedTerminal(s: State, s': State, t: nat, len: int, u: nat)
    requires t < |s.terms| && u < |s.terms| && s.At(s.cur).resume == ToUser && s.cur in s.procs && len > 0
    requires s.terms[t].readBuf == [] && Queues(s, s', t, len) && ReaderInv(s, u)
    ensures ReaderInv(s', u)
  {
    assert forall p :: p != s.cur ==> RoleOf(s', p) == RoleOf(s, p);
  }

  lemma QueuedReaders(s: State, s': State, t: nat, len: int)
    requires ReadersInv(s) && t < |s.terms| && s.At(s.cur).resume == ToUser && s.cur in s.procs && len > 0
    requires s.terms[t].readBuf == [] && Queues(s, s', t, len)
    ensures ReadersInv(s')
  {
    forall u | 0 <= u < |s'.terms| ensures ReaderInv(s', u) { QueuedTerminal(s, s', t, len, u); }
    assert StashInv(s, s.cur);
    forall p ensures StashInv(s', p) { assert StashInv(s, p); }
  }

  /** A read that finds nothing joins the end of the queue. */
  lemma ReadBlock(s: State, t: nat, len: int)
    requires ReadersInv(s) && t < |s.terms| && s.At(s.cur).resume == ToUser && s.cur in s.procs && len > 0
    requires s.terms[t].readBuf == []
    ensures ReadersInv(Queueing(s, t, len))
  {
    QueueingQueues(s, t, len);
    QueuedReaders(s, Queueing(s, t, len), t, len);
  }

  lemma UnpackReaders(s: State)
    requires ReadersInv(s) && s.cur in s.procs && s.cur !in s.blocked && Reading(s, s.cur)
    ensures ReadersInv(Unpack(s))
    ensures Unpack(s).At(s.cur).got == To(s.log, s.cur)
  {
    var s' := Unpack(s);
    assert StashInv(s, s.cur);
    assert forall p :: p != s.cur ==> RoleOf(s', p) == RoleOf(s, p) && s'.At(p) == s.At(p);
    forall u | 0 <= u < |s'.terms| ensures ReaderInv(s', u) { assert ReaderInv(s, u); }
    forall p ensures StashInv(s', p) { assert StashInv(s, p); }
  }

  // ---------------------------------------------------------------- receive trap

  /** The loop invariant of the receive handler. */
  ghost predicate Serving(s: State, t: nat) {
    && |s.terms| == NUM_TERMINALS && t < |s.terms|
    && ReaderCore(s, t)
    && (forall u :: 0 <= u < |s.terms| && u != t ==> ReaderInv(s, u))
    && (forall p :: StashInv(s, p)) && LogInv(s)
  }

  /** The head of the reader queue with its bytes in its stash, still blocked. */
  function Filled(s: State, r: Pid, data: Option<seq<Byte>>): State {
    var b := s.At(r);
    if data.Some? then s.Put(r, b.(stash := data, ret := |data.value|)) else s.Put(r, b.(ret := 0))
  }

  function Handout(s: State, t: nat, allocOk: bool): Option<seq<Byte>>
    requires t < |s.terms| && s.terms[t].readers != []
  {
    var x := s.terms[t];
    var n := Min(s.At(x.readers[0]).readLen, |x.readBuf|);
    if allocOk && 0 <= n then Some(x.readBuf[..n]) else None
  }

  lemma ServeOneForm(s: State, t: nat, allocOk: bool)
    requires t < |s.terms| && s.terms[t].readers != []
    ensures var x, r, d := s.terms[t], s.terms[t].readers[0], Handout(s, t, allocOk);
            var n := if d.Some? then |d.value| else 0;
            n <= |x.readBuf| && ServeOne(s, t, allocOk)
            == Wake(Filled(s, r, d), r).PutTerm(t, x.(readers := x.readers[1..], readBuf := x.readBuf[n..]))
               .Log(Delivery(t, r, Bytes(d), true))
  {
    var x := s.terms[t];
    assert x.readBuf[0..] == x.readBuf;
  }

  function Bytes(d: Option<seq<Byte>>): seq<Byte> { if d.Some? then d.value else [] }

  lemma ServeOnePlaces(s: State, t: nat, allocOk: bool)
    requires PlacementInv(s) && t < |s.terms| && s.terms[t].readers != [] && s.terms[t].readers[0] in s.blocked
    ensures PlacementInv(ServeOne(s, t, allocOk)) && ServeOne(s, t, allocOk).cur == s.cur
  {
    var r := s.terms[t].readers[0];
    assert Places(s, r, true) >= 1;
    ServeOneForm(s, t, allocOk);
    var s0 := Filled(s, r, Handout(s, t, allocOk));
    SamePlaces(s, s0, true);
    WakePlaces(s0, r);
    SamePlaces(Wake(s0, r), ServeOne(s, t, allocOk), true);
  }

  /** What serving r changes: r's stash and place, and terminal t. */
  ghost predicate Served(s: State, s': State, t: nat, r: Pid, d: Option<seq<Byte>>)
    requires t < |s.terms|
  {
    var x := s.terms[t];
    var n := if d.Some? then |d.value| else 0;
    && n <= |x.readBuf| && (d.Some? ==> d.value == x.readBuf[..n] && n > 0)
    && x.readers != [] && r == x.readers[0]
    && s'.terms == s.terms[t := x.(readers := x.readers[1..], readBuf := x.readBuf[n..])]
    && s'.log == s.log + [Delivery(t, r, Bytes(d), true)] && s'.births == s.births && s'.procs.Keys == s.procs.Keys
    && r !in s'.blocked && (forall p :: p != r ==> (p in s'.blocked <==> p in s.blocked) && s'.At(p) == s.At(p))
    && s'.At(r) == Filled(s, r, d).At(r).(state := Ready)
  }

  lemma FilledWoken(s: State, r: Pid, d: Option<seq<Byte>>)
    requires PlacementInv(s) && r in s.blocked
    ensures var s' := Wake(Filled(s, r, d), r);
            && r !in s'.blocked && s'.At(r) == Filled(s, r, d).At(r).(state := Ready) && s'.terms == s.terms
            && s'.log == s.log && s'.births == s.births && s'.procs.Keys == s.procs.Keys
            && forall p :: p != r ==> (p in s'.blocked <==> p in s.blocked) && s'.At(p) == s.At(p)
  {
    var s0 := Filled(s, r, d);
    assert Places(s, r, true) >= 1;
    SamePlaces(s, s0, true);
    WakePlaces(s0, r);
    RemoveFirstMember(s0.blocked, r);
  }

  lemma ServeOneServed(s: State, t: nat, allocOk: bool)
    requires PlacementInv(s) && t < |s.terms| && s.terms[t].readers != [] && s.terms[t].readBuf != []
    requires s.terms[t].readers[0] in s.blocked && s.At(s.terms[t].readers[0]).readLen > 0
    ensures Served(s, ServeOne(s, t, allocOk), t, s.terms[t].readers[0], Handout(s, t, allocOk))
  {
    ServeOneForm(s, t, allocOk);
    FilledWoken(s, s.terms[t].readers[0], Handout(s, t, allocOk));
  }

  lemma ServedReaders(s: State, s': State, t: nat, r: Pid, d: Option<seq<Byte>>)
    requires Serving(s, t) && Served(s, s', t, r, d) && r in s.births
    ensures Serving(s', t)
  {
    assert forall p :: p != r ==> RoleOf(s', p) == RoleOf(s, p);
    ServedHere(s, s', t, r, d);
    forall u | 0 <= u < |s'.terms| && u != t ensures ReaderInv(s', u) { ServedElsewhere(s, s', t, r, d, u); }
    forall p ensures StashInv(s', p) { ServedStash(s, s', t, r, d, p); }
  }

  lemma ServedHere(s: State, s': State, t: nat, r: Pid, d: Option<seq<Byte>>)
    requires Serving(s, t) && Served(s, s', t, r, d) && forall p :: p != r ==> RoleOf(s', p) == RoleOf(s, p)
    ensures ReaderCore(s', t)
  {
    Logged(s.log, Delivery(t, r, Bytes(d), true), t, r);
    assert r !in s.terms[t].readers[1..];
  }

  lemma ServedElsewhere(s: State, s': State, t: nat, r: Pid, d: Option<seq<Byte>>, u: nat)
    requires Serving(s, t) && Served(s, s', t, r, d) && forall p :: p != r ==> RoleOf(s', p) == RoleOf(s, p)
    requires u < |s.terms| && u != t
    ensures ReaderInv(s', u)
  {
    assert RoleOf(s, r).Role? && ReaderInv(s, u);
    Logged(s.log, Delivery(t, r, Bytes(d), true), u, r);
  }

  lemma ServedStash(s: State, s': State, t: nat, r: Pid, d: Option<seq<Byte>>, p: Pid)
    requires Serving(s, t) && Served(s, s', t, r, d)
    ensures StashInv(s', p)
  {
    assert RoleOf(s, r).Role? && StashInv(s, r) && StashInv(s, p);
    Logged(s.log, Delivery(t, r, Bytes(d), true), t, p);
    assert p in s.terms[t].readers ==> p == r || p in s.terms[t].readers[1..];
  }

  // ---------------------------------------------------------------- Delay

  /** Only a process blocked in Delay has ticks left, and it has. */
  ghost predicate DelayInv(s: State, p: Pid) {
    var b := s.At(p);
    && (b.delay != 0 ==> p in s.blocked && b.resume == FromDelay && b.delay >= -1)
    && (b.resume == FromDelay && p in s.blocked ==> b.delay != 0)
  }

  ghost predicate DelaysInv(s: State) { forall p :: DelayInv(s, p) }
}
