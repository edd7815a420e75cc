/** What holds of every terminal: who may write, what was sent, who may read, what was delivered. */
module Terminals {
  import opened Common
  import opened KernelState

  // ---------------------------------------------------------------- chunks

  function CeilDiv(n: nat): nat { (n + TERMINAL_MAX_LINE - 1) / TERMINAL_MAX_LINE }

  function Chunk(m: seq<Byte>, k: nat): seq<Byte>
    requires k * TERMINAL_MAX_LINE <= |m|
  {
    m[k * TERMINAL_MAX_LINE..Min((k + 1) * TERMINAL_MAX_LINE, |m|)]
  }

  /** The line-sized pieces of a message. */
  function Chunks(m: seq<Byte>): seq<seq<Byte>> {
    seq(CeilDiv(|m|), k requires 0 <= k < CeilDiv(|m|) => Chunk(m, k))
  }

  function ChunksOf(calls: seq<Message>): seq<seq<Byte>> {
    if calls == [] then [] else ChunksOf(calls[..|calls| - 1]) + Chunks(calls[|calls| - 1].data)
  }

  /** Every TtyTransmit call made so far: the finished messages, then part of the current one. */
  ghost predicate Sent(x: Terminal) {
    && x.done <= |x.calls|
    && x.position <= |x.writeBuf|
    && x.position == Min(CeilDiv(x.position) * TERMINAL_MAX_LINE, |x.writeBuf|)
    && x.chunks == ChunksOf(x.calls[..x.done]) + Chunks(x.writeBuf)[..CeilDiv(x.position)]
  }

  // ---------------------------------------------------------------- roles

  /** What a terminal may depend on in a process that is inside TtyRead or TtyWrite. */
  datatype Role = NoRole | Role(resume: Resume, blocked: bool, readLen: int)

  function RoleOf(s: State, p: Pid): Role {
    var b := s.At(p);
    if b.resume.FromLock? || b.resume.FromIo? || b.resume.FromRead?
    then Role(b.resume, p in s.blocked, b.readLen) else NoRole
  }

  ghost predicate SameRoles(s: State, s': State) {
    forall p :: RoleOf(s', p) == RoleOf(s, p)
  }

  // ---------------------------------------------------------------- writers

  function Held(x: Terminal): nat { if x.inUse then 1 else 0 }

  /** The lock: calls are the finished ones, the holder's, then the waiting ones, in that order. */
  ghost predicate Queued(s: State, t: nat)
    requires t < |s.terms|
  {
    var x := s.terms[t];
    && |x.calls| == x.done + Held(x) + |x.writers|
    && (!x.inUse ==> x.writers == [])
    && (forall i :: 0 <= i < |x.writers| ==>
          var c := x.calls[x.done + Held(x) + i];
          c.writer == x.writers[i]
            && RoleOf(s, x.writers[i]) == Role(FromLock(t, c.data), true, s.At(c.writer).readLen))
    && (forall i, j :: 0 <= i < j < |x.writers| ==> x.writers[i] != x.writers[j])
    && (forall i :: 0 <= i < |x.calls| ==> x.calls[i].data != [])
  }

  /** The holder is transmitting, or was woken to take over and has not run yet. */
  ghost predicate Holder(s: State, t: nat)
    requires t < |s.terms|
  {
    var x := s.terms[t];
    && (x.inUse <==> x.writer.Some? || x.handed.Some?)
    && (x.writer.Some? ==> x.handed.None?)
    && (x.busy <==> x.writer.Some?)
    && (x.writer.None? ==> x.writeBuf == [])
    && (x.writer.Some? ==>
          && x.done < |x.calls| && x.calls[x.done] == Message(x.writer.value, x.writeBuf) && x.position > 0
          && RoleOf(s, x.writer.value) == Role(FromIo(t, |x.writeBuf|), true, s.At(x.writer.value).readLen))
    && (x.handed.Some? ==>
          && x.done < |x.calls| && x.calls[x.done].writer == x.handed.value
          && RoleOf(s, x.handed.value)
             == Role(FromLock(t, x.calls[x.done].data), false, s.At(x.handed.value).readLen))
  }

  ghost predicate WriterInv(s: State, t: nat)
    requires t < |s.terms|
  {
    Queued(s, t) && Holder(s, t) && Sent(s.terms[t])
  }

  /** Whoever is inside TtyWrite waiting for a lock is queued for it or was handed it. */
  ghost predicate LockInv(s: State, p: Pid) {
    var r := s.At(p).resume;
    r.FromLock? ==> r.tty < |s.terms| && (p in s.terms[r.tty].writers || s.terms[r.tty].handed == Some(p))
  }

  predicate Writes(x: Terminal, p: Pid) {
    x.writer == Some(p) || x.handed == Some(p) || p in x.writers
  }

  function WriterPart(x: Terminal): Terminal {
    x.(readers := [], readBuf := [], received := [])
  }

  lemma WriterFrame(s: State, s': State, t: nat)
    requires t < |s.terms| && t < |s'.terms| && WriterInv(s, t)
    requires WriterPart(s'.terms[t]) == WriterPart(s.terms[t])
    requires forall p :: Writes(s.terms[t], p) ==> RoleOf(s', p) == RoleOf(s, p)
    ensures WriterInv(s', t)
  {
    var x, x' := s.terms[t], s'.terms[t];
    assert x'.writer == WriterPart(x).writer && x'.handed == WriterPart(x).handed && x'.calls == WriterPart(x).calls;
    assert x'.writers == WriterPart(x).writers && x'.done == WriterPart(x).done && x'.chunks == WriterPart(x).chunks;
    assert x'.writeBuf == WriterPart(x).writeBuf && x'.position == WriterPart(x).position;
    assert x'.inUse == WriterPart(x).inUse && x'.busy == WriterPart(x).busy;
    assert Sent(x');
    forall i | 0 <= i < |x'.writers|
      ensures var c := x'.calls[x'.done + Held(x') + i];
              c.writer == x'.writers[i]
              && RoleOf(s', x'.writers[i]) == Role(FromLock(t, c.data), true, s'.At(c.writer).readLen)
    {
      assert x.writers[i] in x.writers;
      assert Writes(x, x.writers[i]);
    }
    assert x.writer.Some? ==> Writes(x, x.writer.value);
    assert x.handed.Some? ==> Writes(x, x.handed.value);
  }

  /** A process in user mode, or in any call but TtyWrite, has no part in writing. */
  lemma NotWriting(s: State, t: nat, p: Pid)
    requires t < |s.terms| && WriterInv(s, t)
    requires RoleOf(s, p).NoRole? || RoleOf(s, p).resume.FromRead?
             || (RoleOf(s, p).resume.FromLock? && RoleOf(s, p).resume.tty != t)
             || (RoleOf(s, p).resume.FromIo? && (RoleOf(s, p).resume.tty != t || !RoleOf(s, p).blocked))
    ensures !Writes(s.terms[t], p)
  {
  }

  lemma ChunksStep(m: seq<Byte>, pos: nat)
    requires pos < |m| && pos == Min(CeilDiv(pos) * TERMINAL_MAX_LINE, |m|)
    ensures var n := Min(|m| - pos, TERMINAL_MAX_LINE);
            && CeilDiv(pos) < |Chunks(m)|
            && CeilDiv(pos + n) == CeilDiv(pos) + 1
            && Chunks(m)[..CeilDiv(pos + n)] == Chunks(m)[..CeilDiv(pos)] + [m[pos..pos + n]]
            && pos + n == Min(CeilDiv(pos + n) * TERMINAL_MAX_LINE, |m|)
            && 0 < n <= TERMINAL_MAX_LINE
  {
    var k := CeilDiv(pos);
    assert Chunks(m)[k] == Chunk(m, k);
  }

  /** A message goes out in ceil(length / line) pieces, none empty, none over the line
      limit, and they are the message. */
  lemma {:induction false} ChunksAreTheMessage(m: seq<Byte>, k: nat)
    requires k <= CeilDiv(|m|)
    ensures |Chunks(m)| == CeilDiv(|m|)
    ensures forall i :: 0 <= i < |Chunks(m)| ==> 0 < |Chunks(m)[i]| <= TERMINAL_MAX_LINE
    ensures Flatten(Chunks(m)[..k]) == m[..Min(k * TERMINAL_MAX_LINE, |m|)]
  {
    if k > 0 {
      ChunksAreTheMessage(m, k - 1);
      assert Chunks(m)[..k][..k - 1] == Chunks(m)[..k - 1];
      assert Chunks(m)[k - 1] == Chunk(m, k - 1);
    }
  }

  function Flatten(cs: seq<seq<Byte>>): seq<Byte> {
    if cs == [] then [] else Flatten(cs[..|cs| - 1]) + cs[|cs| - 1]
  }

  function Texts(calls: seq<Message>): seq<Byte> {
    if calls == [] then [] else Texts(calls[..|calls| - 1]) + calls[|calls| - 1].data
  }

  lemma {:induction false} FlattenAppend(a: seq<seq<Byte>>, b: seq<seq<Byte>>)
    ensures Flatten(a + b) == Flatten(a) + Flatten(b)
  {
    if b == [] {
      assert a + b == a;
    } else {
      assert (a + b)[..|a + b| - 1] == a + b[..|b| - 1];
      FlattenAppend(a, b[..|b| - 1]);
    }
  }

  lemma {:induction false} FlattenCalls(calls: seq<Message>)
    ensures Flatten(ChunksOf(calls)) == Texts(calls)
  {
    if calls != [] {
      var m := calls[|calls| - 1].data;
      FlattenCalls(calls[..|calls| - 1]);
      FlattenAppend(ChunksOf(calls[..|calls| - 1]), Chunks(m));
      ChunksAreTheMessage(m, CeilDiv(|m|));
      assert Chunks(m)[..CeilDiv(|m|)] == Chunks(m);
    }
  }

  /** The bytes on the wire are whole messages in call order, then a prefix of the current one. */
  lemma WireIsMessages(x: Terminal)
    requires Sent(x)
    ensures Flatten(x.chunks) == Texts(x.calls[..x.done]) + x.writeBuf[..x.position]
  {
    var k := CeilDiv(x.position);
    FlattenAppend(ChunksOf(x.calls[..x.done]), Chunks(x.writeBuf)[..k]);
    FlattenCalls(x.calls[..x.done]);
    ChunksAreTheMessage(x.writeBuf, k);
  }
}
