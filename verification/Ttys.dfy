/** The terminal structures: each read buffer is a fixed array that is shifted down in place. */
module Ttys {
  import opened Common
  import opened KernelState

  class Tty {
    const buf: array<Byte>
    var len: nat
    var writeBuf: seq<Byte>
    var position: nat
    var writer: Option<Pid>
    var inUse: bool
    ghost var calls: seq<Message>
    ghost var done: nat
    ghost var handed: Option<Pid>
    ghost var chunks: seq<seq<Byte>>
    ghost var busy: bool
    ghost var received: seq<Byte>

    ghost predicate Valid()
      reads this
    {
      buf.Length == TERMINAL_MAX_LINE && len <= buf.Length
    }

    /** The terminal the step system speaks of, but for its two queues. */
    ghost function Value(): Terminal
      requires Valid()
      reads this, buf
    {
      Terminal([], [], buf[..len], writeBuf, position, writer, inUse,
               calls, done, handed, chunks, busy, received)
    }

    constructor ()
      ensures Valid() && fresh(buf) && Value() == NO_TERMINAL
    {
      buf := new Byte[TERMINAL_MAX_LINE];
      len, writeBuf, position, writer, inUse := 0, [], 0, None, false;
      calls, done, handed, chunks, busy, received := [], 0, None, [], false, [];
    }

    /** memcpy of n bytes out of the read buffer, then memmove of the rest to its start. */
    method Take(n: nat) returns (data: seq<Byte>)
      requires Valid() && n <= len
      modifies this, buf
      ensures Valid() && data == old(Value()).readBuf[..n]
      ensures Value() == old(Value()).(readBuf := old(Value()).readBuf[n..])
    {
      ghost var was := buf[..len];
      data := buf[..n];
      var i := 0;
      while i < len - n
        invariant 0 <= i <= len - n && len == old(len) && |was| == len
        invariant forall k :: 0 <= k < i ==> buf[k] == was[n + k]
        invariant forall k :: i <= k < len ==> buf[k] == was[k]
        modifies buf
      {
        buf[i] := buf[n + i];
        i := i + 1;
      }
      len := len - n;
      assert buf[..len] == was[n..];
    }

    /** TtyReceive into the free part of the read buffer. */
    method Receive(data: seq<Byte>)
      requires Valid() && len + |data| <= TERMINAL_MAX_LINE
      modifies this, buf
      ensures Valid()
      ensures Value() == Extended(old(Value()), data)
    {
      ghost var was := buf[..len];
      var i := 0;
      while i < |data|
        invariant 0 <= i <= |data| && len == old(len) && buf[..len + i] == was + data[..i]
        modifies buf
      {
        buf[len + i] := data[i];
        i := i + 1;
        assert data[..i] == data[..i - 1] + [data[i - 1]];
      }
      assert data[..i] == data;
      len, received := len + |data|, received + data;
    }

    /** The hardware call, for the next chunk of the message. */
    method SendChunk()
      requires Valid() && position <= |writeBuf|
      modifies this
      ensures Valid() && Value() == Advanced(old(Value()))
    {
      var left := |writeBuf| - position;
      var n := if left > TERMINAL_MAX_LINE then TERMINAL_MAX_LINE else left;
      chunks, busy := chunks + [writeBuf[position..position + n]], true;
      position := position + n;
    }

    /** A TtyWrite call was accepted. */
    ghost method Accept(m: Message)
      requires Valid()
      modifies this
      ensures Valid() && Value() == old(Value()).(calls := old(calls) + [m])
    {
      calls := calls + [m];
    }

    /** BeginTtyTransmit when its malloc succeeds. */
    method Start(msg: seq<Byte>, p: Pid)
      requires Valid()
      modifies this
      ensures Valid() && Value() == Started(old(Value()), msg, p)
    {
      inUse, writeBuf, position, writer := true, msg, 0, Some(p);
      handed := None;
      SendChunk();
    }

    /** The same when malloc fails: the lock is released. */
    method GiveUp()
      requires Valid()
      modifies this
      ensures Valid() && Value() == GivenUp(old(Value()))
    {
      writeBuf, inUse := [], false;
      handed := None;
      calls := if done < |calls| then calls[..done] + calls[done + 1..] else calls;
    }

    /** The cleanup of the transmit handler; the lock goes to `next`, if there is one. */
    method Finish(next: Option<Pid>)
      requires Valid()
      modifies this
      ensures Valid() && Value() == Finished(old(Value()), next)
    {
      writeBuf, position, writer := [], 0, None;
      busy, done := false, done + 1;
      if next == None { inUse := false; } else { handed := next; }
    }
  }

  /** The transmitter's part of a terminal does not depend on its queues. */
  lemma QueuesApart(x: Terminal, y: Terminal, next: Option<Pid>)
    requires x == y.(writers := x.writers, readers := x.readers)
    ensures x.position <= |x.writeBuf| ==> Advanced(x) == Advanced(y).(writers := x.writers, readers := x.readers)
    ensures Finished(x, next) == Finished(y, next).(writers := x.writers, readers := x.readers)
  {}

  /** All the terminals, which share no memory. */
  class Bank {
    const ttys: seq<Tty>
    ghost const Repr: set<object>
    ghost var values: seq<Terminal>

    ghost predicate Apart()
      reads this
    {
      && this in Repr && |ttys| == |values| == NUM_TERMINALS
      && (forall t {:trigger ttys[t]} :: 0 <= t < |ttys| ==> ttys[t] in Repr && ttys[t].buf in Repr)
      && (forall t, u :: 0 <= t < u < |ttys| ==> ttys[t] != ttys[u] && ttys[t].buf != ttys[u].buf)
    }

    /** Every terminal but the t-th is as recorded. */
    ghost predicate Besides(t: nat)
      reads this, Repr
    {
      && Apart()
      && (forall u {:trigger ttys[u]} :: 0 <= u < |ttys| && u != t ==> ttys[u].Valid() && ttys[u].Value() == values[u])
    }

    ghost predicate Valid()
      reads this, Repr
    {
      && Apart()
      && (forall t {:trigger ttys[t]} :: 0 <= t < |ttys| ==> ttys[t].Valid() && ttys[t].Value() == values[t])
    }

    constructor ()
      ensures Valid() && fresh(Repr) && values == [NO_TERMINAL, NO_TERMINAL, NO_TERMINAL, NO_TERMINAL]
    {
      var made: seq<Tty> := [];
      ghost var all: set<object> := {};
      while |made| < NUM_TERMINALS
        invariant |made| <= NUM_TERMINALS && fresh(all)
        invariant forall t :: 0 <= t < |made| ==> made[t] in all && made[t].buf in all
        invariant forall t :: 0 <= t < |made| ==> made[t].Valid() && made[t].Value() == NO_TERMINAL
        invariant forall t, u :: 0 <= t < u < |made| ==> made[t] != made[u] && made[t].buf != made[u].buf
      {
        var x := new Tty();
        made, all := made + [x], all + {x, x.buf};
      }
      ttys, values := made, [NO_TERMINAL, NO_TERMINAL, NO_TERMINAL, NO_TERMINAL];
      Repr := all + {this};
    }

    /** Record what became of the t-th terminal. */
    ghost method Note(t: nat)
      requires Besides(t) && t < |ttys| && ttys[t].Valid()
      modifies this`values
      ensures Valid() && values == old(values)[t := ttys[t].Value()]
    {
      values := values[t := ttys[t].Value()];
    }

    method Take(t: nat, n: nat) returns (data: seq<Byte>)
      requires Valid() && t < NUM_TERMINALS && n <= |values[t].readBuf|
      modifies Repr
      ensures Valid() && data == old(values)[t].readBuf[..n]
      ensures values == old(values)[t := old(values)[t].(readBuf := old(values)[t].readBuf[n..])]
    {
      data := ttys[t].Take(n);
      Note(t);
    }

    method Receive(t: nat, data: seq<Byte>)
      requires Valid() && t < NUM_TERMINALS && |values[t].readBuf| + |data| <= TERMINAL_MAX_LINE
      modifies Repr
      ensures Valid() && values == old(values)[t := Extended(old(values)[t], data)]
    {
      ttys[t].Receive(data);
      Note(t);
    }

    method SendChunk(t: nat)
      requires Valid() && t < NUM_TERMINALS && values[t].position <= |values[t].writeBuf|
      modifies Repr
      ensures Valid()
      ensures values == old(values)[t := Advanced(old(values)[t])]
    {
      ttys[t].SendChunk();
      Note(t);
    }

    ghost method Accept(t: nat, m: Message)
      requires Valid() && t < NUM_TERMINALS
      modifies Repr
      ensures Valid() && values == old(values)[t := old(values)[t].(calls := old(values)[t].calls + [m])]
    {
      ttys[t].Accept(m);
      Note(t);
    }

    method Start(t: nat, msg: seq<Byte>, p: Pid)
      requires Valid() && t < NUM_TERMINALS
      modifies Repr
      ensures Valid() && values == old(values)[t := Started(old(values)[t], msg, p)]
    {
      ttys[t].Start(msg, p);
      Note(t);
    }

    method GiveUp(t: nat)
      requires Valid() && t < NUM_TERMINALS
      modifies Repr
      ensures Valid() && values == old(values)[t := GivenUp(old(values)[t])]
    {
      ttys[t].GiveUp();
      Note(t);
    }

    method Finish(t: nat, next: Option<Pid>)
      requires Valid() && t < NUM_TERMINALS
      modifies Repr
      ensures Valid() && values == old(values)[t := Finished(old(values)[t], next)]
    {
      ttys[t].Finish(next);
      Note(t);
    }
  }
}
