/**
 The kernel's code, working on the kernel's data in place.  Each method is one stretch
 of kernel code, and together they do exactly what the step system does.
 */
module Kernel {
  import opened Common
  import opened KernelState
  import opened Invariant
  import opened Placement
  import opened Family
  import opened Writers
  import opened ProcessQueue
  import opened Machines
  import TtySteps

  /** What the kernel code takes for granted. */
  ghost predicate Assumed(s: State, e: Event) {
    && (s.cur != IDLE ==> s.cur !in s.zombie)
    && (e.DoFork? ==> e.child != s.cur && e.child !in s.procs)
    && (e.Continue? ==>
          var r := s.At(s.cur).resume; s.cur != IDLE && !r.Never? && (r.FromLock? ==> r.tty < NUM_TERMINALS))
  }

  /** It holds in every reachable state. */
  lemma CodeAssumes(s: State, e: Event)
    requires Inv(s) && Enabled(s, e)
    ensures Assumed(s, e)
  {
    if s.cur != IDLE {
      CurrentNotQueued(s);
      assert Places(s, s.cur, true) == 1;
      assert Kin(s, s.cur);
    }
    assert e.DoFork? && e.child in s.procs ==> Kin(s, e.child);
    if e.Continue? && s.At(s.cur).resume.FromLock? {
      TakeHanded(s, s.At(s.cur).resume.tty, s.At(s.cur).resume.msg);
    }
  }

  // ---------------------------------------------------------------- scheduling

  /** KernelContextSwitch(KCSwitch, ...) to next. */
  method ContextSwitch(m: Machine, next: Pid)
    requires m.Valid()
    modifies m
    ensures m.Valid()
    ensures m.view == RunProc(old(m.view), next)
  {
    m.SetCurrent(next);
    var b := m.Get(next);
    m.Set(next, b.(state := Running));
  }

  method SwitchToNext(m: Machine)
    requires m.Valid()
    modifies m.Repr()
    ensures m.Valid() && fresh(m.queues.Repr - old(m.queues.Repr)) && fresh(m.kids.Repr - old(m.kids.Repr))
    ensures m.view == Switch(old(m.view))
  {
    var next := IDLE;
    var none := m.IsEmpty(READY);
    if !none { next := TakeReady(m); }
    ContextSwitch(m, next);
  }

  method TakeReady(m: Machine) returns (p: Pid)
    requires m.Valid() && m.view.ready != []
    modifies m.Repr()
    ensures m.Valid() && fresh(m.queues.Repr - old(m.queues.Repr)) && fresh(m.kids.Repr - old(m.kids.Repr))
    ensures p == old(m.view).ready[0]
    ensures m.view == old(m.view).(ready := old(m.view).ready[1..], dispatched := old(m.view).dispatched + [p])
  {
    p := m.Pop(READY);
    m.Dispatched(p);
  }

  /** Put the current process on the blocked queue and switch away from it. */
  method Sleep(m: Machine, r: Resume)
    requires m.Valid()
    modifies m.Repr()
    ensures m.Valid() && fresh(m.queues.Repr - old(m.queues.Repr)) && fresh(m.kids.Repr - old(m.kids.Repr))
    ensures m.view == Switch(Block(old(m.view), r))
  {
    var b := m.Get(m.current);
    m.Set(m.current, b.(state := Blocked, resume := r));
    m.Push(BLOCKED, m.current);
    SwitchToNext(m);
  }

  method MakeReady(m: Machine, p: Pid) returns (ghost k: nat)
    requires m.Valid()
    modifies m.Repr()
    ensures m.Valid() && fresh(m.queues.Repr - old(m.queues.Repr)) && fresh(m.kids.Repr - old(m.kids.Repr))
    ensures m.view == Wake(old(m.view), p)
    ensures Lost(old(m.Nodes()), m.Nodes(), old(m.view).blocked, m.view.blocked, p, k)
  {
    var b := m.Get(p);
    m.Set(p, b.(state := Ready));
    k := m.Remove(BLOCKED, p);
    m.Push(READY, p);
  }

  method ReturnToUser(m: Machine, r: int)
    requires m.Valid()
    modifies m
    ensures m.Valid()
    ensures m.view == Return(old(m.view), r)
  {
    var b := m.Get(m.current);
    m.Set(m.current, b.(ret := r, resume := ToUser));
  }

  // ---------------------------------------------------------------- Fork, Exit, Wait, Delay

  /** Parent side of Fork; `child` is the pid helper_new_pid gave. */
  method DoFork(m: Machine, child: Pid)
    requires m.Valid() && child != m.current && child !in m.procs
    modifies m.Repr()
    ensures m.Valid() && fresh(m.queues.Repr - old(m.queues.Repr)) && fresh(m.kids.Repr - old(m.kids.Repr))
    ensures m.view == Fork(old(m.view), child)
  {
    var parent := m.current;
    var b := m.Get(parent);
    m.Born(child);
    m.Set(child, Pcb(Ready, FirstRun, parent, None, [], m.waiting0, 0, 0, 0, None, b.ret, []));
    m.Push(READY, child);
    Adopt(m, child);
  }

  /** The child joins the children queue of the current process, to which its pid is returned. */
  method Adopt(m: Machine, child: Pid)
    requires m.Valid()
    modifies m.Repr()
    ensures m.Valid() && fresh(m.queues.Repr - old(m.queues.Repr)) && fresh(m.kids.Repr - old(m.kids.Repr))
    ensures var s, b := old(m.view), old(m.view).At(old(m.view).cur);
            m.view == s.Put(s.cur, b.(children := b.children + [child], ret := child))
  {
    m.AddChild(m.current, child);
    var b := m.Get(m.current);
    m.Set(m.current, b.(ret := child));
    PutTwice(old(m.view), m.current, b, b.(ret := child));
  }

  lemma PutTwice(s: State, p: Pid, b: Pcb, c: Pcb)
    ensures s.Put(p, b).Put(p, c) == s.Put(p, c) && s.Put(p, b).At(p) == b
  {
    assert s.procs[p := b][p := c] == s.procs[p := c];
  }

  method DoForkChild(m: Machine)
    requires m.Valid()
    modifies m
    ensures m.Valid()
    ensures m.view == ForkChild(old(m.view))
  {
    var c := m.Get(m.current);
    if c.ppid !in m.procs { m.SetMode(Fault); return; }
    m.Set(m.current, c.(parent := Some(c.ppid), ret := 0, resume := ToUser));
  }

  method BuryCurrent(m: Machine, status: int)
    requires m.Valid()
    modifies m.Repr()
    ensures m.Valid() && fresh(m.queues.Repr - old(m.queues.Repr)) && fresh(m.kids.Repr - old(m.kids.Repr))
    ensures m.view == Bury(old(m.view), status)
  {
    m.Push(ZOMBIE, m.current);
    m.Exited(status);
    var b := m.Get(m.current);
    m.Set(m.current, b.(status := status, state := Zombie, resume := Never));
  }

  method WakeWaiting(m: Machine, parent: Option<Pid>)
    requires m.Valid()
    modifies m.Repr()
    ensures m.Valid() && fresh(m.queues.Repr - old(m.queues.Repr)) && fresh(m.kids.Repr - old(m.kids.Repr))
    ensures m.view == WakeParent(old(m.view), parent)
  {
    if parent.None? { return; }
    var b := m.Get(parent.value);
    if b.waiting != 0 {
      m.Set(parent.value, b.(state := Ready, waiting := 0));
      m.Push(READY, parent.value);
    }
  }

  method DoExit(m: Machine, status: int)
    requires m.Valid()
    modifies m.Repr()
    ensures m.Valid() && fresh(m.queues.Repr - old(m.queues.Repr)) && fresh(m.kids.Repr - old(m.kids.Repr))
    ensures m.view == Exit(old(m.view), status)
  {
    if m.current == INIT { m.SetMode(Halted); return; }
    var b := m.Get(m.current);
    BuryCurrent(m, status);
    WakeWaiting(m, b.parent);
    SwitchToNext(m);
  }

  /** The zombie leaves the children queue of the current process, to which its pid is returned. */
  method Disown(m: Machine, z: Pid)
    requires m.Valid()
    modifies m.Repr()
    ensures m.Valid() && fresh(m.queues.Repr - old(m.queues.Repr)) && fresh(m.kids.Repr - old(m.kids.Repr))
    ensures var s, b := old(m.view), old(m.view).At(old(m.view).cur);
            m.view == s.Put(s.cur, b.(children := RemoveFirst(b.children, z), ret := z, resume := ToUser))
  {
    m.RemoveChild(m.current, z);
    var b := m.Get(m.current);
    m.Set(m.current, b.(ret := z, resume := ToUser));
    PutTwice(old(m.view), m.current, b, b.(ret := z, resume := ToUser));
  }

  method ReapChild(m: Machine, z: Pid)
    requires m.Valid() && z != m.current
    modifies m.Repr()
    ensures m.Valid() && fresh(m.queues.Repr - old(m.queues.Repr)) && fresh(m.kids.Repr - old(m.kids.Repr))
    ensures m.view == Reap(old(m.view), z)
  {
    ghost var status := m.view.At(z).status;
    Disown(m, z);
    ghost var k := m.Remove(ZOMBIE, z);
    m.Reaped(Reaping(m.current, z, status));
    m.DeletePcb(z);
  }

  /** The walk along the zombie queue that Wait makes before and after blocking. */
  method FindZombie(m: Machine) returns (r: Option<Pid>)
    requires m.Valid()
    ensures r == FirstChild(m.view, m.view.zombie, m.view.cur)
  {
    var q := m.queues.qs[ZOMBIE];
    var node := q.head;
    ghost var s, zombie, i := m.view, m.view.zombie, 0;
    while node != null
      invariant 0 <= i && StandsAt(q.nodes, node, i) && |q.nodes| == |zombie|
      invariant FirstChild(s, zombie, s.cur) == FirstChild(s, zombie[i..], s.cur)
      decreases |zombie| - i
    {
      assert node.process == zombie[i] && zombie[i..][1..] == zombie[i + 1..];
      var b := m.Get(node.process);
      if b.ppid == m.current { return Some(node.process); }
      node, i := node.next, i + 1;
    }
    return None;
  }

  method DoWait(m: Machine)
    requires m.Valid() && m.current !in m.view.zombie
    modifies m.Repr()
    ensures m.Valid() && fresh(m.queues.Repr - old(m.queues.Repr)) && fresh(m.kids.Repr - old(m.kids.Repr))
    ensures m.view == Wait(old(m.view))
  {
    var none := m.NoChildren(m.current);
    if none { ReturnToUser(m, ERROR); return; }
    var found := FindZombie(m);
    if found.Some? { ReapChild(m, found.value); } else { WaitForChild(m); }
  }

  method WaitForChild(m: Machine)
    requires m.Valid()
    modifies m.Repr()
    ensures m.Valid() && fresh(m.queues.Repr - old(m.queues.Repr)) && fresh(m.kids.Repr - old(m.kids.Repr))
    ensures var s, b := old(m.view), old(m.view).At(old(m.view).cur);
            m.view == Switch(s.Put(s.cur, b.(state := Blocked, waiting := 1, resume := FromWait)))
  {
    var b := m.Get(m.current);
    m.Set(m.current, b.(state := Blocked, waiting := 1, resume := FromWait));
    SwitchToNext(m);
  }

  method DoWaitAgain(m: Machine)
    requires m.Valid() && m.current !in m.view.zombie
    modifies m.Repr()
    ensures m.Valid() && fresh(m.queues.Repr - old(m.queues.Repr)) && fresh(m.kids.Repr - old(m.kids.Repr))
    ensures m.view == WaitAgain(old(m.view))
  {
    var found := FindZombie(m);
    if found.Some? { ReapChild(m, found.value); } else { ReturnToUser(m, ERROR); }
  }

  method DoDelay(m: Machine, n: int)
    requires m.Valid()
    modifies m.Repr()
    ensures m.Valid() && fresh(m.queues.Repr - old(m.queues.Repr)) && fresh(m.kids.Repr - old(m.kids.Repr))
    ensures m.view == Delay(old(m.view), n)
  {
    if n == 0 { ReturnToUser(m, SUCCESS); return; }
    if n < -1 { m.SetMode(Halted); return; }
    var b := m.Get(m.current);
    m.Set(m.current, b.(delay := n));
    Sleep(m, FromDelay);
  }

  // ---------------------------------------------------------------- clock trap

  /** The last tick of a delay. */
  method Expire(m: Machine, p: Pid, b: Pcb) returns (ghost k: nat)
    requires m.Valid() && b.children == m.view.At(p).children
    modifies m.Repr()
    ensures m.Valid() && fresh(m.queues.Repr - old(m.queues.Repr)) && fresh(m.kids.Repr - old(m.kids.Repr))
    ensures m.view == Wake(old(m.view).Put(p, b), p)
    ensures Lost(old(m.Nodes()), m.Nodes(), old(m.view).blocked, m.view.blocked, p, k)
  {
    m.Set(p, b);
    k := MakeReady(m, p);
  }

  /** One tick of a delay. */
  method CountDown(m: Machine, p: Pid, b: Pcb) returns (ghost k: nat)
    requires m.Valid() && |m.Nodes()| == |m.view.blocked| && b == m.view.At(p) && b.delay > 0
    modifies m.Repr()
    ensures m.Valid() && fresh(m.queues.Repr - old(m.queues.Repr)) && fresh(m.kids.Repr - old(m.kids.Repr))
    ensures m.view == Visit(old(m.view), p)
    ensures Lost(old(m.Nodes()), m.Nodes(), old(m.view).blocked, m.view.blocked, p, k)
  {
    if b.delay == 1 {
      k := Expire(m, p, b.(delay := 0));
    } else {
      k := |m.view.blocked|;
      m.Set(p, b.(delay := b.delay - 1));
    }
    VisitParts(old(m.view), p, b, m.view);
  }

  /** trapHandlerHelper. */
  method VisitBlocked(m: Machine, p: Pid) returns (ghost k: nat)
    requires m.Valid() && |m.Nodes()| == |m.view.blocked|
    modifies m.Repr()
    ensures m.Valid() && fresh(m.queues.Repr - old(m.queues.Repr)) && fresh(m.kids.Repr - old(m.kids.Repr))
    ensures m.view == Visit(old(m.view), p)
    ensures Lost(old(m.Nodes()), m.Nodes(), old(m.view).blocked, m.view.blocked, p, k)
  {
    var b := m.Get(p);
    k := |m.view.blocked|;
    if b.delay > 0 { k := CountDown(m, p, b); }
  }

  lemma VisitParts(s: State, p: Pid, b: Pcb, s': State)
    requires b == s.At(p)
    requires s' == if b.delay == 1 then Wake(s.Put(p, b.(delay := 0)), p)
                   else if b.delay > 0 then s.Put(p, b.(delay := b.delay - 1)) else s
    ensures s' == Visit(s, p)
  {
  }

  /** queueIterate over the blocked queue: the callback may unlink the node it is given,
      so its successor is saved first. */
  method SweepBlocked(m: Machine)
    requires m.Valid()
    modifies m.Repr()
    ensures m.Valid() && fresh(m.queues.Repr - old(m.queues.Repr)) && fresh(m.kids.Repr - old(m.kids.Repr))
    ensures m.view == Sweep(old(m.view))
  {
    var node := m.queues.qs[BLOCKED].head;
    ghost var j := 0;
    while node != null
      invariant 0 <= j && m.Valid() && fresh(m.queues.Repr - old(m.queues.Repr))
                && fresh(m.kids.Repr - old(m.kids.Repr))
      invariant StandsAt(m.Nodes(), node, j) && |m.Nodes()| == |m.view.blocked|
      invariant VisitAll(old(m.view), old(m.view).blocked) == VisitAll(m.view, m.view.blocked[j..])
      decreases |m.view.blocked| - j
    {
      var next := node.next;
      j := SweepOne(m, node, next, j);
      node := next;
    }
  }

  /** One round: the node's visit may unlink it, and the saved successor stands where the walk goes on. */
  method SweepOne(m: Machine, node: Node, next: Node?, ghost j: nat) returns (ghost j': nat)
    requires m.Valid() && StandsAt(m.Nodes(), node, j) && |m.Nodes()| == |m.view.blocked| && next == node.next
    modifies m.Repr()
    ensures m.Valid() && fresh(m.queues.Repr - old(m.queues.Repr)) && fresh(m.kids.Repr - old(m.kids.Repr))
    ensures StandsAt(m.Nodes(), next, j') && |m.Nodes()| == |m.view.blocked|
    ensures j < |old(m.view).blocked| && |m.view.blocked| - j' < |old(m.view).blocked| - j
    ensures VisitAll(old(m.view), old(m.view).blocked[j..]) == VisitAll(m.view, m.view.blocked[j'..])
  {
    ghost var s, nodes, ps := m.view, m.Nodes(), m.view.blocked;
    assert StandsAt(nodes, next, j + 1) && node.process == ps[j];
    ghost var k := VisitBlocked(m, node.process);
    j' := Onward(nodes, m.Nodes(), ps, m.view.blocked, j, k, next);
    VisitNext(s, ps, j, m.view, m.view.blocked[j'..]);
  }

  lemma VisitNext(s: State, ps: seq<Pid>, j: nat, s': State, rest: seq<Pid>)
    requires j < |ps| && s' == Visit(s, ps[j]) && rest == ps[j + 1..]
    ensures VisitAll(s, ps[j..]) == VisitAll(s', rest)
  {
    assert ps[j..][0] == ps[j] && ps[j..][1..] == rest;
  }

  /** A running process goes to the end of the ready queue. */
  method Requeue(m: Machine)
    requires m.Valid()
    modifies m.Repr()
    ensures m.Valid() && fresh(m.queues.Repr - old(m.queues.Repr)) && fresh(m.kids.Repr - old(m.kids.Repr))
    ensures m.view == Requeued(old(m.view))
  {
    var b := m.Get(m.current);
    if b.state == Running && m.current != IDLE {
      m.Set(m.current, b.(state := Ready));
      m.Push(READY, m.current);
    }
  }

  ghost function Requeued(s: State): State {
    var c := s.At(s.cur);
    if c.state == Running && s.cur != IDLE
    then s.(ready := s.ready + [s.cur]).Put(s.cur, c.(state := Ready))
    else s
  }

  method PreemptCurrent(m: Machine)
    requires m.Valid()
    modifies m.Repr()
    ensures m.Valid() && fresh(m.queues.Repr - old(m.queues.Repr)) && fresh(m.kids.Repr - old(m.kids.Repr))
    ensures m.view == Preempt(old(m.view))
  {
    var none := m.IsEmpty(READY);
    if none { return; }
    var next := TakeReady(m);
    Requeue(m);
    ContextSwitch(m, next);
  }

  method TickAndPreempt(m: Machine, ghost n: nat)
    requires m.Valid()
    modifies m.Repr()
    ensures m.Valid() && fresh(m.queues.Repr - old(m.queues.Repr)) && fresh(m.kids.Repr - old(m.kids.Repr))
    ensures m.view == Tick(old(m.view), n)
  {
    m.Ticked(n);
    PreemptCurrent(m);
  }

  method OnClock(m: Machine)
    requires m.Valid()
    modifies m.Repr()
    ensures m.Valid() && fresh(m.queues.Repr - old(m.queues.Repr)) && fresh(m.kids.Repr - old(m.kids.Repr))
    ensures m.view == Clock(old(m.view))
  {
    SweepBlocked(m);
    TickAndPreempt(m, old(m.view).ticks + 1);
  }

  // ---------------------------------------------------------------- terminals

  /** BeginTtyTransmit when its malloc succeeds, then sleep until all is sent. */
  method BeginTtyTransmit(m: Machine, t: nat, msg: seq<Byte>)
    requires m.Valid() && t < NUM_TERMINALS
    modifies m.Repr()
    ensures m.Valid() && fresh(m.queues.Repr - old(m.queues.Repr)) && fresh(m.kids.Repr - old(m.kids.Repr))
    ensures m.view == Begin(old(m.view), t, msg, true)
  {
    m.Start(t, msg, m.current);
    Sleep(m, FromIo(t, |msg|));
  }

  /** The same when malloc fails: release the lock and wake the next writer, if any. */
  method FailTtyTransmit(m: Machine, t: nat, msg: seq<Byte>)
    requires m.Valid() && t < NUM_TERMINALS
    modifies m.Repr()
    ensures m.Valid() && fresh(m.queues.Repr - old(m.queues.Repr)) && fresh(m.kids.Repr - old(m.kids.Repr))
    ensures m.view == Begin(old(m.view), t, msg, false)
  {
    m.GiveUp(t);
    ReadyWriter(m, t);
    ReturnToUser(m, ERROR);
  }

  /** The writer that waited longest becomes ready; it stays on the blocked queue. */
  method ReadyWriter(m: Machine, t: nat)
    requires m.Valid() && t < NUM_TERMINALS
    modifies m.Repr()
    ensures m.Valid() && fresh(m.queues.Repr - old(m.queues.Repr)) && fresh(m.kids.Repr - old(m.kids.Repr))
    ensures var s, x := old(m.view), old(m.view).Term(t);
            m.view == if x.writers == [] then s
                      else s.PutTerm(t, x.(writers := x.writers[1..])).(ready := s.ready + [x.writers[0]])
                           .Put(x.writers[0], s.At(x.writers[0]).(state := Ready))
  {
    var none := m.NoWriter(t);
    if none { return; }
    var w := m.PopWriter(t);
    var b := m.Get(w);
    m.Set(w, b.(state := Ready));
    m.Push(READY, w);
  }

  method Transmit(m: Machine, t: nat, msg: seq<Byte>, allocOk: bool)
    requires m.Valid() && t < NUM_TERMINALS
    modifies m.Repr()
    ensures m.Valid() && fresh(m.queues.Repr - old(m.queues.Repr)) && fresh(m.kids.Repr - old(m.kids.Repr))
    ensures m.view == Begin(old(m.view), t, msg, allocOk)
  {
    if allocOk { BeginTtyTransmit(m, t, msg); } else { FailTtyTransmit(m, t, msg); }
  }

  method DoTtyWrite(m: Machine, t: int, msg: seq<Byte>, bufOk: bool, allocOk: bool)
    requires m.Valid()
    modifies m.Repr()
    ensures m.Valid() && fresh(m.queues.Repr - old(m.queues.Repr)) && fresh(m.kids.Repr - old(m.kids.Repr))
    ensures m.view == TtyWrite(old(m.view), t, msg, bufOk, allocOk)
  {
    if t < 0 || t >= NUM_TERMINALS || !bufOk || |msg| == 0 { ReturnToUser(m, ERROR); return; }
    var inUse := m.InUse(t);
    if inUse {
      WaitForTerminal(m, t, msg);
    } else {
      m.Accept(t, Message(m.current, msg));
      Transmit(m, t, msg, allocOk);
    }
  }

  method WaitForTerminal(m: Machine, t: nat, msg: seq<Byte>)
    requires m.Valid() && t < NUM_TERMINALS
    modifies m.Repr()
    ensures m.Valid() && fresh(m.queues.Repr - old(m.queues.Repr)) && fresh(m.kids.Repr - old(m.kids.Repr))
    ensures var s, x := old(m.view), old(m.view).Term(t);
            m.view == Switch(Block(s.PutTerm(t, x.(calls := x.calls + [Message(s.cur, msg)],
                                                   writers := x.writers + [s.cur])), FromLock(t, msg)))
  {
    m.Accept(t, Message(m.current, msg));
    m.PushWriter(t, m.current);
    Sleep(m, FromLock(t, msg));
  }

  /** The writer of a finished message wakes with its length. */
  method WakeFinished(m: Machine, t: nat)
    requires m.Valid() && t < NUM_TERMINALS
    modifies m.Repr()
    ensures m.Valid() && fresh(m.queues.Repr - old(m.queues.Repr)) && fresh(m.kids.Repr - old(m.kids.Repr))
    ensures m.view == AfterWriter(old(m.view), old(m.view).Term(t))
  {
    var writer, len, position := m.Outgoing(t);
    if writer.None? { return; }
    var b := m.Get(writer.value);
    m.Set(writer.value, b.(ret := len));
    ghost var k := MakeReady(m, writer.value);
  }

  ghost function AfterWriter(s: State, x: Terminal): State {
    if x.writer.None? then s
    else Wake(s.Put(x.writer.value, s.At(x.writer.value).(ret := |x.writeBuf|)), x.writer.value)
  }

  /** The terminal goes to the writer that waited longest, which wakes, or is free. */
  method PassOn(m: Machine, t: nat)
    requires m.Valid() && t < NUM_TERMINALS
    modifies m.Repr()
    ensures m.Valid() && fresh(m.queues.Repr - old(m.queues.Repr)) && fresh(m.kids.Repr - old(m.kids.Repr))
    ensures m.view == PassedOn(old(m.view), t)
  {
    var none := m.NoWriter(t);
    if none { m.Finish(t, None); return; }
    var w := m.PopWriter(t);
    m.Finish(t, Some(w));
    ghost var k := MakeReady(m, w);
  }

  ghost function PassedOn(s: State, t: nat): State {
    var x := s.Term(t);
    if x.writers == [] then s.PutTerm(t, Finished(x, None))
    else Wake(s.PutTerm(t, x.(writers := x.writers[1..]))
              .PutTerm(t, Finished(x.(writers := x.writers[1..]), Some(x.writers[0]))), x.writers[0])
  }

  lemma AfterWriterTerms(s: State, x: Terminal, s1: State)
    requires s1 == AfterWriter(s, x)
    ensures s1.terms == s.terms && WakeWriters(s, x) == if x.writers == [] then s1 else Wake(s1, x.writers[0])
  {}

  /** Waking a process and changing a terminal or the log do not interfere. */
  lemma WakeApart(s: State, p: Pid, t: nat, x: Terminal)
    ensures Wake(s.PutTerm(t, x), p) == Wake(s, p).PutTerm(t, x)
  {}

  lemma FinishSteps(s: State, t: nat, s1: State)
    requires t < |s.terms| && s1 == AfterWriter(s, s.Term(t))
    ensures PassedOn(s1, t) == WakeWriters(s, s.Term(t)).PutTerm(t, HandOver(s.Term(t)))
  {
    var x := s.Term(t);
    AfterWriterTerms(s, x, s1);
    if x.writers != [] {
      var x1 := x.(writers := x.writers[1..]);
      assert s1.PutTerm(t, x1).PutTerm(t, HandOver(x)) == s1.PutTerm(t, HandOver(x));
      WakeApart(s1, x.writers[0], t, HandOver(x));
    }
  }

  /** The cleanup branch of the transmit handler. */
  method FinishMessage(m: Machine, t: nat)
    requires m.Valid() && t < NUM_TERMINALS
    modifies m.Repr()
    ensures m.Valid() && fresh(m.queues.Repr - old(m.queues.Repr)) && fresh(m.kids.Repr - old(m.kids.Repr))
    ensures m.view == WakeWriters(old(m.view), old(m.view).Term(t)).PutTerm(t, HandOver(old(m.view).Term(t)))
  {
    ghost var s := m.view;
    WakeFinished(m, t);
    FinishSteps(s, t, m.view);
    PassOn(m, t);
  }

  method OnTransmit(m: Machine, t: nat)
    requires m.Valid() && t < NUM_TERMINALS
    modifies m.Repr()
    ensures m.Valid() && fresh(m.queues.Repr - old(m.queues.Repr)) && fresh(m.kids.Repr - old(m.kids.Repr))
    ensures m.view == TransmitTrap(old(m.view), t)
  {
    var writer, len, position := m.Outgoing(t);
    if position < len { m.SendChunk(t); } else { FinishMessage(m, t); }
  }

  method DoTtyRead(m: Machine, t: int, len: int, bufOk: bool, allocOk: bool)
    requires m.Valid()
    modifies m.Repr()
    ensures m.Valid() && fresh(m.queues.Repr - old(m.queues.Repr)) && fresh(m.kids.Repr - old(m.kids.Repr))
    ensures m.view == TtyRead(old(m.view), t, len, bufOk, allocOk)
  {
    if t < 0 || t >= NUM_TERMINALS || !bufOk || len <= 0 { ReturnToUser(m, ERROR); return; }
    var here := m.Available(t);
    if here == 0 {
      WaitForBytes(m, t, len);
    } else if allocOk {
      ReadNow(m, t, if len > here then here else len);
    } else {
      ReturnToUser(m, ERROR);
    }
  }

  method ReadNow(m: Machine, t: nat, n: nat)
    requires m.Valid() && t < NUM_TERMINALS && n <= |m.view.Term(t).readBuf|
    modifies m.Repr()
    ensures m.Valid() && fresh(m.queues.Repr - old(m.queues.Repr)) && fresh(m.kids.Repr - old(m.kids.Repr))
    ensures var s, x, c := old(m.view), old(m.view).Term(t), old(m.view).At(old(m.view).cur);
            m.view == s.PutTerm(t, x.(readBuf := x.readBuf[n..])).Log(Delivery(t, s.cur, x.readBuf[..n], false))
                      .Put(s.cur, c.(ret := n, resume := ToUser, got := c.got + x.readBuf[..n]))
  {
    var c := m.Get(m.current);
    var data := m.TakeBytes(t, n);
    m.Set(m.current, c.(ret := n, resume := ToUser, got := c.got + data));
    m.Delivered(Delivery(t, m.current, data, false));
  }

  method WaitForBytes(m: Machine, t: nat, len: int)
    requires m.Valid() && t < NUM_TERMINALS
    modifies m.Repr()
    ensures m.Valid() && fresh(m.queues.Repr - old(m.queues.Repr)) && fresh(m.kids.Repr - old(m.kids.Repr))
    ensures var s, x, c := old(m.view), old(m.view).Term(t), old(m.view).At(old(m.view).cur);
            m.view == Switch(Block(s.PutTerm(t, x.(readers := x.readers + [s.cur])).Put(s.cur, c.(readLen := len)),
                                   FromRead(t)))
  {
    var c := m.Get(m.current);
    m.PushReader(t, m.current);
    m.Set(m.current, c.(readLen := len));
    Sleep(m, FromRead(t));
  }

  method DoUnpack(m: Machine)
    requires m.Valid()
    modifies m
    ensures m.Valid()
    ensures m.view == Unpack(old(m.view))
  {
    var c := m.Get(m.current);
    if c.ret > 0 && c.stash.Some? {
      m.Set(m.current, c.(got := c.got + c.stash.value, stash := None, resume := ToUser));
    } else {
      m.Set(m.current, c.(resume := ToUser));
    }
  }

  /** Bytes for reader r, in a buffer of its own that it unpacks when it runs. */
  method Deliver(m: Machine, t: nat, r: Pid, allocOk: bool)
    requires m.Valid() && t < NUM_TERMINALS
    modifies m.Repr()
    ensures m.Valid() && fresh(m.queues.Repr - old(m.queues.Repr)) && fresh(m.kids.Repr - old(m.kids.Repr))
    ensures m.view == Delivered(old(m.view), t, r, allocOk)
  {
    var b := m.Get(r);
    var here := m.Available(t);
    var n := if b.readLen < here then b.readLen else here;
    if allocOk && 0 <= n {
      var data := m.TakeBytes(t, n);
      m.Set(r, b.(stash := Some(data), ret := n));
      m.Delivered(Delivery(t, r, data, true));
    } else {
      m.Set(r, b.(ret := 0));
      m.Delivered(Delivery(t, r, [], true));
    }
  }

  ghost function Delivered(s: State, t: nat, r: Pid, allocOk: bool): State {
    var b, x := s.At(r), s.Term(t);
    var n := Min(b.readLen, |x.readBuf|);
    if allocOk && 0 <= n then
      s.PutTerm(t, x.(readBuf := x.readBuf[n..])).Put(r, b.(stash := Some(x.readBuf[..n]), ret := n))
      .Log(Delivery(t, r, x.readBuf[..n], true))
    else
      s.Put(r, b.(ret := 0)).Log(Delivery(t, r, [], true))
  }

  lemma ServeSteps(s: State, t: nat, allocOk: bool, r: Pid, s1: State, s2: State)
    requires t < |s.terms| && s.terms[t].readers != [] && r == s.terms[t].readers[0]
    requires s1 == s.PutTerm(t, s.terms[t].(readers := s.terms[t].readers[1..])) && s2 == Delivered(s1, t, r, allocOk)
    ensures Wake(s2, r) == ServeOne(s, t, allocOk)
  {
    var x, b := s.terms[t], s.At(r);
    var x1 := x.(readers := x.readers[1..]);
    var n := Min(b.readLen, |x.readBuf|);
    if allocOk && 0 <= n {
      ServeStep(s, t, x1, x1.(readBuf := x.readBuf[n..]), r, b.(stash := Some(x.readBuf[..n]), ret := n),
                Delivery(t, r, x.readBuf[..n], true));
    } else {
      ServeStep(s, t, x1, x1, r, b.(ret := 0), Delivery(t, r, [], true));
    }
  }

  lemma ServeStep(s: State, t: nat, x1: Terminal, x2: Terminal, r: Pid, b: Pcb, d: Delivery)
    ensures Wake(s.PutTerm(t, x1).PutTerm(t, x2).Put(r, b).Log(d), r) == Wake(s.Put(r, b), r).PutTerm(t, x2).Log(d)
    ensures Wake(s.PutTerm(t, x2).Put(r, b).Log(d), r) == Wake(s.Put(r, b), r).PutTerm(t, x2).Log(d)
  {
    assert s.PutTerm(t, x1).PutTerm(t, x2) == s.PutTerm(t, x2);
    WakeApart(s.Put(r, b), r, t, x2);
    WakeLogged(s.PutTerm(t, x2).Put(r, b), r, d);
  }

  lemma WakeLogged(s: State, p: Pid, d: Delivery)
    ensures Wake(s.Log(d), p) == Wake(s, p).Log(d)
  {
  }

  method ServeReader(m: Machine, t: nat, allocOk: bool)
    requires m.Valid() && t < |m.view.terms| == NUM_TERMINALS && m.view.terms[t].readers != []
    modifies m.Repr()
    ensures m.Valid() && fresh(m.queues.Repr - old(m.queues.Repr)) && fresh(m.kids.Repr - old(m.kids.Repr))
    ensures m.view == ServeOne(old(m.view), t, allocOk)
  {
    ghost var s := m.view;
    var r := m.PopReader(t);
    ghost var s1 := m.view;
    Deliver(m, t, r, allocOk);
    ServeSteps(s, t, allocOk, r, s1, m.view);
    ghost var k := MakeReady(m, r);
  }

  /** The test of the receive handler's loop. */
  method MoreToServe(m: Machine, t: nat) returns (more: bool)
    requires m.Valid() && t < NUM_TERMINALS
    ensures more <==> m.view.Term(t).readers != [] && m.view.Term(t).readBuf != []
  {
    var none := m.NoReader(t);
    var here := m.Available(t);
    return !none && here > 0;
  }

  /** One round of the receive handler's loop, with the test for the next. */
  method ServeRound(m: Machine, t: nat, ghost allocs: seq<bool>, allocOk: bool) returns (more: bool)
    requires m.Valid() && t < |m.view.terms| == NUM_TERMINALS && m.view.terms[t].readers != []
    requires m.view.terms[t].readBuf != [] && allocOk == NextAlloc(allocs)
    modifies m.Repr()
    ensures m.Valid() && fresh(m.queues.Repr - old(m.queues.Repr)) && fresh(m.kids.Repr - old(m.kids.Repr))
    ensures |m.view.terms| == NUM_TERMINALS && |m.view.terms[t].readers| == |old(m.view).terms[t].readers| - 1
    ensures Serve(old(m.view), t, allocs) == Serve(m.view, t, LaterAllocs(allocs))
    ensures more <==> m.view.terms[t].readers != [] && m.view.terms[t].readBuf != []
  {
    ghost var s := m.view;
    ServeReader(m, t, allocOk);
    ServeNext(s, t, allocs, m.view);
    more := MoreToServe(m, t);
  }

  lemma ServeNext(s: State, t: nat, allocs: seq<bool>, s': State)
    requires t < |s.terms| && s.terms[t].readers != [] && s.terms[t].readBuf != []
    requires s' == ServeOne(s, t, NextAlloc(allocs))
    ensures |s'.terms| == |s.terms| && |s'.terms[t].readers| == |s.terms[t].readers| - 1
    ensures Serve(s, t, allocs) == Serve(s', t, LaterAllocs(allocs))
  {
  }

  /** The loop of the receive handler. */
  method ServeReaders(m: Machine, t: nat, allocs: seq<bool>)
    requires m.Valid() && t < |m.view.terms| == NUM_TERMINALS
    modifies m.Repr()
    ensures m.Valid() && fresh(m.queues.Repr - old(m.queues.Repr)) && fresh(m.kids.Repr - old(m.kids.Repr))
    ensures m.view == Serve(old(m.view), t, allocs)
  {
    var rest := allocs;
    var more := MoreToServe(m, t);
    while more
      invariant m.Valid() && fresh(m.queues.Repr - old(m.queues.Repr)) && fresh(m.kids.Repr - old(m.kids.Repr))
      invariant |m.view.terms| == NUM_TERMINALS
      invariant more <==> m.view.terms[t].readers != [] && m.view.terms[t].readBuf != []
      invariant Serve(old(m.view), t, allocs) == Serve(m.view, t, rest)
      decreases |m.view.terms[t].readers|
    {
      more := ServeRound(m, t, rest, NextAlloc(rest));
      rest := LaterAllocs(rest);
    }
  }

  method OnReceive(m: Machine, t: nat, data: seq<Byte>, allocs: seq<bool>)
    requires m.Valid() && t < NUM_TERMINALS && |m.view.Term(t).readBuf| + |data| <= TERMINAL_MAX_LINE
    modifies m.Repr()
    ensures m.Valid() && fresh(m.queues.Repr - old(m.queues.Repr)) && fresh(m.kids.Repr - old(m.kids.Repr))
    ensures m.view == ReceiveTrap(old(m.view), t, data, allocs)
  {
    m.ReceiveBytes(t, data);
    ServeReaders(m, t, allocs);
  }

  // ---------------------------------------------------------------- every step

  /** A process that was dispatched inside the kernel goes on. */
  method Resume(m: Machine, allocOk: bool)
    requires m.Valid() && Assumed(m.view, Continue(allocOk))
    modifies m.Repr()
    ensures m.Valid() && fresh(m.queues.Repr - old(m.queues.Repr)) && fresh(m.kids.Repr - old(m.kids.Repr))
    ensures m.view == ContinueStep(old(m.view), allocOk)
  {
    var b := m.Get(m.current);
    match b.resume
    case ToUser =>
    case FirstRun => DoForkChild(m);
    case FromWait => DoWaitAgain(m);
    case FromRead(_) => DoUnpack(m);
    case FromLock(t, msg) => Transmit(m, t, msg, allocOk);
    case FromIo(_, len) => ReturnToUser(m, len);
    case FromDelay => ReturnToUser(m, SUCCESS);
  }

  method Dispatch(m: Machine, e: Event)
    requires m.Valid() && Enabled(m.view, e) && Assumed(m.view, e)
    modifies m.Repr()
    ensures m.Valid() && fresh(m.queues.Repr - old(m.queues.Repr)) && fresh(m.kids.Repr - old(m.kids.Repr))
    ensures m.view == Next(old(m.view), e)
  {
    match e
    case DoFork(child, ok) => if ok { DoFork(m, child); } else { m.SetMode(Halted); }
    case DoExit(status) => DoExit(m, status);
    case DoWait => DoWait(m);
    case DoDelay(n) => DoDelay(m, n);
    case DoRead(t, len, bufOk, allocOk) => DoTtyRead(m, t, len, bufOk, allocOk);
    case DoWrite(t, msg, bufOk, allocOk) => DoTtyWrite(m, t, msg, bufOk, allocOk);
    case OnClock => OnClock(m);
    case OnTransmit(t) => OnTransmit(m, t);
    case OnReceive(t, data, allocs) => OnReceive(m, t, data, allocs);
    case Continue(allocOk) => Resume(m, allocOk);
  }

  /** One event; the kernel stays sound exactly when the event is a good one. */
  method Step(m: Machine, e: Event)
    requires m.Valid() && Inv(m.view) && Enabled(m.view, e)
    modifies m.Repr()
    ensures m.Valid() && fresh(m.queues.Repr - old(m.queues.Repr)) && fresh(m.kids.Repr - old(m.kids.Repr))
    ensures m.view == Next(old(m.view), e)
    ensures Inv(m.view) <==> Good(old(m.view), e)
  {
    CodeAssumes(m.view, e);
    TtySteps.StepIff(m.view, e);
    Dispatch(m, e);
  }
}
