/**
 The kernel's process and terminal state, and one step function per atomic
 stretch of kernel code.

 Kernel code runs with interrupts off from the moment a trap enters it until it
 returns to user mode or calls KernelContextSwitch.  A system call that blocks is
 therefore two steps: the part before the switch, and the part that runs when the
 process is dispatched again.  `resume` records where a process continues.
 */
module KernelState {
  import opened Common

  // ---------------------------------------------------------------- data model

  type Pid = int

  const IDLE: Pid := 0
  const INIT: Pid := 1
  const NO_PID: int := -1
  const ERROR: int := -1
  const SUCCESS: int := 0
  const NUM_TERMINALS: nat := 4
  const TERMINAL_MAX_LINE: nat := 1024

  datatype RunState = Ready | Running | Blocked | Zombie | Orphan

  /** Where a process continues when it is next dispatched. */
  datatype Resume =
    | ToUser                            // back to user code, nothing left to do
    | FirstRun                          // a forked child, inside Fork
    | FromWait                          // second scan of Wait
    | FromRead(tty: nat)                // TtyRead, to unpack the kernel stash
    | FromLock(tty: nat, msg: seq<Byte>) // TtyWrite, to take the terminal
    | FromIo(tty: nat, len: nat)        // TtyWrite, all chunks sent
    | FromDelay                         // end of Delay
    | Never                             // exited

  /** Process control block.  `got` is a history: the bytes copied to its user buffers. */
  datatype Pcb = Pcb(
    state: RunState,
    resume: Resume,
    ppid: int,
    parent: Option<Pid>,
    children: seq<Pid>,
    waiting: int,                 // waiting_for_child_pid
    status: int,
    delay: int,
    readLen: int,
    stash: Option<seq<Byte>>,
    ret: int,                     // saved regs[0]
    got: seq<Byte>)

  /** What a pointer to a PCB that is not in the table reads as. */
  const NO_PCB: Pcb := Pcb(Orphan, Never, NO_PID, None, [], 0, 0, 0, 0, None, 0, [])

  datatype Message = Message(writer: Pid, data: seq<Byte>)

  /** A terminal.  The fields after `inUse` are histories and the state of the
      transmitter: the TtyWrite calls accepted so far, how many of those are
      complete, the writer that was woken to take over but has not run yet, the
      TtyTransmit calls made, whether one is outstanding, and the bytes received. */
  datatype Terminal = Terminal(
    writers: seq<Pid>,
    readers: seq<Pid>,
    readBuf: seq<Byte>,
    writeBuf: seq<Byte>,
    position: nat,
    writer: Option<Pid>,
    inUse: bool,
    calls: seq<Message>,
    done: nat,
    handed: Option<Pid>,
    chunks: seq<seq<Byte>>,
    busy: bool,
    received: seq<Byte>)

  /** A terminal handed bytes to a reader, which had been blocked or had not. */
  datatype Delivery = Delivery(tty: nat, reader: Pid, bytes: seq<Byte>, waited: bool)

  datatype Reaping = Reaping(parent: Pid, child: Pid, status: int)

  datatype Mode = Run | Halted | Fault

  /** `waiting0` is the value a new PCB's waiting flag starts with: -1 in the code.
      The last six fields are histories. */
  datatype State = State(
    mode: Mode,
    waiting0: int,
    cur: Pid,
    procs: map<Pid, Pcb>,
    ready: seq<Pid>,
    blocked: seq<Pid>,
    zombie: seq<Pid>,
    terms: seq<Terminal>,
    births: map<Pid, nat>,
    exits: map<Pid, int>,
    reaps: seq<Reaping>,
    dispatched: seq<Pid>,
    ticks: nat,
    log: seq<Delivery>)
  {
    function At(p: Pid): Pcb {
      if p in procs then procs[p] else NO_PCB
    }

    function Put(p: Pid, b: Pcb): State {
      this.(procs := procs[p := b])
    }

    function Log(d: Delivery): State {
      this.(log := log + [d])
    }

    function Term(t: nat): Terminal {
      if t < |terms| then terms[t] else NO_TERMINAL
    }

    function PutTerm(t: nat, x: Terminal): State {
      if t < |terms| then this.(terms := terms[t := x]) else this
    }
  }

  const NO_TERMINAL: Terminal :=
    Terminal([], [], [], [], 0, None, false, [], 0, None, [], false, [])

  // ---------------------------------------------------------------- sequences

  /** What queueRemove does to the sequence a queue stands for. */
  function RemoveFirst<T(==)>(q: seq<T>, x: T): seq<T> {
    if q == [] then []
    else if q[0] == x then q[1..]
    else [q[0]] + RemoveFirst(q[1..], x)
  }

  /** The first zombie whose parent pid is p, as both scans in Wait look for it. */
  function FirstChild(s: State, q: seq<Pid>, p: Pid): (r: Option<Pid>)
    ensures r.Some? ==> r.value in q && s.At(r.value).ppid == p
    ensures r.None? ==> forall z :: z in q ==> s.At(z).ppid != p
  {
    if q == [] then None
    else if s.At(q[0]).ppid == p then Some(q[0])
    else FirstChild(s, q[1..], p)
  }

  // ---------------------------------------------------------------- scheduling

  /** KCSwitch, as far as processes can see it. */
  function RunProc(s: State, p: Pid): State {
    s.(cur := p).Put(p, s.At(p).(state := Running))
  }

  /** Take the head of the ready queue, or idle, and switch to it. */
  function Switch(s: State): State {
    if s.ready == [] then RunProc(s, IDLE)
    else RunProc(s.(ready := s.ready[1..], dispatched := s.dispatched + [s.ready[0]]), s.ready[0])
  }

  /** Put the current process on the blocked queue; it continues at r. */
  function Block(s: State, r: Resume): State {
    s.(blocked := s.blocked + [s.cur]).Put(s.cur, s.At(s.cur).(state := Blocked, resume := r))
  }

  /** Move p from the blocked queue to the ready queue. */
  function Wake(s: State, p: Pid): State {
    s.(blocked := RemoveFirst(s.blocked, p), ready := s.ready + [p]).Put(p, s.At(p).(state := Ready))
  }

  /** Return to user mode with r in register 0. */
  function Return(s: State, r: int): State {
    s.Put(s.cur, s.At(s.cur).(ret := r, resume := ToUser))
  }

  function Halt(s: State): State { s.(mode := Halted) }

  // ---------------------------------------------------------------- Fork, Exit, Wait, Delay

  function NewPcb(s: State): Pcb {
    Pcb(Ready, FirstRun, s.cur, None, [], s.waiting0, 0, 0, 0, None, s.At(s.cur).ret, [])
  }

  function Fork(s: State, child: Pid): State {
    var c := s.At(s.cur);
    s.(ready := s.ready + [child], births := s.births[child := |s.births|])
    .Put(child, NewPcb(s))
    .Put(s.cur, c.(children := c.children + [child], ret := child))
  }

  /** The child's side of Fork.  Its parent's PCB is read: a fault if that was freed. */
  function ForkChild(s: State): State {
    var c := s.At(s.cur);
    if c.ppid in s.procs then s.Put(s.cur, c.(parent := Some(c.ppid), ret := 0, resume := ToUser))
    else s.(mode := Fault)
  }

  /** Exit up to the wake-up of the parent. */
  function Bury(s: State, status: int): State {
    s.(zombie := s.zombie + [s.cur], exits := s.exits[s.cur := status])
    .Put(s.cur, s.At(s.cur).(status := status, state := Zombie, resume := Never))
  }

  function WakeParent(s: State, parent: Option<Pid>): State {
    if parent.Some? && s.At(parent.value).waiting != 0 then
      s.(ready := s.ready + [parent.value])
      .Put(parent.value, s.At(parent.value).(state := Ready, waiting := 0))
    else s
  }

  function Exit(s: State, status: int): State {
    if s.cur == INIT then Halt(s)
    else Switch(WakeParent(Bury(s, status), s.At(s.cur).parent))
  }

  /** deletePCB: the dead process's children lose their parent, and it is freed. */
  function Delete(procs: map<Pid, Pcb>, z: Pid, children: seq<Pid>): map<Pid, Pcb> {
    map p | p in procs && p != z ::
      if p in children then procs[p].(parent := None, state := Orphan) else procs[p]
  }

  function Reap(s: State, z: Pid): State {
    var me := s.At(s.cur);
    var s1 := s.Put(s.cur, me.(children := RemoveFirst(me.children, z), ret := z, resume := ToUser));
    s1.(zombie := RemoveFirst(s.zombie, z),
        procs := Delete(s1.procs, z, s.At(z).children),
        reaps := s.reaps + [Reaping(s.cur, z, s.At(z).status)])
  }

  function Wait(s: State): State {
    var me := s.At(s.cur);
    if me.children == [] then Return(s, ERROR)
    else
      match FirstChild(s, s.zombie, s.cur)
      case Some(z) => Reap(s, z)
      case None => Switch(s.Put(s.cur, me.(state := Blocked, waiting := 1, resume := FromWait)))
  }

  function WaitAgain(s: State): State {
    match FirstChild(s, s.zombie, s.cur)
    case Some(z) => Reap(s, z)
    case None => Return(s, ERROR)
  }

  function Delay(s: State, n: int): State {
    if n == 0 then Return(s, SUCCESS)
    else if n < -1 then Halt(s)
    else Switch(Block(s.Put(s.cur, s.At(s.cur).(delay := n)), FromDelay))
  }

  // ---------------------------------------------------------------- clock

  /** trapHandlerHelper on one process. */
  function Visit(s: State, p: Pid): State {
    var b := s.At(p);
    if b.delay > 0 then
      var s1 := s.Put(p, b.(delay := b.delay - 1));
      if b.delay == 1 then Wake(s1, p) else s1
    else s
  }

  function VisitAll(s: State, ps: seq<Pid>): State
    decreases |ps|
  {
    if ps == [] then s else VisitAll(Visit(s, ps[0]), ps[1..])
  }

  /** Clock trap after the sweep: hand the processor to the head of the ready queue. */
  function Preempt(s: State): State {
    if s.ready == [] then s
    else
      var next := s.ready[0];
      var s1 := s.(ready := s.ready[1..], dispatched := s.dispatched + [next]);
      var c := s.At(s.cur);
      var s2 := if c.state == Running && s.cur != IDLE
                then s1.(ready := s1.ready + [s.cur]).Put(s.cur, c.(state := Ready))
                else s1;
      RunProc(s2, next)
  }

  /** The n-th clock trap, after the sweep. */
  function Tick(s: State, n: nat): State {
    Preempt(s.(ticks := n))
  }

  /** trapHandlerHelper on every process that is blocked when the sweep starts. */
  function Sweep(s: State): State { VisitAll(s, s.blocked) }

  function Clock(s: State): State {
    Tick(Sweep(s), s.ticks + 1)
  }

  // ---------------------------------------------------------------- terminals

  /** The hardware call TtyTransmit. */
  function Transmit(x: Terminal, chunk: seq<Byte>): Terminal {
    x.(chunks := x.chunks + [chunk], busy := true)
  }

  /** Bytes arrived. */
  function Extended(x: Terminal, data: seq<Byte>): Terminal {
    x.(readBuf := x.readBuf + data, received := x.received + data)
  }

  /** p took the terminal, and the first chunk of its message is on its way. */
  function Started(x: Terminal, msg: seq<Byte>, p: Pid): Terminal {
    var n := Min(|msg|, TERMINAL_MAX_LINE);
    Transmit(x, msg[..n]).(inUse := true, writeBuf := msg, position := n, writer := Some(p), handed := None)
  }

  /** The next chunk is on its way. */
  function Advanced(x: Terminal): Terminal
    requires x.position <= |x.writeBuf|
  {
    var n := Min(|x.writeBuf| - x.position, TERMINAL_MAX_LINE);
    Transmit(x, x.writeBuf[x.position..x.position + n]).(position := x.position + n)
  }

  /** There was no buffer for the message. */
  function GivenUp(x: Terminal): Terminal {
    x.(inUse := false, writeBuf := [], handed := None,
       calls := if x.done < |x.calls| then x.calls[..x.done] + x.calls[x.done + 1..] else x.calls)
  }

  /** The message is complete; the terminal goes to `next`, if there is one. */
  function Finished(x: Terminal, next: Option<Pid>): Terminal {
    var x1 := x.(writeBuf := [], position := 0, writer := None, busy := false, done := x.done + 1);
    if next.None? then x1.(inUse := false) else x1.(handed := next)
  }

  /** Take the terminal and send the first chunk, or give up when malloc fails. */
  function Begin(s: State, t: nat, msg: seq<Byte>, allocOk: bool): State {
    var x := s.Term(t);
    if allocOk then
      Switch(Block(s.PutTerm(t, Started(x, msg, s.cur)), FromIo(t, |msg|)))
    else
      var x1 := GivenUp(x);
      if x.writers == [] then Return(s.PutTerm(t, x1), ERROR)
      else
        var w := x.writers[0];
        var s1 := s.PutTerm(t, x1.(writers := x.writers[1..]));
        Return(s1.(ready := s1.ready + [w]).Put(w, s1.At(w).(state := Ready)), ERROR)
  }

  function TtyWrite(s: State, t: int, msg: seq<Byte>, bufOk: bool, allocOk: bool): State {
    if t < 0 || t >= NUM_TERMINALS || !bufOk || |msg| == 0 then Return(s, ERROR)
    else
      var x := s.Term(t);
      var x1 := x.(calls := x.calls + [Message(s.cur, msg)]);
      if x.inUse then
        Switch(Block(s.PutTerm(t, x1.(writers := x.writers + [s.cur])), FromLock(t, msg)))
      else
        Begin(s.PutTerm(t, x1), t, msg, allocOk)
  }

  /** End of a message: wake its writer, and the writer that waited longest, if any. */
  function WakeWriters(s: State, x: Terminal): State {
    var s1 := if x.writer.Some?
              then Wake(s.Put(x.writer.value, s.At(x.writer.value).(ret := |x.writeBuf|)), x.writer.value)
              else s;
    if x.writers == [] then s1 else Wake(s1, x.writers[0])
  }

  /** The terminal goes to that writer without ever being free, or is free now. */
  function HandOver(x: Terminal): Terminal {
    if x.writers == [] then Finished(x, None)
    else Finished(x, Some(x.writers[0])).(writers := x.writers[1..])
  }

  function TransmitTrap(s: State, t: nat): State {
    var x := s.Term(t);
    if x.position < |x.writeBuf| then
      s.PutTerm(t, Advanced(x))
    else
      WakeWriters(s, x).PutTerm(t, HandOver(x))
  }

  function TtyRead(s: State, t: int, len: int, bufOk: bool, allocOk: bool): State {
    if t < 0 || t >= NUM_TERMINALS || !bufOk || len <= 0 then Return(s, ERROR)
    else
      var x := s.Term(t);
      var c := s.At(s.cur);
      if x.readBuf != [] then
        if !allocOk then Return(s, ERROR)
        else
          var n := Min(len, |x.readBuf|);
          var data := x.readBuf[..n];
          s.PutTerm(t, x.(readBuf := x.readBuf[n..])).Log(Delivery(t, s.cur, data, false))
          .Put(s.cur, c.(ret := n, resume := ToUser, got := c.got + data))
      else
        Switch(Block(s.PutTerm(t, x.(readers := x.readers + [s.cur]))
                     .Put(s.cur, c.(readLen := len)), FromRead(t)))
  }

  /** The stash step of the trap handler, after TtyRead was woken. */
  function Unpack(s: State): State {
    var c := s.At(s.cur);
    if c.ret > 0 && c.stash.Some? then
      s.Put(s.cur, c.(got := c.got + c.stash.value, stash := None, resume := ToUser))
    else
      s.Put(s.cur, c.(resume := ToUser))
  }

  /** One round of the receive handler's loop: serve the reader at the head. */
  function ServeOne(s: State, t: nat, allocOk: bool): State
    requires t < |s.terms| && s.terms[t].readers != []
  {
    var x := s.terms[t];
    var r := x.readers[0];
    var b := s.At(r);
    var x1 := x.(readers := x.readers[1..]);
    var n := Min(b.readLen, |x.readBuf|);
    if allocOk && 0 <= n then
      var data := x.readBuf[..n];
      Wake(s.Put(r, b.(stash := Some(data), ret := n)), r).PutTerm(t, x1.(readBuf := x.readBuf[n..]))
      .Log(Delivery(t, r, data, true))
    else
      Wake(s.Put(r, b.(ret := 0)), r).PutTerm(t, x1).Log(Delivery(t, r, [], true))
  }

  function NextAlloc(allocs: seq<bool>): bool { allocs == [] || allocs[0] }

  function LaterAllocs(allocs: seq<bool>): seq<bool> { if allocs == [] then [] else allocs[1..] }

  /** The receive handler's loop; `allocs` are the results of its mallocs, true when exhausted. */
  function Serve(s: State, t: nat, allocs: seq<bool>): State
    requires t < |s.terms|
    decreases |s.terms[t].readers|
  {
    if s.terms[t].readers == [] || s.terms[t].readBuf == [] then s
    else Serve(ServeOne(s, t, NextAlloc(allocs)), t, LaterAllocs(allocs))
  }

  function ReceiveTrap(s: State, t: nat, data: seq<Byte>, allocs: seq<bool>): State
    requires t < |s.terms|
  {
    Serve(s.PutTerm(t, Extended(s.terms[t], data)), t, allocs)
  }

  // ---------------------------------------------------------------- the step system

  /** System calls of the current process, traps, and the continuation of a process
      that was dispatched inside the kernel.  The booleans and `allocs` are what
      malloc, the free-frame search and the process table answer. */
  datatype Event =
    | DoFork(child: Pid, ok: bool)
    | DoExit(status: int)
    | DoWait
    | DoDelay(n: int)
    | DoRead(rt: int, len: int, rbufOk: bool, rallocOk: bool)
    | DoWrite(wt: int, msg: seq<Byte>, wbufOk: bool, wallocOk: bool)
    | OnClock
    | OnTransmit(tt: nat)
    | OnReceive(it: nat, data: seq<Byte>, allocs: seq<bool>)
    | Continue(callocOk: bool)

  /** A transmit trap only reports the end of an outstanding TtyTransmit, TtyReceive
      returns at most as many bytes as it was offered, and new pids are fresh. */
  predicate Enabled(s: State, e: Event) {
    s.mode == Run &&
    var atUser := s.At(s.cur).resume == ToUser;
    match e
    case DoFork(child, ok) => atUser && s.cur != IDLE && child !in s.births && child >= 0
    case DoExit(_) => atUser && s.cur != IDLE
    case DoWait => atUser && s.cur != IDLE
    case DoDelay(_) => atUser && s.cur != IDLE
    case DoRead(_, _, _, _) => atUser && s.cur != IDLE
    case DoWrite(_, _, _, _) => atUser && s.cur != IDLE
    case OnClock => atUser
    case OnTransmit(t) => atUser && t < |s.terms| && s.terms[t].busy
    case OnReceive(t, data, _) =>
      atUser && t < |s.terms| && |s.terms[t].readBuf| + |data| <= TERMINAL_MAX_LINE
    case Continue(_) => !atUser
  }

  function ContinueStep(s: State, allocOk: bool): State {
    match s.At(s.cur).resume
    case ToUser => s
    case FirstRun => ForkChild(s)
    case FromWait => WaitAgain(s)
    case FromRead(_) => Unpack(s)
    case FromLock(t, msg) => Begin(s, t, msg, allocOk)
    case FromIo(_, len) => Return(s, len)
    case FromDelay => Return(s, SUCCESS)
    case Never => s.(mode := Fault)
  }

  function Next(s: State, e: Event): State
    requires Enabled(s, e)
  {
    match e
    case DoFork(child, ok) => if ok then Fork(s, child) else Halt(s)
    case DoExit(status) => Exit(s, status)
    case DoWait => Wait(s)
    case DoDelay(n) => Delay(s, n)
    case DoRead(t, len, bufOk, allocOk) => TtyRead(s, t, len, bufOk, allocOk)
    case DoWrite(t, msg, bufOk, allocOk) => TtyWrite(s, t, msg, bufOk, allocOk)
    case OnClock => Clock(s)
    case OnTransmit(t) => TransmitTrap(s, t)
    case OnReceive(t, data, allocs) => ReceiveTrap(s, t, data, allocs)
    case Continue(allocOk) => ContinueStep(s, allocOk)
  }

  /** State at the end of KernelStart: idle runs, init waits in the ready queue. */
  function Initial(waiting0: int): State {
    var p := Pcb(Running, ToUser, NO_PID, None, [], waiting0, 0, 0, 0, None, 0, []);
    State(Run, waiting0, IDLE, map[IDLE := p, INIT := p], [INIT], [], [],
          [NO_TERMINAL, NO_TERMINAL, NO_TERMINAL, NO_TERMINAL],
          map[IDLE := 0, INIT := 1], map[], [], [], 0, [])
  }

  /** A run: states[i] leads to states[i + 1] by events[i]. */
  predicate IsRun(states: seq<State>, events: seq<Event>) {
    && |states| == |events| + 1
    && forall i :: 0 <= i < |events| ==>
         Enabled(states[i], events[i]) && states[i + 1] == Next(states[i], events[i])
  }
}
