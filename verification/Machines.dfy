/**
 The kernel's data: the process table, the linked queues and the terminal structures,
 tied to the state the step system speaks of, and the primitive changes to each.
 */
module Machines {
  import opened Common
  import opened KernelState
  import opened ProcessQueue
  import opened Lists
  import opened Kids
  import opened Ttys

  const READY: nat := 0
  const BLOCKED: nat := 1
  const ZOMBIE: nat := 2
  const READERS: nat := 3      // one queue a terminal
  const WRITERS: nat := 7      // one queue a terminal
  const QUEUES: nat := 11

  // ---------------------------------------------------------------- the parts of a state

  /** The queues and terminals of s are these; a terminal's own queues are kept apart from it. */
  ghost predicate Parts(s: State, lists: seq<seq<Pid>>, xs: seq<Terminal>) {
    && |xs| == |s.terms| == NUM_TERMINALS && |lists| == QUEUES
    && s.ready == lists[READY] && s.blocked == lists[BLOCKED] && s.zombie == lists[ZOMBIE]
    && forall t {:trigger xs[t]} :: 0 <= t < NUM_TERMINALS ==>
         s.terms[t] == xs[t].(writers := lists[WRITERS + t], readers := lists[READERS + t])
  }

  ghost predicate SameScalars(s: State, s': State) {
    s'.mode == s.mode && s'.waiting0 == s.waiting0 && s'.cur == s.cur && s'.procs == s.procs
  }

  ghost function QueueOf(s: State, i: nat): seq<Pid> {
    if i == READY then s.ready
    else if i == BLOCKED then s.blocked
    else if i == ZOMBIE then s.zombie
    else if i < WRITERS then s.Term(i - READERS).readers
    else s.Term(i - WRITERS).writers
  }

  ghost function PutQueue(s: State, i: nat, q: seq<Pid>): State {
    if i == READY then s.(ready := q)
    else if i == BLOCKED then s.(blocked := q)
    else if i == ZOMBIE then s.(zombie := q)
    else if i < WRITERS then s.PutTerm(i - READERS, s.Term(i - READERS).(readers := q))
    else s.PutTerm(i - WRITERS, s.Term(i - WRITERS).(writers := q))
  }

  lemma InitialParts(w: int, lists: seq<seq<Pid>>, xs: seq<Terminal>)
    requires |lists| == QUEUES && lists[READY] == [INIT] && forall i :: 0 < i < QUEUES ==> lists[i] == []
    requires xs == [NO_TERMINAL, NO_TERMINAL, NO_TERMINAL, NO_TERMINAL]
    ensures Parts(Initial(w), lists, xs)
  {}

  lemma QueueOfParts(s: State, lists: seq<seq<Pid>>, xs: seq<Terminal>, i: nat)
    requires Parts(s, lists, xs) && i < QUEUES
    ensures QueueOf(s, i) == lists[i]
  {
    if READERS <= i < WRITERS { assert s.terms[i - READERS].readers == lists[i] by { var x := xs[i - READERS]; } }
    if WRITERS <= i { assert s.terms[i - WRITERS].writers == lists[i] by { var x := xs[i - WRITERS]; } }
  }

  lemma PutQueueParts(s: State, lists: seq<seq<Pid>>, xs: seq<Terminal>, i: nat, q: seq<Pid>,
                      s': State, lists': seq<seq<Pid>>)
    requires Parts(s, lists, xs) && i < QUEUES && s' == PutQueue(s, i, q) && lists' == lists[i := q]
    ensures Parts(s', lists', xs) && SameScalars(s, s')
  {
    assert i < READERS ==> s'.terms == s.terms;
  }

  lemma PutTermParts(s: State, lists: seq<seq<Pid>>, xs: seq<Terminal>, t: nat, y: Terminal,
                     s': State, xs': seq<Terminal>)
    requires Parts(s, lists, xs) && t < NUM_TERMINALS && xs' == xs[t := y]
    requires s' == s.PutTerm(t, y.(writers := s.Term(t).writers, readers := s.Term(t).readers))
    ensures Parts(s', lists, xs') && SameScalars(s, s')
  {
    forall u | 0 <= u < NUM_TERMINALS
      ensures s'.terms[u] == xs'[u].(writers := lists[WRITERS + u], readers := lists[READERS + u])
    {
      assert s.terms[u] == xs[u].(writers := lists[WRITERS + u], readers := lists[READERS + u]);
    }
  }

  // ---------------------------------------------------------------- walking while removing

  /** The cursor of a walk stands at the j-th node, or past the end. */
  ghost predicate StandsAt(nodes: seq<Node>, node: Node?, j: nat) {
    && j <= |nodes| && (node == null <==> j == |nodes|) && (node != null ==> node == nodes[j])
  }

  /** The list is as it was, or it lost the element at k, the first that is p. */
  ghost predicate Lost(nodes: seq<Node>, nodes': seq<Node>, ps: seq<Pid>, ps': seq<Pid>, p: Pid, k: nat) {
    && ps' == Without(ps, k) && nodes' == Without(nodes, k) && |ps| == |nodes|
    && (k < |ps| ==> ps[k] == p && p !in ps[..k])
  }

  /** Where the saved successor of the j-th node stands after that node's own visit. */
  lemma Onward(nodes: seq<Node>, nodes': seq<Node>, ps: seq<Pid>, ps': seq<Pid>, j: nat, k: nat, next: Node?)
    returns (j': nat)
    requires j < |nodes| == |ps| && Lost(nodes, nodes', ps, ps', ps[j], k) && StandsAt(nodes, next, j + 1)
    ensures StandsAt(nodes', next, j') && |ps'| == |nodes'| && ps'[j'..] == ps[j + 1..]
  {
    j' := if k < |ps| then j else j + 1;
    if k < |ps| {
      assert k <= j;
      assert ps'[j..] == ps[j + 1..] && nodes'[j..] == nodes[j + 1..];
    }
  }

  // ---------------------------------------------------------------- the data

  /** Each PCB's children are what its queue stands for. */
  ghost predicate Mirrors(procs: map<Pid, Pcb>, lists: map<Pid, seq<Pid>>) {
    && lists.Keys <= procs.Keys
    && forall p {:trigger procs[p]} :: p in procs ==> procs[p].children == if p in lists then lists[p] else []
  }

  lemma DeleteMirrors(procs: map<Pid, Pcb>, lists: map<Pid, seq<Pid>>, z: Pid, left: map<Pid, Pcb>)
    requires Mirrors(procs, lists) && exists children :: left == Delete(procs, z, children)
    ensures Mirrors(left, lists - {z})
  {
  }

  /** What deletePCB leaves: its callback runs along the linked children queue q, if there is one, then the PCB
      is freed. */
  method Freed(procs: map<Pid, Pcb>, z: Pid, q: Queue?) returns (r: map<Pid, Pcb>)
    requires q != null ==> q.Valid()
    ensures r == Delete(procs, z, if q == null then [] else q.contents)
  {
    r := procs;
    if q != null {
      var node := q.head;
      ghost var i := 0;
      while node != null
        invariant 0 <= i && StandsAt(q.nodes, node, i) && |q.nodes| == |q.contents| && r.Keys == procs.Keys
        invariant forall p :: p in procs ==>
                    r[p] == if p in q.contents[..i] then procs[p].(parent := None, state := Orphan) else procs[p]
        decreases |q.nodes| - i
      {
        var c, next := node.process, node.next;
        if c in r { r := r[c := r[c].(parent := None, state := Orphan)]; }
        node, i := next, i + 1;
      }
      assert q.contents[..i] == q.contents;
    }
    r := r - {z};
  }

  class Machine {
    var mode: Mode
    const waiting0: int
    var current: Pid
    var procs: map<Pid, Pcb>
    const queues: Table
    const kids: Offspring
    const bank: Bank
    ghost var view: State        // the same, as values, with the histories

    ghost function Repr(): set<object>
      reads this, queues, kids
    {
      {this} + queues.Repr + kids.Repr + bank.Repr
    }

    /** The parts are in order and share nothing. */
    ghost predicate Framed()
      reads this, queues, queues.Repr, kids, kids.Repr, bank, bank.Repr
    {
      && queues.Valid() && kids.Valid() && bank.Valid() && |queues.qs| == QUEUES && Mirrors(procs, kids.lists)
      && this !in queues.Repr && this !in bank.Repr && queues.Repr !! bank.Repr
      && this !in kids.Repr && queues.Repr !! kids.Repr && kids.Repr !! bank.Repr
    }

    ghost predicate Valid()
      reads this, queues, queues.Repr, kids, kids.Repr, bank, bank.Repr
    {
      && Framed()
      && mode == view.mode && waiting0 == view.waiting0 && current == view.cur && procs == view.procs
      && Parts(view, queues.lists, bank.values)
    }

    /** The nodes of the blocked queue, in order. */
    ghost function Nodes(): seq<Node>
      requires |queues.qs| == QUEUES
      reads queues.qs[BLOCKED]
    {
      queues.qs[BLOCKED].nodes
    }

    constructor (w: int)
      ensures Valid() && fresh(Repr()) && view == Initial(w)
    {
      var p := Pcb(Running, ToUser, NO_PID, None, [], w, 0, 0, 0, None, 0, []);
      mode, waiting0, current := Run, w, IDLE;
      procs := map[IDLE := p, INIT := p];
      var table := new Table(QUEUES);
      table.Push(READY, INIT);
      assert fresh(table.Repr);
      queues := table;
      kids := new Offspring();
      var terminals := new Bank();
      bank := terminals;
      view := Initial(w);
      InitialParts(w, table.lists, terminals.values);
    }

    /** Following a PCB pointer. */
    method Get(p: Pid) returns (b: Pcb)
      requires Valid()
      ensures b == view.At(p)
    {
      b := if p in procs then procs[p] else NO_PCB;
    }

    method SetTable(table: map<Pid, Pcb>)
      requires Valid() && Mirrors(table, kids.lists)
      modifies this
      ensures Valid() && view == old(view).(procs := table)
    {
      procs := table;
      view := view.(procs := table);
    }

    /** PCB fields change, but not the children queue. */
    method Set(p: Pid, b: Pcb)
      requires Valid() && b.children == view.At(p).children
      modifies this
      ensures Valid() && view == old(view).Put(p, b)
    {
      SetTable(procs[p := b]);
    }

    method SetCurrent(p: Pid)
      requires Valid()
      modifies this
      ensures Valid() && view == old(view).(cur := p)
    {
      current := p;
      view := view.(cur := p);
    }

    method SetMode(m: Mode)
      requires Valid()
      modifies this
      ensures Valid() && view == old(view).(mode := m)
    {
      mode := m;
      view := view.(mode := m);
    }

    // -------------------------------------------------------------- histories

    ghost method Born(child: Pid)
      requires Valid()
      modifies this`view
      ensures Valid() && view == old(view).(births := old(view).births[child := |old(view).births|])
    {
      view := view.(births := view.births[child := |view.births|]);
    }

    ghost method Exited(status: int)
      requires Valid()
      modifies this`view
      ensures Valid() && view == old(view).(exits := old(view).exits[old(view).cur := status])
    {
      view := view.(exits := view.exits[view.cur := status]);
    }

    ghost method Reaped(r: Reaping)
      requires Valid()
      modifies this`view
      ensures Valid() && view == old(view).(reaps := old(view).reaps + [r])
    {
      view := view.(reaps := view.reaps + [r]);
    }

    ghost method Dispatched(p: Pid)
      requires Valid()
      modifies this`view
      ensures Valid() && view == old(view).(dispatched := old(view).dispatched + [p])
    {
      view := view.(dispatched := view.dispatched + [p]);
    }

    ghost method Ticked(n: nat)
      requires Valid()
      modifies this`view
      ensures Valid() && view == old(view).(ticks := n)
    {
      view := view.(ticks := n);
    }

    ghost method Delivered(d: Delivery)
      requires Valid()
      modifies this`view
      ensures Valid() && view == old(view).(log := old(view).log + [d])
    {
      view := view.(log := view.log + [d]);
    }

    // -------------------------------------------------------------- the process table

    method NoChildren(p: Pid) returns (r: bool)
      requires Valid()
      ensures r <==> view.At(p).children == []
    {
      r := kids.IsEmpty(p);
    }

    /** The table follows what happened to p's children queue. */
    ghost method Follow(p: Pid, b: Pcb)
      requires Framed() && mode == view.mode && waiting0 == view.waiting0 && current == view.cur
      requires procs == view.procs[p := b] && Parts(view, queues.lists, bank.values)
      modifies this`view
      ensures Valid() && view == old(view).Put(p, b)
    {
      view := view.Put(p, b);
    }

    method AddChild(p: Pid, c: Pid)
      requires Valid()
      modifies this, kids.Repr
      ensures Valid() && fresh(queues.Repr - old(queues.Repr)) && fresh(kids.Repr - old(kids.Repr))
      ensures var b := old(view).At(p); view == old(view).Put(p, b.(children := b.children + [c]))
    {
      var b := Get(p);
      kids.Push(p, c);
      b := b.(children := b.children + [c]);
      procs := procs[p := b];
      Follow(p, b);
    }

    method RemoveChild(p: Pid, c: Pid)
      requires Valid()
      modifies this, kids.Repr
      ensures Valid() && queues.Repr == old(queues.Repr) && kids.Repr == old(kids.Repr)
      ensures var b := old(view).At(p); view == old(view).Put(p, b.(children := RemoveFirst(b.children, c)))
    {
      var b := Get(p);
      kids.Remove(p, c);
      b := b.(children := RemoveFirst(b.children, c));
      procs := procs[p := b];
      Follow(p, b);
    }

    /** deletePCB. */
    method DeletePcb(z: Pid)
      requires Valid()
      modifies this, kids
      ensures Valid() && queues.Repr == old(queues.Repr) && kids.Repr == old(kids.Repr)
      ensures view == old(view).(procs := Delete(old(view).procs, z, old(view).At(z).children))
    {
      var q := if z in kids.qs then kids.qs[z] else null;
      var left := Freed(procs, z, q);
      DeleteMirrors(procs, kids.lists, z, left);
      kids.Drop(z);
      procs := left;
      view := view.(procs := left);
    }

    // -------------------------------------------------------------- queues

    method Push(i: nat, p: Pid)
      requires Valid() && i < QUEUES
      modifies this, queues.Repr
      ensures Valid() && fresh(queues.Repr - old(queues.Repr)) && fresh(kids.Repr - old(kids.Repr))
      ensures view == PutQueue(old(view), i, QueueOf(old(view), i) + [p])
      ensures i != BLOCKED ==> Nodes() == old(Nodes())
    {
      QueueOfParts(view, queues.lists, bank.values, i);
      ghost var q := QueueOf(view, i) + [p];
      ghost var s' := PutQueue(view, i, q);
      queues.Push(i, p);
      PutQueueParts(view, old(queues.lists), bank.values, i, q, s', queues.lists);
      view := s';
    }

    method IsEmpty(i: nat) returns (r: bool)
      requires Valid() && i < QUEUES
      ensures r <==> QueueOf(view, i) == []
    {
      QueueOfParts(view, queues.lists, bank.values, i);
      r := queues.IsEmpty(i);
    }

    method Pop(i: nat) returns (p: Pid)
      requires Valid() && i < QUEUES && QueueOf(view, i) != []
      modifies this, queues.Repr
      ensures Valid() && queues.Repr == old(queues.Repr) && kids.Repr == old(kids.Repr)
      ensures p == QueueOf(old(view), i)[0] && view == PutQueue(old(view), i, QueueOf(old(view), i)[1..])
    {
      QueueOfParts(view, queues.lists, bank.values, i);
      ghost var q := QueueOf(view, i)[1..];
      ghost var s' := PutQueue(view, i, q);
      p := queues.Pop(i);
      PutQueueParts(view, old(queues.lists), bank.values, i, q, s', queues.lists);
      view := s';
    }

    method Remove(i: nat, p: Pid) returns (ghost k: nat)
      requires Valid() && i < QUEUES
      modifies this, queues.Repr
      ensures Valid() && queues.Repr == old(queues.Repr) && kids.Repr == old(kids.Repr)
      ensures view == PutQueue(old(view), i, RemoveFirst(QueueOf(old(view), i), p))
      ensures i == BLOCKED ==> Lost(old(Nodes()), Nodes(), old(view).blocked, view.blocked, p, k)
    {
      QueueOfParts(view, queues.lists, bank.values, i);
      ghost var q := RemoveFirst(QueueOf(view, i), p);
      ghost var s' := PutQueue(view, i, q);
      k := queues.Remove(i, p);
      PutQueueParts(view, old(queues.lists), bank.values, i, q, s', queues.lists);
      view := s';
    }

    method NoReader(t: nat) returns (r: bool)
      requires Valid() && t < NUM_TERMINALS
      ensures r <==> view.Term(t).readers == []
    {
      r := IsEmpty(READERS + t);
    }

    method PushReader(t: nat, p: Pid)
      requires Valid() && t < NUM_TERMINALS
      modifies this, queues.Repr
      ensures Valid() && fresh(queues.Repr - old(queues.Repr)) && fresh(kids.Repr - old(kids.Repr))
      ensures var x := old(view).Term(t); view == old(view).PutTerm(t, x.(readers := x.readers + [p]))
    {
      Push(READERS + t, p);
    }

    method PopReader(t: nat) returns (p: Pid)
      requires Valid() && t < NUM_TERMINALS && view.Term(t).readers != []
      modifies this, queues.Repr
      ensures Valid() && queues.Repr == old(queues.Repr) && kids.Repr == old(kids.Repr)
              && p == old(view).Term(t).readers[0]
      ensures var x := old(view).Term(t); view == old(view).PutTerm(t, x.(readers := x.readers[1..]))
    {
      p := Pop(READERS + t);
    }

    method NoWriter(t: nat) returns (r: bool)
      requires Valid() && t < NUM_TERMINALS
      ensures r <==> view.Term(t).writers == []
    {
      r := IsEmpty(WRITERS + t);
    }

    method PushWriter(t: nat, p: Pid)
      requires Valid() && t < NUM_TERMINALS
      modifies this, queues.Repr
      ensures Valid() && fresh(queues.Repr - old(queues.Repr)) && fresh(kids.Repr - old(kids.Repr))
      ensures var x := old(view).Term(t); view == old(view).PutTerm(t, x.(writers := x.writers + [p]))
    {
      Push(WRITERS + t, p);
    }

    method PopWriter(t: nat) returns (p: Pid)
      requires Valid() && t < NUM_TERMINALS && view.Term(t).writers != []
      modifies this, queues.Repr
      ensures Valid() && queues.Repr == old(queues.Repr) && kids.Repr == old(kids.Repr)
              && p == old(view).Term(t).writers[0]
      ensures var x := old(view).Term(t); view == old(view).PutTerm(t, x.(writers := x.writers[1..]))
    {
      p := Pop(WRITERS + t);
    }

    // -------------------------------------------------------------- terminals

    /** The t-th terminal became y; its queues are not part of it. */
    ghost method Note(t: nat, y: Terminal, xs: seq<Terminal>)
      requires Framed() && t < NUM_TERMINALS
      requires mode == view.mode && waiting0 == view.waiting0 && current == view.cur && procs == view.procs
      requires Parts(view, queues.lists, xs) && bank.values == xs[t := y]
      modifies this`view
      ensures Valid()
      ensures view == old(view).PutTerm(t, y.(writers := old(view).Term(t).writers,
                                              readers := old(view).Term(t).readers))
    {
      ghost var s' := view.PutTerm(t, y.(writers := view.Term(t).writers, readers := view.Term(t).readers));
      PutTermParts(view, queues.lists, xs, t, y, s', bank.values);
      view := s';
    }

    method TakeBytes(t: nat, n: nat) returns (data: seq<Byte>)
      requires Valid() && t < NUM_TERMINALS && n <= |view.Term(t).readBuf|
      modifies this`view, bank.Repr
      ensures Valid() && data == old(view).Term(t).readBuf[..n]
      ensures view == old(view).PutTerm(t, old(view).Term(t).(readBuf := old(view).Term(t).readBuf[n..]))
    {
      ghost var xs := bank.values;
      data := bank.Take(t, n);
      Note(t, xs[t].(readBuf := xs[t].readBuf[n..]), xs);
    }

    method ReceiveBytes(t: nat, data: seq<Byte>)
      requires Valid() && t < NUM_TERMINALS && |view.Term(t).readBuf| + |data| <= TERMINAL_MAX_LINE
      modifies this`view, bank.Repr
      ensures Valid()
      ensures view == old(view).PutTerm(t, Extended(old(view).Term(t), data))
    {
      ghost var xs := bank.values;
      bank.Receive(t, data);
      Note(t, Extended(xs[t], data), xs);
    }

    method SendChunk(t: nat)
      requires Valid() && t < NUM_TERMINALS && view.Term(t).position <= |view.Term(t).writeBuf|
      modifies this`view, bank.Repr
      ensures Valid()
      ensures view == old(view).PutTerm(t, Advanced(old(view).Term(t)))
    {
      ghost var xs := bank.values;
      QueuesApart(view.Term(t), xs[t], None);
      bank.SendChunk(t);
      Note(t, Advanced(xs[t]), xs);
    }

    ghost method Accept(t: nat, m: Message)
      requires Valid() && t < NUM_TERMINALS
      modifies this`view, bank.Repr
      ensures Valid()
      ensures view == old(view).PutTerm(t, old(view).Term(t).(calls := old(view).Term(t).calls + [m]))
    {
      ghost var xs := bank.values;
      bank.Accept(t, m);
      Note(t, xs[t].(calls := xs[t].calls + [m]), xs);
    }

    method Start(t: nat, msg: seq<Byte>, p: Pid)
      requires Valid() && t < NUM_TERMINALS
      modifies this`view, bank.Repr
      ensures Valid()
      ensures view == old(view).PutTerm(t, Started(old(view).Term(t), msg, p))
    {
      ghost var xs := bank.values;
      bank.Start(t, msg, p);
      Note(t, Started(xs[t], msg, p), xs);
    }

    method GiveUp(t: nat)
      requires Valid() && t < NUM_TERMINALS
      modifies this`view, bank.Repr
      ensures Valid()
      ensures view == old(view).PutTerm(t, GivenUp(old(view).Term(t)))
    {
      ghost var xs := bank.values;
      bank.GiveUp(t);
      Note(t, GivenUp(xs[t]), xs);
    }

    method Finish(t: nat, next: Option<Pid>)
      requires Valid() && t < NUM_TERMINALS
      modifies this`view, bank.Repr
      ensures Valid()
      ensures view == old(view).PutTerm(t, Finished(old(view).Term(t), next))
    {
      ghost var xs := bank.values;
      QueuesApart(view.Term(t), xs[t], next);
      bank.Finish(t, next);
      Note(t, Finished(xs[t], next), xs);
    }

    method InUse(t: nat) returns (r: bool)
      requires Valid() && t < NUM_TERMINALS
      ensures r == view.Term(t).inUse
    {
      r := bank.ttys[t].inUse;
    }

    method Available(t: nat) returns (n: nat)
      requires Valid() && t < NUM_TERMINALS
      ensures n == |view.Term(t).readBuf|
    {
      n := bank.ttys[t].len;
    }

    method Outgoing(t: nat) returns (writer: Option<Pid>, len: nat, position: nat)
      requires Valid() && t < NUM_TERMINALS
      ensures var x := view.Term(t); writer == x.writer && len == |x.writeBuf| && position == x.position
    {
      writer, len, position := bank.ttys[t].writer, |bank.ttys[t].writeBuf|, bank.ttys[t].position;
    }
  }
}
