/**
 The doubly linked process queue, and the proof that it is a sequence: head, tail,
 next and prev always spell out the same list of processes.
 */
module ProcessQueue {
  import opened Common
  import opened KernelState
  import opened Placement

  class Node {
    var process: Pid
    var next: Node?
    var prev: Node?

    constructor (p: Pid)
      ensures process == p && next == null && prev == null
    {
      process, next, prev := p, null, null;
    }
  }

  class Queue {
    var head: Node?
    var tail: Node?
    ghost var nodes: seq<Node>
    ghost var contents: seq<Pid>
    ghost var footprint: set<Node>   // every node this queue ever had

    ghost predicate Linked()
      requires forall i :: 0 <= i < |nodes| ==> nodes[i] in footprint
      reads this, footprint
    {
      && (nodes == [] ==> head == null && tail == null)
      && (nodes != [] ==> head == nodes[0] && tail == nodes[|nodes| - 1]
                          && nodes[0].prev == null && nodes[|nodes| - 1].next == null)
      && (forall i {:trigger nodes[i].next} :: 0 <= i < |nodes| - 1 ==> nodes[i].next == nodes[i + 1])
      && (forall i {:trigger nodes[i].prev} :: 1 <= i < |nodes| ==> nodes[i].prev == nodes[i - 1])
    }

    /** The nodes are distinct and hold the contents. */
    ghost predicate Holds()
      reads this, footprint
    {
      && (forall i :: 0 <= i < |nodes| ==> nodes[i] in footprint)
      && |contents| == |nodes|
      && (forall i :: 0 <= i < |nodes| ==> nodes[i].process == contents[i])
      && (forall i, j :: 0 <= i < j < |nodes| ==> nodes[i] != nodes[j])
    }

    ghost predicate Valid()
      reads this, footprint
    {
      Holds() && Linked()
    }

    /** Every node but the k-th is linked as if the k-th were not there. */
    ghost predicate Skips(k: nat)
      requires k < |nodes| && forall i :: 0 <= i < |nodes| ==> nodes[i] in footprint
      reads this, footprint
    {
      var n := |nodes|;
      && head == (if k > 0 then nodes[0] else if n == 1 then null else nodes[1])
      && tail == (if k + 1 < n then nodes[n - 1] else if k == 0 then null else nodes[k - 1])
      && (forall i {:trigger nodes[i].next} :: 0 <= i < n && i != k ==>
            nodes[i].next == if i + 1 == k then (if k + 1 < n then nodes[k + 1] else null)
                             else if i + 1 < n then nodes[i + 1] else null)
      && (forall i {:trigger nodes[i].prev} :: 0 <= i < n && i != k ==>
            nodes[i].prev == if i == k + 1 then (if k > 0 then nodes[k - 1] else null)
                             else if i > 0 then nodes[i - 1] else null)
    }

    constructor ()
      ensures Valid() && contents == [] && footprint == {}
    {
      head, tail, nodes, contents, footprint := null, null, [], [], {};
    }

    method IsEmpty() returns (r: bool)
      requires Valid()
      ensures r <==> contents == []
    {
      r := head == null;
    }

    /** Appends; when no node can be allocated the process is silently dropped. */
    method Enqueue(p: Pid, allocOk: bool)
      requires Valid()
      modifies this, footprint
      ensures Valid() && contents == old(contents) + (if allocOk then [p] else [])
      ensures old(footprint) <= footprint && fresh(footprint - old(footprint))
    {
      if !allocOk { return; }
      var node := new Node(p);
      node.prev := tail;
      if head == null { head := node; } else { tail.next := node; }
      tail := node;
      nodes, contents, footprint := nodes + [node], contents + [p], footprint + {node};
    }

    method Dequeue() returns (r: Option<Pid>)
      requires Valid()
      modifies this, footprint
      ensures Valid()
      ensures old(contents) == [] ==> r == None && contents == []
      ensures old(contents) != [] ==> r == Some(old(contents)[0]) && contents == old(contents)[1..]
      ensures footprint == old(footprint)
    {
      if head == null { return None; }
      r := Some(head.process);
      head := head.next;
      nodes, contents := nodes[1..], contents[1..];
      if head == null { tail := null; } else { head.prev := null; }
    }

    method Contains(p: Pid) returns (r: bool)
      requires Valid()
      ensures r <==> p in contents
    {
      var node := head;
      ghost var k := 0;
      while node != null
        invariant 0 <= k <= |nodes| && (node == null <==> k == |nodes|) && (node != null ==> node == nodes[k])
        invariant p !in contents[..k]
        decreases |nodes| - k
      {
        if node.process == p { return true; }
        node, k := node.next, k + 1;
      }
      return false;
    }

    /** The pointer writes around the k-th node. */
    method Bypass(node: Node, ghost k: nat)
      requires Valid() && k < |nodes| && nodes[k] == node
      modifies this`head, this`tail, footprint
      ensures Holds() && Skips(k) && forall n :: n in footprint ==> n.process == old(n.process)
    {
      assert node.prev == (if k == 0 then null else nodes[k - 1])
             && node.next == (if k + 1 == |nodes| then null else nodes[k + 1]);
      if node.prev == null { head := node.next; } else { node.prev.next := node.next; }
      if node.next == null { tail := node.prev; } else { node.next.prev := node.prev; }
    }

    ghost method Forget(k: nat)
      requires k < |nodes| && Holds() && Skips(k)
      modifies this`nodes, this`contents
      ensures Valid() && nodes == old(nodes)[..k] + old(nodes)[k + 1..]
              && contents == old(contents)[..k] + old(contents)[k + 1..]
    {
      nodes, contents := nodes[..k] + nodes[k + 1..], contents[..k] + contents[k + 1..];
    }

    /** Take the k-th node out of the list, as queueRemove does once it found it. */
    method Unlink(node: Node, ghost k: nat)
      requires Valid() && k < |nodes| && nodes[k] == node
      modifies this, footprint
      ensures Valid() && nodes == old(nodes)[..k] + old(nodes)[k + 1..] && footprint == old(footprint)
      ensures contents == old(contents)[..k] + old(contents)[k + 1..]
      ensures forall n :: n in footprint ==> n.process == old(n.process)
    {
      Bypass(node, k);
      Forget(k);
    }

    /** Removes the first occurrence of p, or nothing. */
    method Remove(p: Pid) returns (ghost k: nat)
      requires Valid()
      modifies this, footprint
      ensures Valid() && contents == RemoveFirst(old(contents), p) && footprint == old(footprint)
      ensures k <= |old(nodes)| && p !in old(contents)[..k]
      ensures forall n :: n in footprint ==> n.process == old(n.process)
      ensures k == |old(nodes)| ==> nodes == old(nodes)
      ensures k < |old(nodes)| ==> old(contents)[k] == p && nodes == old(nodes)[..k] + old(nodes)[k + 1..]
                                   && contents == old(contents)[..k] + old(contents)[k + 1..]
    {
      var node := head;
      k := 0;
      while node != null
        invariant Valid() && nodes == old(nodes) && contents == old(contents) && footprint == old(footprint)
        invariant forall n :: n in footprint ==> n.process == old(n.process)
        invariant 0 <= k <= |nodes| && (node == null <==> k == |nodes|) && (node != null ==> node == nodes[k])
        invariant p !in contents[..k]
        decreases |nodes| - k
      {
        if node.process == p {
          RemoveFirstAt(contents, p, k);
          Unlink(node, k);
          return;
        }
        node, k := node.next, k + 1;
      }
      assert contents[..k] == contents;
      RemoveFirstAbsent(contents, p);
    }
  }
}
