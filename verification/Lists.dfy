/** All the kernel's process queues together: linked lists that share no node. */
module Lists {
  import opened KernelState
  import opened ProcessQueue

  /** What is left of a list when its k-th element, if there is one, is gone. */
  ghost function Without<T>(s: seq<T>, k: nat): seq<T> {
    if k < |s| then s[..k] + s[k + 1..] else s
  }

  class Table {
    const qs: seq<Queue>
    ghost var lists: seq<seq<Pid>>   // what each queue stands for
    ghost var Repr: set<object>

    ghost predicate Apart()
      reads this, Repr
    {
      && this in Repr && |qs| == |lists|
      && (forall i {:trigger qs[i]} :: 0 <= i < |qs| ==> qs[i] in Repr && qs[i].footprint <= Repr)
      && (forall i, j {:trigger qs[i], qs[j]} :: 0 <= i < j < |qs| ==>
            qs[i] != qs[j] && qs[i].footprint !! qs[j].footprint)
    }

    ghost predicate Valid()
      reads this, Repr
    {
      && Apart()
      && (forall i {:trigger qs[i]} :: 0 <= i < |qs| ==> qs[i].Valid() && qs[i].contents == lists[i])
    }

    /** Every queue but the i-th is as recorded. */
    ghost predicate Besides(i: nat)
      reads this, Repr
    {
      && Apart()
      && (forall j {:trigger qs[j]} :: 0 <= j < |qs| && j != i ==> qs[j].Valid() && qs[j].contents == lists[j])
    }

    /** Record what became of the i-th queue. */
    ghost method Note(i: nat)
      requires Besides(i) && i < |qs| && qs[i].Valid()
      modifies this`lists
      ensures Valid() && lists == old(lists)[i := qs[i].contents]
    {
      lists := lists[i := qs[i].contents];
    }

    constructor (n: nat)
      ensures Valid() && fresh(Repr) && |qs| == n && forall i :: 0 <= i < n ==> lists[i] == []
    {
      var made: seq<Queue> := [];
      ghost var all: set<object> := {};
      while |made| < n
        invariant |made| <= n && fresh(all)
        invariant forall i :: 0 <= i < |made| ==>
                    made[i] in all && made[i].footprint == {} && made[i].Valid() && made[i].contents == []
        invariant forall i, j :: 0 <= i < j < |made| ==> made[i] != made[j]
      {
        var q := new Queue();
        made, all := made + [q], all + {q};
      }
      qs, lists := made, seq(n, _ => []);
      Repr := all + {this};
    }

    method IsEmpty(i: nat) returns (r: bool)
      requires Valid() && i < |qs|
      ensures r <==> lists[i] == []
    {
      r := qs[i].IsEmpty();
    }

    /** Enqueue, the node being allocated. */
    method Push(i: nat, p: Pid)
      requires Valid() && i < |qs|
      modifies Repr
      ensures Valid() && fresh(Repr - old(Repr)) && old(Repr) <= Repr
      ensures lists == old(lists)[i := old(lists)[i] + [p]]
      ensures forall j :: 0 <= j < |qs| && j != i ==> qs[j].nodes == old(qs[j].nodes)
    {
      qs[i].Enqueue(p, true);
      Repr := Repr + qs[i].footprint;
      Note(i);
    }

    method Pop(i: nat) returns (p: Pid)
      requires Valid() && i < |qs| && lists[i] != []
      modifies Repr
      ensures Valid() && Repr == old(Repr)
      ensures p == old(lists)[i][0] && lists == old(lists)[i := old(lists)[i][1..]]
    {
      var r := qs[i].Dequeue();
      p := r.value;
      Note(i);
    }

    method Remove(i: nat, p: Pid) returns (ghost k: nat)
      requires Valid() && i < |qs|
      modifies Repr
      ensures Valid() && Repr == old(Repr)
      ensures lists == old(lists)[i := RemoveFirst(old(lists)[i], p)]
      ensures lists[i] == Without(old(lists)[i], k) && qs[i].nodes == Without(old(qs[i].nodes), k)
      ensures |old(qs[i].nodes)| == |old(lists)[i]|
      ensures k < |old(lists)[i]| ==> old(lists)[i][k] == p && p !in old(lists)[i][..k]
    {
      k := qs[i].Remove(p);
      Note(i);
    }
  }
}
