/** The children queues: one linked list a process, made when its first child is born. */
module Kids {
  import opened KernelState
  import opened ProcessQueue

  class Offspring {
    var qs: map<Pid, Queue>
    ghost var lists: map<Pid, seq<Pid>>   // what each queue stands for
    ghost var Repr: set<object>

    ghost predicate Apart()
      reads this, Repr
    {
      && this in Repr && qs.Keys == lists.Keys
      && (forall p {:trigger qs[p]} :: p in qs ==> qs[p] in Repr && qs[p].footprint <= Repr)
      && (forall p, q {:trigger qs[p], qs[q]} :: p in qs && q in qs && p != q ==>
            qs[p] != qs[q] && qs[p].footprint !! qs[q].footprint)
    }

    ghost predicate Valid()
      reads this, Repr
    {
      Apart() && forall p {:trigger qs[p]} :: p in qs ==> qs[p].Valid() && qs[p].contents == lists[p]
    }

    /** Every queue but p's is as recorded. */
    ghost predicate Besides(p: Pid)
      reads this, Repr
    {
      Apart() && forall q {:trigger qs[q]} :: q in qs && q != p ==> qs[q].Valid() && qs[q].contents == lists[q]
    }

    ghost function ListOf(p: Pid): seq<Pid>
      reads this
    {
      if p in lists then lists[p] else []
    }

    /** Record what became of p's queue. */
    ghost method Note(p: Pid)
      requires Besides(p) && p in qs && qs[p].Valid()
      modifies this`lists
      ensures Valid() && lists == old(lists)[p := qs[p].contents]
    {
      lists := lists[p := qs[p].contents];
    }

    constructor ()
      ensures Valid() && fresh(Repr) && lists == map[]
    {
      qs, lists, Repr := map[], map[], {this};
    }

    /** queueCreate, if p has no queue yet. */
    method Create(p: Pid)
      requires Valid()
      modifies this
      ensures Valid() && fresh(Repr - old(Repr)) && old(Repr) <= Repr && p in qs
              && lists == old(lists)[p := old(ListOf(p))]
    {
      if p in qs { return; }
      var q := new Queue();
      qs, lists, Repr := qs[p := q], lists[p := []], Repr + {q};
    }

    method Push(p: Pid, c: Pid)
      requires Valid()
      modifies Repr
      ensures Valid() && fresh(Repr - old(Repr)) && lists == old(lists)[p := old(ListOf(p)) + [c]]
    {
      Create(p);
      Append(p, c);
    }

    method Append(p: Pid, c: Pid)
      requires Valid() && p in qs
      modifies Repr
      ensures Valid() && fresh(Repr - old(Repr)) && lists == old(lists)[p := old(lists)[p] + [c]]
    {
      qs[p].Enqueue(c, true);
      Repr := Repr + qs[p].footprint;
      Note(p);
    }

    method Remove(p: Pid, c: Pid)
      requires Valid()
      modifies Repr
      ensures Valid() && Repr == old(Repr)
      ensures lists == if p in old(lists) then old(lists)[p := RemoveFirst(old(lists)[p], c)] else old(lists)
    {
      if p !in qs { return; }
      ghost var k := qs[p].Remove(c);
      Note(p);
    }

    /** queueDelete. */
    method Drop(p: Pid)
      requires Valid()
      modifies this
      ensures Valid() && Repr == old(Repr) && lists == old(lists) - {p}
    {
      qs, lists := qs - {p}, lists - {p};
    }

    method IsEmpty(p: Pid) returns (r: bool)
      requires Valid()
      ensures r <==> ListOf(p) == []
    {
      if p !in qs { return true; }
      r := qs[p].IsEmpty();
    }
  }
}
