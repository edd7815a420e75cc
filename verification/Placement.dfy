/** Every process is in exactly one place. */
module Placement {
  import opened Common
  import opened KernelState

  /** How many places hold p: the processor (when `running`), the three queues, and
      being blocked in Wait, which is marked only by the flag. */
  function Places(s: State, p: Pid, running: bool): int {
    (if running && s.cur == p && p != IDLE then 1 else 0)
    + multiset(s.ready)[p] + multiset(s.blocked)[p] + multiset(s.zombie)[p]
    + (if s.At(p).waiting == 1 then 1 else 0)
  }

  /** Each unreaped process other than idle is in one place, and nothing else is in any. */
  ghost predicate Placed(s: State, running: bool) {
    forall p: Pid :: Places(s, p, running) == if p in s.procs && p != IDLE then 1 else 0
  }

  ghost predicate PlacementInv(s: State) {
    && IDLE in s.procs && s.cur in s.procs && s.At(s.cur).state == Running
    && s.At(IDLE).resume == ToUser
    && Placed(s, true)
  }

  lemma {:induction false} RemoveFirstMultiset<T>(q: seq<T>, x: T)
    requires x in q
    ensures multiset(RemoveFirst(q, x)) == multiset(q) - multiset{x}
    ensures |RemoveFirst(q, x)| == |q| - 1
  {
    assert q == [q[0]] + q[1..];
    if q[0] != x {
      RemoveFirstMultiset(q[1..], x);
    }
  }

  lemma {:induction false} RemoveFirstAt<T>(q: seq<T>, x: T, k: nat)
    requires k < |q| && q[k] == x && x !in q[..k]
    ensures RemoveFirst(q, x) == q[..k] + q[k + 1..]
  {
    if k > 0 {
      assert q[0] in q[..k];
      assert forall y :: y in q[1..][..k - 1] ==> y in q[..k];
      RemoveFirstAt(q[1..], x, k - 1);
      assert q[1..][..k - 1] == q[1..k] && q[1..][k..] == q[k + 1..];
    }
  }

  lemma {:induction false} RemoveFirstAbsent<T>(q: seq<T>, x: T)
    requires x !in q
    ensures RemoveFirst(q, x) == q
  {
    if q != [] {
      RemoveFirstAbsent(q[1..], x);
    }
  }

  /** Dispatching fills the processor; everything else stays where it is. */
  lemma SwitchPlaces(s: State)
    requires IDLE in s.procs && Placed(s, false) && s.At(IDLE).resume == ToUser
    ensures PlacementInv(Switch(s))
    ensures s.ready != [] ==> Switch(s).cur == s.ready[0] && s.ready[0] in s.procs
    ensures Switch(s).cur in s.procs
  {
    var s' := Switch(s);
    if s.ready != [] {
      assert s.ready == [s.ready[0]] + s.ready[1..];
      assert Places(s, s.ready[0], false) >= 1;
    }
    forall p: Pid ensures Places(s', p, true) == if p in s'.procs && p != IDLE then 1 else 0 {
      assert Places(s, p, false) == if p in s.procs && p != IDLE then 1 else 0;
    }
  }

  lemma BlockPlaces(s: State, r: Resume)
    requires Placed(s, true) && s.cur in s.procs && s.cur != IDLE
    ensures Placed(Block(s, r), false)
  {
    var s' := Block(s, r);
    forall p: Pid ensures Places(s', p, false) == if p in s'.procs && p != IDLE then 1 else 0 {
      assert Places(s, p, true) == if p in s.procs && p != IDLE then 1 else 0;
    }
  }

  lemma WakePlaces(s: State, p: Pid)
    requires PlacementInv(s) && p in s.blocked
    ensures PlacementInv(Wake(s, p))
    ensures p in s.procs && p != IDLE && p != s.cur
    ensures p in Wake(s, p).ready && p !in Wake(s, p).blocked
  {
    var s' := Wake(s, p);
    RemoveFirstMultiset(s.blocked, p);
    assert Places(s, p, true) == 1;
    forall q: Pid ensures Places(s', q, true) == if q in s'.procs && q != IDLE then 1 else 0 {
      assert Places(s, q, true) == if q in s.procs && q != IDLE then 1 else 0;
    }
    assert Places(s', p, true) == 1;
    assert multiset(s'.ready)[p] >= 1;
    assert p !in multiset(s'.blocked);
  }

  /** A change that keeps queues, flags and the processor keeps every place. */
  lemma SamePlaces(s: State, s': State, running: bool)
    requires Placed(s, running)
    requires s'.procs.Keys == s.procs.Keys && s'.cur == s.cur
    requires s'.ready == s.ready && s'.blocked == s.blocked && s'.zombie == s.zombie
    requires forall p :: p in s.procs ==> s'.procs[p].waiting == s.procs[p].waiting
    ensures Placed(s', running)
  {
    forall p: Pid ensures Places(s', p, running) == if p in s'.procs && p != IDLE then 1 else 0 {
      assert Places(s, p, running) == if p in s.procs && p != IDLE then 1 else 0;
    }
  }

  lemma VisitPlaces(s: State, p: Pid)
    requires PlacementInv(s) && (s.At(p).delay > 0 ==> p in s.blocked)
    ensures PlacementInv(Visit(s, p)) && Visit(s, p).cur == s.cur
  {
    var b := s.At(p);
    if b.delay > 0 {
      assert Places(s, p, true) >= 1;
      var s1 := s.Put(p, b.(delay := b.delay - 1));
      SamePlaces(s, s1, true);
      if b.delay == 1 {
        WakePlaces(s1, p);
      }
    }
  }

  lemma PreemptPlaces(s: State)
    requires PlacementInv(s)
    ensures PlacementInv(Preempt(s))
  {
    var s' := Preempt(s);
    if s.ready != [] {
      assert s.ready == [s.ready[0]] + s.ready[1..];
      assert Places(s, s.ready[0], true) >= 1;
      forall p: Pid ensures Places(s', p, true) == if p in s'.procs && p != IDLE then 1 else 0 {
        assert Places(s, p, true) == if p in s.procs && p != IDLE then 1 else 0;
      }
    }
  }

  lemma ForkPlaces(s: State, child: Pid)
    requires PlacementInv(s) && child !in s.procs && s.cur != IDLE && s.waiting0 != 1
    ensures PlacementInv(Fork(s, child))
  {
    var s' := Fork(s, child);
    forall p: Pid ensures Places(s', p, true) == if p in s'.procs && p != IDLE then 1 else 0 {
      assert Places(s, p, true) == if p in s.procs && p != IDLE then 1 else 0;
    }
  }

  lemma BuryPlaces(s: State, status: int)
    requires PlacementInv(s) && s.cur != IDLE
    ensures Placed(Bury(s, status), false)
  {
    var s' := Bury(s, status);
    forall p: Pid ensures Places(s', p, false) == if p in s'.procs && p != IDLE then 1 else 0 {
      assert Places(s, p, true) == if p in s.procs && p != IDLE then 1 else 0;
    }
  }

  /** Waking the parent keeps the places exactly when it was blocked in Wait or not flagged. */
  lemma WakeParentPlaces(s: State, parent: Option<Pid>)
    requires Placed(s, false)
    requires parent.Some? ==> parent.value in s.procs && parent.value != IDLE
    ensures Placed(WakeParent(s, parent), false)
            <==> (parent.Some? ==> s.At(parent.value).waiting in {0, 1})
    ensures !Placed(WakeParent(s, parent), false) ==> Places(WakeParent(s, parent), parent.value, false) == 2
  {
    var s' := WakeParent(s, parent);
    if parent.Some? && s.At(parent.value).waiting != 0 {
      var p := parent.value;
      assert Places(s, p, false) == 1;
      assert Places(s', p, false) == if s.At(p).waiting == 1 then 1 else 2;
      forall q: Pid | q != p ensures Places(s', q, false) == if q in s'.procs && q != IDLE then 1 else 0 {
        assert Places(s, q, false) == if q in s.procs && q != IDLE then 1 else 0;
      }
    }
  }

  /** A process in two places is still in two places after a dispatch. */
  lemma SwitchKeepsCount(s: State, p: Pid)
    requires p != IDLE
    ensures Places(Switch(s), p, true) == Places(s, p, false)
  {
    if s.ready != [] {
      assert s.ready == [s.ready[0]] + s.ready[1..];
    }
  }

  lemma ReapPlaces(s: State, z: Pid)
    requires PlacementInv(s) && s.cur != IDLE && z in s.zombie
    requires s.cur !in s.At(z).children
    ensures PlacementInv(Reap(s, z)) && z != s.cur && z != IDLE && z in s.procs
  {
    var s' := Reap(s, z);
    RemoveFirstMultiset(s.zombie, z);
    assert Places(s, z, true) == 1;
    forall p: Pid ensures Places(s', p, true) == if p in s'.procs && p != IDLE then 1 else 0 {
      assert Places(s, p, true) == if p in s.procs && p != IDLE then 1 else 0;
    }
  }
}
