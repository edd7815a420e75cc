/** Mapping and dropping ranges of pages: the stack, the kernel heap, and a new program. */
module PageTables {
  import opened Frames

  /** allocFrame into entry i of t, without a look at the result: -1 goes into the pfn field. */
  function MapNext<K>(m: Mem<K>, t: K, i: nat, u: Usage, prot: nat): Mem<K>
    requires t in m.maps && i < |m.maps[t]|
  {
    var f := FirstFree(m.usage);
    if f < |m.usage| then Put(Take(m, f, u), t, i, Pte(true, prot, f)) else Put(m, t, i, Pte(true, prot, NO_FRAME))
  }

  /** n pages from `from` on. */
  function MapRange<K>(m: Mem<K>, t: K, from: nat, n: nat, u: Usage, prot: nat): (r: Mem<K>)
    requires t in m.maps && from + n <= |m.maps[t]|
    ensures t in r.maps && |r.maps[t]| == |m.maps[t]|
  {
    if n == 0 then m else MapNext(MapRange(m, t, from, n - 1, u, prot), t, from + (n - 1), u, prot)
  }

  /** freeFrame of what entry i names, if it is valid, and the entry is invalid. */
  function DropNext<K>(m: Mem<K>, t: K, i: nat): Mem<K>
    requires t in m.maps && i < |m.maps[t]|
  {
    var e := m.maps[t][i];
    if !e.valid then m
    else Put(if e.pfn < |m.usage| then Release(m, e.pfn) else m, t, i, e.(valid := false))
  }

  function DropRange<K>(m: Mem<K>, t: K, from: nat, n: nat): (r: Mem<K>)
    requires t in m.maps && from + n <= |m.maps[t]|
    ensures t in r.maps && |r.maps[t]| == |m.maps[t]|
  {
    if n == 0 then m else DropNext(DropRange(m, t, from, n - 1), t, from + (n - 1))
  }

  /** The frames that the valid ones among n entries from `from` on name, set to x. */
  function Marks(us: seq<Usage>, e: seq<Pte>, from: nat, n: nat, x: Usage): (vs: seq<Usage>)
    requires from + n <= |e|
    ensures |vs| == |us|
  {
    if n == 0 then us
    else
      var vs, d := Marks(us, e, from, n - 1, x), e[from + (n - 1)];
      if d.valid && d.pfn < |us| then vs[d.pfn := x] else vs
  }

  /** Outside the range nothing changed. */
  ghost predicate Apart<K>(m: Mem<K>, r: Mem<K>, t: K, from: nat, n: nat) {
    && SameShape(m, r) && r.pages == m.pages && r.brk == m.brk && t in m.maps
    && (forall v :: v in m.maps && v != t ==> r.maps[v] == m.maps[v])
    && forall i :: 0 <= i < |m.maps[t]| && !(from <= i < from + n) ==> r.maps[t][i] == m.maps[t][i]
  }

  /** The range is mapped to frames that were free. */
  predicate Fresh(us: seq<Usage>, e: seq<Pte>, from: nat, n: nat, prot: nat) {
    from + n <= |e|
    && forall i :: from <= i < from + n ==> e[i].valid && e[i].prot == prot && e[i].pfn < |us| && us[e[i].pfn] == Free
  }

  /** n pages from `from` on were mapped to as many free frames, which alone changed use. */
  ghost predicate Mapped<K>(m: Mem<K>, r: Mem<K>, t: K, from: nat, n: nat, u: Usage, prot: nat) {
    && Apart(m, r, t, from, n) && m.free == r.free + n
    && Fresh(m.usage, r.maps[t], from, n, prot) && r.usage == Marks(m.usage, r.maps[t], from, n, u)
  }

  // ---------------------------------------------------------------- marks

  lemma {:induction false} MarksSame(us: seq<Usage>, e: seq<Pte>, d: seq<Pte>, from: nat, n: nat, x: Usage)
    requires from + n <= |e| == |d| && forall i :: from <= i < from + n ==> e[i] == d[i]
    ensures Marks(us, e, from, n, x) == Marks(us, d, from, n, x)
  {
    if n > 0 { MarksSame(us, e, d, from, n - 1, x); }
  }

  lemma {:induction false} MarksAt(us: seq<Usage>, e: seq<Pte>, from: nat, n: nat, x: Usage, f: nat)
    requires from + n <= |e| && f < |us|
    ensures Marks(us, e, from, n, x)[f] == x || Marks(us, e, from, n, x)[f] == us[f]
    ensures (forall i :: from <= i < from + n && e[i].valid ==> e[i].pfn != f) ==> Marks(us, e, from, n, x)[f] == us[f]
    ensures (exists i :: from <= i < from + n && e[i].valid && e[i].pfn == f) ==> Marks(us, e, from, n, x)[f] == x
  {
    if n > 0 { MarksAt(us, e, from, n - 1, x, f); }
  }

  /** Mapping a range marks the frames of its pages. */
  lemma MappedUsed<K>(m: Mem<K>, r: Mem<K>, t: K, from: nat, n: nat, u: Usage, prot: nat, v: nat)
    requires Mapped(m, r, t, from, n, u, prot) && from <= v < from + n
    ensures r.maps[t][v].pfn < |r.usage| && r.usage[r.maps[t][v].pfn] == u
  {
    MarksAt(m.usage, r.maps[t], from, n, u, r.maps[t][v].pfn);
  }

  /** Freeing what was taken gives back the frame table. */
  lemma MarksUndo(us: seq<Usage>, e: seq<Pte>, from: nat, n: nat, u: Usage)
    requires from + n <= |e|
    requires forall i :: from <= i < from + n && e[i].valid ==> e[i].pfn < |us| && us[e[i].pfn] == Free
    ensures Marks(Marks(us, e, from, n, u), e, from, n, Free) == us
  {
    var vs := Marks(us, e, from, n, u);
    var ws := Marks(vs, e, from, n, Free);
    forall f | 0 <= f < |us| ensures ws[f] == us[f] {
      MarksAt(us, e, from, n, u, f);
      MarksAt(vs, e, from, n, Free, f);
    }
  }

  // ---------------------------------------------------------------- mapping a range

  lemma MapNextSound<K>(m: Mem<K>, t: K, i: nat, u: Usage, prot: nat, r: Mem<K>)
    requires Sound(m) && t in m.maps && i < |m.maps[t]| && m.free > 0 && u != Free && r == MapNext(m, t, i, u, prot)
    ensures Sound(r) && m.free == r.free + 1 && FirstFree(m.usage) < |m.usage|
  {
    var f := FirstFree(m.usage);
    FirstFreeSome(m.usage);
    TakeSound(m, f, u);
    MapSound(Take(m, f, u), t, i, Pte(true, prot, f));
  }

  lemma ApartMore<K>(m: Mem<K>, o: Mem<K>, t: K, from: nat, n: nat, e: Pte, r: Mem<K>)
    requires Apart(m, o, t, from, n) && from + n < |m.maps[t]| && r.maps == Put(o, t, from + n, e).maps
    requires r.pages == o.pages && r.brk == o.brk && r.zero == o.zero && |r.usage| == |o.usage|
    ensures Apart(m, r, t, from, n + 1)
  {
  }

  lemma FreshMore(us: seq<Usage>, vs: seq<Usage>, e: seq<Pte>, from: nat, n: nat, u: Usage, d: Pte)
    requires from + n < |e| && Fresh(us, e, from, n, d.prot) && vs == Marks(us, e, from, n, u) && u != Free
    requires d.valid && d.pfn < |us| && vs[d.pfn] == Free
    ensures Fresh(us, e[from + n := d], from, n + 1, d.prot)
            && vs[d.pfn := u] == Marks(us, e[from + n := d], from, n + 1, u)
  {
    MarksAt(us, e, from, n, u, d.pfn);
    MarksSame(us, e, e[from + n := d], from, n, u);
  }

  lemma MappedMore<K>(m: Mem<K>, o: Mem<K>, t: K, from: nat, n: nat, u: Usage, prot: nat, r: Mem<K>)
    requires Counted(o) && Mapped(m, o, t, from, n, u, prot) && from + n < |m.maps[t]| && o.free > 0 && u != Free
    requires r == MapNext(o, t, from + n, u, prot)
    ensures Counted(r) && Mapped(m, r, t, from, n + 1, u, prot)
  {
    var e := Pte(true, prot, FirstFree(o.usage));
    FirstFreeSome(o.usage);
    CountUpdate(o.usage, IsFree, |o.usage|, e.pfn, u);
    FreshMore(m.usage, o.usage, o.maps[t], from, n, u, e);
    ApartMore(m, o, t, from, n, e, r);
  }

  lemma MapRangeUnroll<K>(m: Mem<K>, t: K, from: nat, n: nat, u: Usage, prot: nat, o: Mem<K>)
    requires t in m.maps && from + n < |m.maps[t]| && o == MapRange(m, t, from, n, u, prot)
    ensures MapRange(m, t, from, n + 1, u, prot) == MapNext(o, t, from + n, u, prot)
  {
  }

  lemma {:induction false} MapRangeSound<K>(m: Mem<K>, t: K, from: nat, n: nat, u: Usage, prot: nat, r: Mem<K>)
    requires Sound(m) && t in m.maps && from + n <= |m.maps[t]| && n <= m.free && u != Free
    requires r == MapRange(m, t, from, n, u, prot)
    ensures Sound(r) && m.free == r.free + n
    decreases n
  {
    if n > 0 {
      var o := MapRange(m, t, from, n - 1, u, prot);
      MapRangeUnroll(m, t, from, n - 1, u, prot, o);
      MapRangeSound(m, t, from, n - 1, u, prot, o);
      MapNextSound(o, t, from + (n - 1), u, prot, r);
    }
  }

  lemma MapRangeMore<K>(m: Mem<K>, t: K, from: nat, n: nat, u: Usage, prot: nat, o: Mem<K>, r: Mem<K>)
    requires t in m.maps && from + n < |m.maps[t]| && n < m.free && u != Free
    requires o == MapRange(m, t, from, n, u, prot) && r == MapRange(m, t, from, n + 1, u, prot)
    requires Counted(o) && Mapped(m, o, t, from, n, u, prot)
    ensures Counted(r) && Mapped(m, r, t, from, n + 1, u, prot)
  {
    MapRangeUnroll(m, t, from, n, u, prot, o);
    MappedMore(m, o, t, from, n, u, prot, r);
  }

  lemma {:induction false} MapRangeIs<K>(m: Mem<K>, t: K, from: nat, n: nat, u: Usage, prot: nat, r: Mem<K>)
    requires Counted(m) && t in m.maps && from + n <= |m.maps[t]| && n <= m.free && u != Free
    requires r == MapRange(m, t, from, n, u, prot)
    ensures Counted(r) && Mapped(m, r, t, from, n, u, prot)
    decreases n
  {
    if n > 0 {
      var o := MapRange(m, t, from, n - 1, u, prot);
      MapRangeIs(m, t, from, n - 1, u, prot, o);
      MapRangeMore(m, t, from, n - 1, u, prot, o, r);
    }
  }

  // ---------------------------------------------------------------- mapping over what was mapped

  /** Every entry of t that was valid is as it was. */
  predicate Kept<K>(m: Mem<K>, r: Mem<K>, t: K) {
    && t in m.maps && t in r.maps && |r.maps[t]| == |m.maps[t]|
    && forall i :: 0 <= i < |m.maps[t]| && m.maps[t][i].valid ==> r.maps[t][i] == m.maps[t][i]
  }

  /** A frame that is taken although no table names it. */
  ghost predicate Leaked<K>(m: Mem<K>, f: nat) { f < |m.usage| && m.usage[f] != Free && Unnamed(m, f) }

  lemma MappedLeaks<K>(m: Mem<K>, r: Mem<K>, t: K, from: nat, n: nat, u: Usage, prot: nat, i: nat)
    requires Sound(m) && Mapped(m, r, t, from, n, u, prot) && from <= i < from + n && Owns(m, t, i)
    ensures Leaked(r, m.maps[t][i].pfn)
  {
    var f := m.maps[t][i].pfn;
    MarksAt(m.usage, r.maps[t], from, n, u, f);
    forall v, j | v in r.maps && Owns(r, v, j) ensures r.maps[v][j].pfn != f {
      if v != t || !(from <= j < from + n) {
        assert r.maps[v][j] == m.maps[v][j];
        assert Owns(m, v, j);
      }
    }
  }

  /** Mapping over a page that is mapped takes its frame out of the table and leaks it. */
  lemma MapRangeLeaks<K>(m: Mem<K>, t: K, from: nat, n: nat, u: Usage, prot: nat, i: nat, r: Mem<K>)
    requires Sound(m) && t in m.maps && from + n <= |m.maps[t]| && n <= m.free && u != Free
    requires from <= i < from + n && Owns(m, t, i) && r == MapRange(m, t, from, n, u, prot)
    ensures Leaked(r, m.maps[t][i].pfn)
  {
    MapRangeIs(m, t, from, n, u, prot, r);
    MappedLeaks(m, r, t, from, n, u, prot, i);
  }

  /** What was mapped stays exactly when none of the range was. */
  lemma MapRangeKeepsIff<K>(m: Mem<K>, t: K, from: nat, n: nat, u: Usage, prot: nat, r: Mem<K>)
    requires Sound(m) && t in m.maps && from + n <= |m.maps[t]| && n <= m.free && u != Free
    requires t == m.zero ==> from + n <= KSTACK_START
    requires r == MapRange(m, t, from, n, u, prot)
    ensures Kept(m, r, t) <==> forall i :: from <= i < from + n ==> !m.maps[t][i].valid
  {
    MapRangeIs(m, t, from, n, u, prot, r);
    if i :| from <= i < from + n && m.maps[t][i].valid {
      assert Owns(m, t, i);
      assert r.maps[t][i] != m.maps[t][i];
    }
  }

  // ---------------------------------------------------------------- dropping a range

  /** The range is unmapped and exactly its frames are free again. */
  ghost predicate Dropped<K>(m: Mem<K>, r: Mem<K>, t: K, from: nat, n: nat) {
    && Apart(m, r, t, from, n) && from + n <= |m.maps[t]|
    && (forall i :: from <= i < from + n ==> r.maps[t][i] == m.maps[t][i].(valid := false))
    && r.usage == Marks(m.usage, m.maps[t], from, n, Free)
    && r.free == m.free + Count(m.maps[t], IsValid, from, n)
  }

  lemma DropNextSound<K>(m: Mem<K>, t: K, i: nat)
    requires Sound(m) && t in m.maps && t != m.zero && i < |m.maps[t]|
    ensures Sound(DropNext(m, t, i))
    ensures m.maps[t][i].valid ==> m.maps[t][i].pfn < |m.usage|
  {
    var e := m.maps[t][i];
    if e.valid {
      assert Owns(m, t, i);
      DropSound(m, t, i, e.(valid := false));
      ReleaseSound(Put(m, t, i, e.(valid := false)), e.pfn);
    }
  }

  lemma DroppedMore<K>(m: Mem<K>, o: Mem<K>, t: K, from: nat, n: nat, r: Mem<K>)
    requires Dropped(m, o, t, from, n) && from + n < |m.maps[t]| && r == DropNext(o, t, from + n)
    requires m.maps[t][from + n].valid ==> m.maps[t][from + n].pfn < |m.usage|
    ensures Dropped(m, r, t, from, n + 1)
  {
    var e := o.maps[t][from + n];
    if !e.valid { assert o.maps[t][from + n := e] == o.maps[t]; }
    assert r.maps == Put(o, t, from + n, e.(valid := false)).maps;
    ApartMore(m, o, t, from, n, e.(valid := false), r);
  }

  lemma {:induction false} DropRangeSound<K>(m: Mem<K>, t: K, from: nat, n: nat)
    requires Sound(m) && t in m.maps && t != m.zero && from + n <= |m.maps[t]|
    ensures var r := DropRange(m, t, from, n); Sound(r) && t in r.maps && r.zero == m.zero
  {
    if n > 0 {
      DropRangeSound(m, t, from, n - 1);
      DropNextSound(DropRange(m, t, from, n - 1), t, from + (n - 1));
    }
  }

  lemma DropRangeUnroll<K>(m: Mem<K>, t: K, from: nat, n: nat, o: Mem<K>)
    requires t in m.maps && from + n < |m.maps[t]| && o == DropRange(m, t, from, n)
    ensures DropRange(m, t, from, n + 1) == DropNext(o, t, from + n)
  {
  }

  /** The frames behind a table's valid entries exist. */
  predicate Exist<K>(m: Mem<K>, t: K) {
    t in m.maps && forall i :: 0 <= i < |m.maps[t]| && m.maps[t][i].valid ==> m.maps[t][i].pfn < |m.usage|
  }

  lemma SoundExist<K>(m: Mem<K>, t: K)
    requires Sound(m) && t in m.maps && t != m.zero
    ensures Exist(m, t)
  {
    forall i | 0 <= i < |m.maps[t]| && m.maps[t][i].valid ensures m.maps[t][i].pfn < |m.usage| { assert Owns(m, t, i); }
  }

  lemma {:induction false} DropRangeIs<K>(m: Mem<K>, t: K, from: nat, n: nat, r: Mem<K>)
    requires Exist(m, t) && from + n <= |m.maps[t]| && r == DropRange(m, t, from, n)
    ensures Dropped(m, r, t, from, n)
    decreases n
  {
    if n > 0 {
      var o := DropRange(m, t, from, n - 1);
      DropRangeUnroll(m, t, from, n - 1, o);
      DropRangeIs(m, t, from, n - 1, o);
      DroppedMore(m, o, t, from, n - 1, r);
    }
  }

  // ---------------------------------------------------------------- growStack

  /** The stack base a process starts with, and keeps until LoadProgram or growStack sets it. */
  const USER_STACK_BASE := REGION_1_LIMIT

  function PageOf(addr: nat): nat
    requires REGION_1 <= addr
  {
    (addr / PAGESIZE * PAGESIZE - REGION_1) / PAGESIZE
  }

  /** The pages from a faulting address up to the stack base. */
  function Requested(addr: nat, base: nat): (n: nat)
    requires REGION_1 <= addr && REGION_1 <= base
    ensures addr < base <= REGION_1_LIMIT ==> PageOf(addr) + n <= PAGES
  {
    if PageOf(addr) < PageOf(base) then PageOf(base) - PageOf(addr) else 0
  }

  /** growStack for n pages from the page of the faulting address on; without frames enough it takes
      all there are and gives them back. */
  function GrowStack<K>(m: Mem<K>, t: K, from: nat, n: nat): Mem<K>
    requires t in m.maps && from + n <= |m.maps[t]|
  {
    if n <= m.free then MapRange(m, t, from, n, User, READ_WRITE)
    else DropRange(MapRange(m, t, from, m.free, User, READ_WRITE), t, from, m.free)
  }

  predicate SameValid(e: seq<Pte>, d: seq<Pte>) { |e| == |d| && forall i :: 0 <= i < |e| ==> e[i].valid == d[i].valid }

  lemma GrowStackGrows<K>(m: Mem<K>, t: K, from: nat, n: nat)
    requires Sound(m) && t in m.maps && from + n <= |m.maps[t]| && n <= m.free
    ensures Sound(GrowStack(m, t, from, n)) && Mapped(m, GrowStack(m, t, from, n), t, from, n, User, READ_WRITE)
  {
    var r := GrowStack(m, t, from, n);
    MapRangeSound(m, t, from, n, User, READ_WRITE, r);
    MapRangeIs(m, t, from, n, User, READ_WRITE, r);
  }

  /** All or nothing: out of frames, the frame table, the count and every other table are as before, and
      the valid bits of this one are exactly when none of the pages it tried was mapped. */
  lemma GrowStackGivesBack<K>(m: Mem<K>, t: K, from: nat, n: nat)
    requires Sound(m) && t in m.maps && t != m.zero && from + n <= |m.maps[t]| && n > m.free
    ensures var r := GrowStack(m, t, from, n);
            && Sound(r) && r.usage == m.usage && r.free == m.free && Apart(m, r, t, from, m.free)
            && (SameValid(m.maps[t], r.maps[t]) <==> forall i :: from <= i < from + m.free ==> !m.maps[t][i].valid)
  {
    var o := MapRange(m, t, from, m.free, User, READ_WRITE);
    var r := GrowStack(m, t, from, n);
    MapRangeSound(m, t, from, m.free, User, READ_WRITE, o);
    MapRangeIs(m, t, from, m.free, User, READ_WRITE, o);
    DropRangeSound(o, t, from, m.free);
    SoundExist(o, t);
    DropRangeIs(o, t, from, m.free, r);
    MarksUndo(m.usage, o.maps[t], from, m.free, User);
  }
}
