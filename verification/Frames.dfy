/** Physical frames and page tables: src/mem.c, the page-table parts of src/kernel.c, and growStack. */
module Frames {
  import opened Common

  const PAGESIZE := 0x2000
  const REGION_1 := 0x100000 // VMEM_1_BASE
  const REGION_1_LIMIT := 0x200000
  const PAGES := 128 // MAX_PT_LEN
  const KSTACK_START := 126
  const KSTACK_PAGES := 2
  const SCRATCH_DST := 125
  const SCRATCH_SRC := 124
  const PROT_READ := 1
  const PROT_WRITE := 2
  const PROT_EXEC := 4
  const NO_FRAME := 0xFFFFFF // what -1 becomes in the 24-bit pfn field

  datatype Usage = Free | Kernel | User

  datatype Pte = Pte(valid: bool, prot: nat, pfn: nat)

  const READ_WRITE := PROT_READ + PROT_WRITE

  function Unmapped(prot: nat, pfn: nat): Pte { Pte(false, prot, pfn) }

  predicate IsFree(u: Usage) { u == Free }

  predicate IsValid(e: Pte) { e.valid }

  // ---------------------------------------------------------------- counting

  /** How many of the n elements from `from` on satisfy p. */
  function Count<T>(s: seq<T>, p: T -> bool, from: nat, n: nat): nat
    requires from + n <= |s|
  {
    if n == 0 then 0 else Count(s, p, from, n - 1) + if p(s[from + (n - 1)]) then 1 else 0
  }

  function FreeFrames(us: seq<Usage>): nat { Count(us, IsFree, 0, |us|) }

  lemma {:induction false} CountUpdate<T>(s: seq<T>, p: T -> bool, n: nat, i: nat, x: T)
    requires i < |s| && n <= |s|
    ensures Count(s[i := x], p, 0, n)
            == Count(s, p, 0, n) + if i < n then (if p(x) then 1 else 0) - (if p(s[i]) then 1 else 0) else 0
  {
    if n > 0 { CountUpdate(s, p, n - 1, i, x); }
  }

  lemma {:induction false} CountNone<T>(s: seq<T>, p: T -> bool, n: nat)
    requires n <= |s|
    ensures Count(s, p, 0, n) == 0 <==> forall i :: 0 <= i < n ==> !p(s[i])
  {
    if n > 0 { CountNone(s, p, n - 1); }
  }

  // ---------------------------------------------------------------- the kernel's memory

  /** All page tables, keyed by their addresses, among them region 0 and the kernel stacks. */
  datatype Mem<K> = Mem(usage: seq<Usage>, free: nat, pages: seq<seq<Byte>>, zero: K, maps: map<K, seq<Pte>>, brk: nat)

  /** t is the address of a page table of MAX_PT_LEN entries. */
  predicate Table<K>(m: Mem<K>, t: K) { t in m.maps && |m.maps[t]| == PAGES }

  /** Nothing but the contents of tables, frames and counters changed. */
  predicate SameShape<K>(m: Mem<K>, r: Mem<K>) {
    && r.zero == m.zero && r.maps.Keys == m.maps.Keys && |r.usage| == |m.usage| && |r.pages| == |m.pages|
    && forall t :: t in m.maps ==> |r.maps[t]| == |m.maps[t]|
  }

  /** Entry i of t is valid, and is not in region 0's window on the current kernel stack. */
  predicate Owns<K(==)>(m: Mem<K>, t: K, i: int) {
    t in m.maps && 0 <= i < |m.maps[t]| && m.maps[t][i].valid && !(t == m.zero && KSTACK_START <= i)
  }

  /** Region 0 shows the kernel stack k in its top pages. */
  predicate Shows<K>(m: Mem<K>, k: K) {
    Table(m, m.zero) && k in m.maps && |m.maps[k]| == KSTACK_PAGES && m.maps[m.zero][KSTACK_START..] == m.maps[k]
  }

  ghost predicate Unnamed<K>(m: Mem<K>, f: nat) {
    forall t, i :: t in m.maps && Owns(m, t, i) ==> m.maps[t][i].pfn != f
  }

  /** Every valid entry names an allocated frame. */
  ghost predicate Backed<K>(m: Mem<K>) {
    forall t, i :: t in m.maps && Owns(m, t, i) ==> m.maps[t][i].pfn < |m.usage| && m.usage[m.maps[t][i].pfn] != Free
  }

  /** No frame is named twice. */
  ghost predicate Once<K>(m: Mem<K>) {
    forall t, u, i, j :: t in m.maps && u in m.maps && Owns(m, t, i) && Owns(m, u, j) ==>
      m.maps[t][i].pfn == m.maps[u][j].pfn ==> t == u && i == j
  }

  predicate Counted<K>(m: Mem<K>) { m.free == FreeFrames(m.usage) }

  ghost predicate Sound<K>(m: Mem<K>) {
    Table(m, m.zero) && |m.pages| == |m.usage| < NO_FRAME && Counted(m) && Backed(m) && Once(m)
  }

  // ---------------------------------------------------------------- the primitives

  function FirstFreeFrom(us: seq<Usage>, i: nat): (f: nat)
    requires i <= |us|
    ensures i <= f <= |us|
    decreases |us| - i
  {
    if i == |us| || us[i] == Free then i else FirstFreeFrom(us, i + 1)
  }

  /** The lowest free frame, or the number of frames. */
  function FirstFree(us: seq<Usage>): nat { FirstFreeFrom(us, 0) }

  lemma {:induction false} FirstFreeFromIs(us: seq<Usage>, i: nat, f: nat)
    requires i <= f <= |us| && (f < |us| ==> us[f] == Free) && forall g :: i <= g < f ==> us[g] != Free
    ensures FirstFreeFrom(us, i) == f
    decreases f - i
  {
    if i < f { FirstFreeFromIs(us, i + 1, f); }
  }

  lemma {:induction false} FirstFreeFromFree(us: seq<Usage>, i: nat)
    requires i <= |us|
    ensures var f := FirstFreeFrom(us, i); (f < |us| ==> us[f] == Free) && forall g :: i <= g < f ==> us[g] != Free
    decreases |us| - i
  {
    if i < |us| && us[i] != Free { FirstFreeFromFree(us, i + 1); }
  }

  /** A frame can be had exactly when the count is not zero, and it is a free one. */
  lemma FirstFreeSome(us: seq<Usage>)
    ensures FirstFree(us) < |us| <==> FreeFrames(us) > 0
    ensures FirstFree(us) < |us| ==> us[FirstFree(us)] == Free
  {
    FirstFreeFromFree(us, 0);
    CountNone(us, IsFree, |us|);
  }

  /** Hand out frame f. */
  function Take<K>(m: Mem<K>, f: nat, u: Usage): Mem<K>
    requires f < |m.usage|
  {
    m.(usage := m.usage[f := u], free := if m.free > 0 then m.free - 1 else 0)
  }

  function Release<K>(m: Mem<K>, f: nat): Mem<K>
    requires f < |m.usage|
  {
    m.(usage := m.usage[f := Free], free := m.free + 1)
  }

  function Put<K>(m: Mem<K>, t: K, i: nat, e: Pte): Mem<K>
    requires t in m.maps && i < |m.maps[t]|
  {
    m.(maps := m.maps[t := m.maps[t][i := e]])
  }

  /** CloneFrame: the page is copied and both scratch pages end up unmapped, whatever they held before. */
  function Clone<K>(m: Mem<K>, src: nat, dst: nat): Mem<K>
    requires Table(m, m.zero) && src < |m.pages| && dst < |m.pages|
  {
    var n := Put(Put(m, m.zero, SCRATCH_SRC, Unmapped(PROT_READ, src)), m.zero, SCRATCH_DST, Unmapped(READ_WRITE, dst));
    n.(pages := m.pages[dst := m.pages[src]])
  }

  lemma TakeSound<K>(m: Mem<K>, f: nat, u: Usage)
    requires Sound(m) && f < |m.usage| && m.usage[f] == Free && u != Free
    ensures Sound(Take(m, f, u)) && Unnamed(Take(m, f, u), f) && m.free > 0
  {
    CountUpdate(m.usage, IsFree, |m.usage|, f, u);
    CountNone(m.usage, IsFree, |m.usage|);
    var r := Take(m, f, u);
    forall t, i | t in r.maps && Owns(r, t, i)
      ensures r.maps[t][i].pfn < |r.usage| && r.usage[r.maps[t][i].pfn] != Free && r.maps[t][i].pfn != f {
      assert Owns(m, t, i);
    }
    forall t, v, i, j | t in r.maps && v in r.maps && Owns(r, t, i) && Owns(r, v, j)
           && r.maps[t][i].pfn == r.maps[v][j].pfn
      ensures t == v && i == j
    {
      assert Owns(m, t, i) && Owns(m, v, j);
    }
  }

  lemma MapSound<K>(m: Mem<K>, t: K, i: nat, e: Pte)
    requires Sound(m) && t in m.maps && i < |m.maps[t]| && e.valid
    requires e.pfn < |m.usage| && m.usage[e.pfn] != Free && Unnamed(m, e.pfn)
    ensures Sound(Put(m, t, i, e))
  {
    var r := Put(m, t, i, e);
    MapOwns(m, t, i, e);
    assert Backed(r);
    forall v, u, j, l | v in r.maps && u in r.maps && Owns(r, v, j) && Owns(r, u, l)
                        && r.maps[v][j].pfn == r.maps[u][l].pfn
      ensures v == u && j == l
    {
      assert (v == t && j == i) || Owns(m, v, j);
      assert (u == t && l == i) || Owns(m, u, l);
    }
  }

  lemma MapOwns<K>(m: Mem<K>, t: K, i: nat, e: Pte)
    requires t in m.maps && i < |m.maps[t]|
    ensures var r := Put(m, t, i, e);
            forall v, j :: v in r.maps && Owns(r, v, j) && !(v == t && j == i) ==>
              Owns(m, v, j) && r.maps[v][j] == m.maps[v][j]
  {
  }

  /** r maps no more than m does. */
  ghost predicate Fewer<K>(m: Mem<K>, r: Mem<K>) {
    forall t, i :: t in r.maps && Owns(r, t, i) ==> Owns(m, t, i) && r.maps[t][i] == m.maps[t][i]
  }

  lemma FewerSound<K>(m: Mem<K>, r: Mem<K>)
    requires Sound(m) && Fewer(m, r) && SameShape(m, r) && r.usage == m.usage && r.free == m.free
    ensures Sound(r)
  {
  }

  lemma FewerUnnamed<K>(m: Mem<K>, r: Mem<K>, f: nat)
    requires Unnamed(m, f) && Fewer(m, r)
    ensures Unnamed(r, f)
  {
  }

  /** Taking an entry out leaves its frame unnamed, so that it may be freed. */
  lemma DropSound<K>(m: Mem<K>, t: K, i: nat, e: Pte)
    requires Sound(m) && t in m.maps && i < |m.maps[t]| && !e.valid
    ensures var r := Put(m, t, i, e);
            && Sound(r) && Fewer(m, r)
            && (Owns(m, t, i) ==>
                  && m.maps[t][i].pfn < |m.usage| && m.usage[m.maps[t][i].pfn] != Free
                  && Unnamed(r, m.maps[t][i].pfn))
  {
    var r := Put(m, t, i, e);
    forall v, j | v in r.maps && Owns(r, v, j)
      ensures Owns(m, v, j) && r.maps[v][j] == m.maps[v][j] && !(v == t && j == i) {}
    FewerSound(m, r);
  }

  lemma ReleaseSound<K>(m: Mem<K>, f: nat)
    requires Sound(m) && f < |m.usage| && Unnamed(m, f)
    ensures Sound(Release(m, f)) <==> m.usage[f] != Free
  {
    CountUpdate(m.usage, IsFree, |m.usage|, f, Free);
    var r := Release(m, f);
    forall t, i | t in r.maps && Owns(r, t, i) ensures Owns(m, t, i) {}
  }

  lemma CloneSound<K>(m: Mem<K>, src: nat, dst: nat)
    requires Sound(m) && src < |m.pages| && dst < |m.pages|
    ensures var r := Clone(m, src, dst); Sound(r) && SameShape(m, r) && Fewer(m, r)
  {
    var r := Clone(m, src, dst);
    forall t, i | t in r.maps && Owns(r, t, i) ensures Owns(m, t, i) && r.maps[t][i] == m.maps[t][i] {}
    FewerSound(m, r);
  }
}
