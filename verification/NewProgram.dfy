/** The argument block of a new program, in the address space LoadProgram has built for it. */
module NewProgram {
  import opened Common
  import opened Frames
  import opened Paging
  import opened Regions
  import ArgBlock

  /** The page of region 1 that an address lies in. */
  function Page(a: nat): nat
    requires REGION_1 <= a
  {
    (a - REGION_1) / PAGESIZE
  }

  /** A store at that address goes through. */
  predicate Writable(e: seq<Pte>, a: nat) {
    REGION_1 <= a && Page(a) < |e| && e[Page(a)].valid && e[Page(a)].prot == READ_WRITE
  }

  /** The layout leaves room for the block of these arguments, as LoadProgram checks. */
  predicate Roomy(l: Layout, args: seq<ArgBlock.CString>) {
    Loadable(l) && l.stackPages == ArgBlock.StackPages(args) && ArgBlock.Fits(args, l.data + l.dataPages)
  }

  /** From the stack pointer on, addresses lie in the stack pages, and every stack page has such an address. */
  lemma BlockPages(l: Layout, args: seq<ArgBlock.CString>)
    requires Roomy(l, args)
    ensures var sp := ArgBlock.StackPointer(args);
            && REGION_1 <= sp < REGION_1_LIMIT && Page(sp) == PAGES - l.stackPages
            && (forall a :: sp <= a < REGION_1_LIMIT ==> InStack(l, Page(a)))
  {
    ArgBlock.Geometry(args, l.data + l.dataPages);
    var sp := ArgBlock.StackPointer(args);
    forall a | sp <= a < REGION_1_LIMIT ensures InStack(l, Page(a)) { PageBetween(a, sp, l.stackPages); }
    PageBetween(sp, sp, l.stackPages);
    assert sp - (REGION_1_LIMIT - l.stackPages * PAGESIZE) < PAGESIZE;
    PageFirst(sp, l.stackPages);
  }

  lemma PageBetween(a: nat, sp: nat, n: nat)
    requires n <= PAGES && REGION_1_LIMIT - n * PAGESIZE <= sp <= a < REGION_1_LIMIT
    ensures PAGES - n <= Page(a) < PAGES
  {
  }

  lemma PageFirst(sp: nat, n: nat)
    requires n <= PAGES && REGION_1_LIMIT - n * PAGESIZE <= sp < REGION_1_LIMIT - n * PAGESIZE + PAGESIZE
    requires n > 0
    ensures Page(sp) == PAGES - n
  {
  }

  /** The whole block can be written exactly when the text does not reach into the stack pages. */
  lemma BlockWritableIff(e: seq<Pte>, l: Layout, args: seq<ArgBlock.CString>)
    requires Roomy(l, args) && Laid(e, l)
    ensures (forall a :: ArgBlock.StackPointer(args) <= a < REGION_1_LIMIT ==> Writable(e, a))
            <==> forall v :: InStack(l, v) ==> !InText(l, v)
  {
    var sp := ArgBlock.StackPointer(args);
    BlockPages(l, args);
    if forall a :: sp <= a < REGION_1_LIMIT ==> Writable(e, a) {
      forall v | InStack(l, v) ensures !InText(l, v) {
        var a := if v == Page(sp) then sp else REGION_1 + v * PAGESIZE;
        PageStart(v);
        assert sp <= a by { if v != Page(sp) { PageAfter(sp, v); } }
        assert Writable(e, a) && Page(a) == v;
      }
    }
  }

  lemma PageStart(v: nat)
    requires v < PAGES
    ensures REGION_1 + v * PAGESIZE < REGION_1_LIMIT && Page(REGION_1 + v * PAGESIZE) == v
  {
  }

  lemma PageAfter(sp: nat, v: nat)
    requires REGION_1 <= sp && Page(sp) < v
    ensures sp <= REGION_1 + v * PAGESIZE
  {
  }

  // ---------------------------------------------------------------- the block through the table

  /** The stores of n bytes of the block, from offset `from` of the region on. */
  function BlockWrites<K>(t: K, block: seq<Byte>, from: nat, n: nat): (ws: seq<Write<K>>)
    requires REGION_1 + from + n <= |block|
    ensures |ws| == n && forall i :: 0 <= i < n ==> ws[i].table == t
  {
    if n == 0 then []
    else BlockWrites(t, block, from, n - 1) + [Write(t, from + (n - 1), block[REGION_1 + from + (n - 1)])]
  }

  /** The place reads the byte stored there, or what it read before. */
  lemma {:induction false} BlockAlone<K>(x: Option<Byte>, zero: K, k: K, p: Place<K>, t: K, block: seq<Byte>,
                                         from: nat, n: nat)
    requires REGION_1 + from + n <= |block| && t != zero && x.Some?
    ensures Alone(x, zero, k, p, BlockWrites(t, block, from, n))
            == if p.table == t && from <= p.addr < from + n then Some(block[REGION_1 + p.addr]) else x
  {
    if n > 0 {
      var ws := BlockWrites(t, block, from, n);
      assert ws[..|ws| - 1] == BlockWrites(t, block, from, n - 1);
      BlockAlone(x, zero, k, p, t, block, from, n - 1);
    }
  }

  /** Region 1 of the new program has a byte at every address of a mapped page. */
  lemma LaidReads<K>(r: Mem<K>, t: K, a: nat)
    requires Sound(r) && Table(r, t) && t != r.zero && REGION_1 <= a && Page(a) < PAGES && r.maps[t][Page(a)].valid
    requires forall f :: 0 <= f < |r.pages| ==> |r.pages[f]| == PAGESIZE
    ensures ReadAt(r.pages, r.maps[t], a - REGION_1).Some?
  {
    assert Owns(r, t, Page(a));
  }

  /** Every mapped place outside reads as before, and the block's own places read the block. */
  ghost predicate Landed<K>(r: Mem<K>, q: Mem<K>, t: K, block: seq<Byte>, from: nat, n: nat, p: Place<K>)
    requires REGION_1 + from + n <= |block| && p.table in r.maps
  {
    var x := ReadAt(r.pages, r.maps[p.table], p.addr);
    ReadAt(q.pages, r.maps[p.table], p.addr)
    == if p.table == t && from <= p.addr < from + n && x.Some? then Some(block[REGION_1 + p.addr]) else x
  }

  lemma WritesLand<K>(r: Mem<K>, t: K, block: seq<Byte>, from: nat, n: nat, p: Place<K>, ws: seq<Write<K>>)
    requires Sound(r) && t in r.maps && t != r.zero && p.table in r.maps && p.table != r.zero
    requires REGION_1 + from + n <= |block| && ws == BlockWrites(t, block, from, n)
    ensures Landed(r, WriteAll(r, ws), t, block, from, n, p)
  {
    var x := ReadAt(r.pages, r.maps[p.table], p.addr);
    WritesStayApart(r, t, ws, p);
    AloneNone(x, r.zero, t, p, ws);
    if x.Some? { BlockAlone(x, r.zero, t, p, t, block, from, n); }
  }

  /** Once LoadProgram has rebuilt the region and stored the block byte by byte, the new program reads it at every
      address from the stack pointer to the end of the region, and every other place of every page table reads as
      before. */
  lemma {:induction false} BlockLands<K>(m: Mem<K>, t: K, l: Layout, args: seq<ArgBlock.CString>, block: seq<Byte>,
                                         r: Mem<K>,
                                         p: Place<K>, from: nat, n: nat, ws: seq<Write<K>>)
    requires Sound(m) && Table(m, t) && t != m.zero && Roomy(l, args) && r == Rebuild(m, t, l)
    requires l.textPages + l.dataPages + l.stackPages <= m.free + Count(m.maps[t], IsValid, 0, PAGES)
    requires (forall f :: 0 <= f < |m.pages| ==> |m.pages[f]| == PAGESIZE) && |block| == REGION_1_LIMIT
    requires REGION_1 + from == ArgBlock.StackPointer(args) && REGION_1 + from + n == REGION_1_LIMIT
    requires ws == BlockWrites(t, block, from, n) && p.table in m.maps && p.table != m.zero
    ensures Sound(r) && p.table in r.maps && t in r.maps && r.zero == m.zero
    ensures Landed(r, WriteAll(r, ws), t, block, from, n, p)
    ensures p.table == t && from <= p.addr < from + n ==> ReadAt(r.pages, r.maps[t], p.addr).Some?
  {
    RebuildLaid(m, t, l, r);
    WritesLand(r, t, block, from, n, p, ws);
    if p.table == t && from <= p.addr < from + n {
      BlockPages(l, args);
      LaidReads(r, t, p.addr + REGION_1);
    }
  }
}
