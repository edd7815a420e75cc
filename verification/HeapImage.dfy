/** How the block list lies in memory: a 24-byte header in front of every payload. */
module HeapImage {
  import opened Common
  import opened Words
  import opened HeapBlocks

  const MAGIC: nat := 0xfeed_dad
  const SIZE: nat := 4
  const USED: nat := 8
  const NEXT: nat := 12
  const PREV: nat := 16
  const MAGIC2: nat := 20

  datatype Fields = Fields(magic1: nat, size: nat, used: nat, next: nat, previous: nat, magic2: nat)

  function FieldsAt(m: seq<Byte>, a: nat): Fields
    requires a + HEADER <= |m|
  {
    Fields(Load(m, a), Load(m, a + SIZE), Load(m, a + USED), Load(m, a + NEXT), Load(m, a + PREV), Load(m, a + MAGIC2))
  }

  /** What the header of block i must hold: next and previous mirror each other. */
  function Expected(bs: seq<Block>, i: nat): Fields
    requires i < |bs|
  {
    Fields(MAGIC, bs[i].size, bs[i].used,
           if i + 1 < |bs| then bs[i + 1].addr else 0,
           if i > 0 then bs[i - 1].addr else 0, MAGIC)
  }

  predicate HeaderOk(m: seq<Byte>, bs: seq<Block>, i: nat)
    requires i < |bs|
  {
    bs[i].addr + HEADER <= |m| && FieldsAt(m, bs[i].addr) == Expected(bs, i)
  }

  predicate Image(m: seq<Byte>, bs: seq<Block>) {
    forall i :: 0 <= i < |bs| ==> HeaderOk(m, bs, i)
  }

  /** Bytes of live payloads are the same in m and r. */
  ghost predicate Untouched(m: seq<Byte>, r: seq<Byte>, live: seq<Block>) {
    |m| == |r| && forall b :: b in live ==> Agree(m, r, Payload(b), b.size)
  }

  lemma UntouchedChain(m: seq<Byte>, r: seq<Byte>, q: seq<Byte>, live: seq<Block>)
    requires Untouched(m, r, live) && Untouched(r, q, live)
    ensures Untouched(m, q, live)
  {
    forall b | b in live ensures Agree(m, q, Payload(b), b.size) {
      assert Agree(m, r, Payload(b), b.size) && Agree(r, q, Payload(b), b.size);
    }
  }

  function Field(f: Fields, off: nat, v: nat): Fields {
    if off == 0 then f.(magic1 := v) else if off == SIZE then f.(size := v) else if off == USED then f.(used := v)
    else if off == NEXT then f.(next := v) else if off == PREV then f.(previous := v)
    else if off == MAGIC2 then f.(magic2 := v) else f
  }

  predicate Offset(off: nat) { off in {0, SIZE, USED, NEXT, PREV, MAGIC2} }

  /** Writing one header field changes that field and no other header. */
  lemma StoreField(m: seq<Byte>, r: seq<Byte>, a: nat, off: nat, v: nat, b: nat)
    requires Offset(off) && Stored(m, r, a + off, v) && a + HEADER <= |m| && b + HEADER <= |m|
    requires a == b || a + HEADER <= b || b + HEADER <= a
    ensures FieldsAt(r, b) == if a == b then Field(FieldsAt(m, b), off, v) else FieldsAt(m, b)
  {
    if a + off != b { LoadBeside(m, r, a + off, v, b); }
    if a + off != b + SIZE { LoadBeside(m, r, a + off, v, b + SIZE); }
    if a + off != b + USED { LoadBeside(m, r, a + off, v, b + USED); }
    if a + off != b + NEXT { LoadBeside(m, r, a + off, v, b + NEXT); }
    if a + off != b + PREV { LoadBeside(m, r, a + off, v, b + PREV); }
    if a + off != b + MAGIC2 { LoadBeside(m, r, a + off, v, b + MAGIC2); }
  }

  /** A write inside a header, or inside a free block, touches no live payload. */
  lemma StoreUntouched(m: seq<Byte>, r: seq<Byte>, bs: seq<Block>, lo: nat, hi: nat, j: nat, a: nat, v: nat)
    requires Tiles(bs, lo, hi) && hi <= |m| && j < |bs| && Stored(m, r, a, v)
    requires bs[j].addr <= a && a + 4 <= if Free(bs[j]) then End(bs[j]) else Payload(bs[j])
    ensures Untouched(m, r, Live(bs))
  {
    forall b | b in Live(bs) ensures Agree(m, r, Payload(b), b.size) {
      LiveMember(bs, b);
      var i :| 0 <= i < |bs| && bs[i] == b;
      Bounds(bs, lo, hi, i);
      if i != j { PayloadsDisjoint(bs, lo, hi, i, j); }
    }
  }

  /** sanity_check finds nothing wrong with any block of a well-formed heap. */
  lemma SanityHolds(m: seq<Byte>, bs: seq<Block>, lo: nat, hi: nat, i: nat)
    requires Well(bs, lo, hi) && hi <= |m| && Image(m, bs) && i < |bs|
    ensures var a := bs[i].addr;
            && a + HEADER <= |m|
            && var f := FieldsAt(m, a);
               && lo <= a < hi && f.magic1 == MAGIC && f.magic2 == MAGIC && f.used <= f.size
               && (f.next != 0 ==> a + HEADER + f.size == f.next)
               && (f.next != 0 && i + 1 < |bs| ==> f.next + HEADER <= |m| && FieldsAt(m, f.next).previous == a)
  {
    Bounds(bs, lo, hi, i);
    assert HeaderOk(m, bs, i);
    if i + 1 < |bs| {
      assert HeaderOk(m, bs, i + 1);
      assert bs[i + 1].addr == End(bs[i]);
    }
  }

  // ---------------------------------------------------------------- the primitives in memory

  ghost predicate Laid(m: seq<Byte>, bs: seq<Block>, lo: nat, hi: nat) {
    Tiles(bs, lo, hi) && 0 < lo && hi <= |m| <= WORD_LIMIT && Image(m, bs)
  }

  /** Every header of bs lies inside memory. */
  predicate Inside(n: nat, bs: seq<Block>) { forall j :: 0 <= j < |bs| ==> bs[j].addr + HEADER <= n }

  lemma HeadersInside(bs: seq<Block>, lo: nat, hi: nat)
    requires Tiles(bs, lo, hi)
    ensures Inside(hi, bs)
  {
    forall j | 0 <= j < |bs| ensures bs[j].addr + HEADER <= hi { Bounds(bs, lo, hi, j); }
  }

  /** From m to r only field `off` of block i's header changed, among all headers of bs. */
  ghost predicate Wrote(m: seq<Byte>, r: seq<Byte>, bs: seq<Block>, i: nat, off: nat, v: nat) {
    && |m| == |r| && Inside(|m|, bs)
    && forall j :: 0 <= j < |bs| ==>
         FieldsAt(r, bs[j].addr) == if i == j then Field(FieldsAt(m, bs[j].addr), off, v) else FieldsAt(m, bs[j].addr)
  }

  lemma StoreWrote(m: seq<Byte>, r: seq<Byte>, bs: seq<Block>, lo: nat, hi: nat, i: nat, off: nat, v: nat)
    requires Tiles(bs, lo, hi) && hi <= |m| && i < |bs| && Offset(off) && Stored(m, r, bs[i].addr + off, v)
    ensures Wrote(m, r, bs, i, off, v) && Untouched(m, r, Live(bs))
  {
    HeadersInside(bs, lo, hi);
    forall j | 0 <= j < |bs|
      ensures FieldsAt(r, bs[j].addr) == if i == j then Field(FieldsAt(m, bs[j].addr), off, v)
              else FieldsAt(m, bs[j].addr)
    {
      if i != j { PayloadsDisjoint(bs, lo, hi, i, j); }
      StoreField(m, r, bs[i].addr, off, v, bs[j].addr);
    }
    StoreUntouched(m, r, bs, lo, hi, i, bs[i].addr + off, v);
  }

  lemma UsedHeader(m: seq<Byte>, r: seq<Byte>, bs: seq<Block>, i: nat, used: nat, j: nat)
    requires i < |bs| && j < |bs| && HeaderOk(m, bs, j) && Wrote(m, r, bs, i, USED, used)
    ensures HeaderOk(r, SetUsed(bs, i, used), j)
  {
    assert FieldsAt(r, bs[j].addr) == if i == j then Field(FieldsAt(m, bs[j].addr), USED, used)
           else FieldsAt(m, bs[j].addr);
  }

  lemma UsedImage(m: seq<Byte>, r: seq<Byte>, bs: seq<Block>, i: nat, used: nat)
    requires Image(m, bs) && i < |bs| && Wrote(m, r, bs, i, USED, used)
    ensures Image(r, SetUsed(bs, i, used))
  {
    var cs := SetUsed(bs, i, used);
    forall j | 0 <= j < |cs| ensures HeaderOk(r, cs, j) { UsedHeader(m, r, bs, i, used, j); }
  }

  function MergedSize(bs: seq<Block>, i: nat): nat
    requires i + 1 < |bs|
  {
    bs[i].size + bs[i + 1].size + HEADER
  }

  function Behind(bs: seq<Block>, i: nat): nat { if i + 2 < |bs| then bs[i + 2].addr else 0 }

  function Kept(i: nat, j: nat): nat { if j <= i then j else j + 1 }

  /** The field writes of a merge turn the old header of a kept block into its new one. */
  lemma MergeExpected(bs: seq<Block>, i: nat, j: nat)
    requires i + 1 < |bs| && j < |bs| - 1
    ensures var k := Kept(i, j);
            var f := Expected(bs, k);
            var f1 := if k == i then f.(size := MergedSize(bs, i), next := Behind(bs, i)) else f;
            Expected(MergeAt(bs, i), j) == if k == i + 2 then f1.(previous := bs[i].addr) else f1
    ensures MergeAt(bs, i)[j].addr == bs[Kept(i, j)].addr
  {
  }

  lemma MergeHeader(m: seq<Byte>, m1: seq<Byte>, m2: seq<Byte>, m3: seq<Byte>, bs: seq<Block>, i: nat, k: nat)
    requires i + 1 < |bs| && k < |bs| && HeaderOk(m, bs, k)
    requires Wrote(m, m1, bs, i, SIZE, MergedSize(bs, i)) && Wrote(m1, m2, bs, i, NEXT, Behind(bs, i))
    requires if i + 2 < |bs| then Wrote(m2, m3, bs, i + 2, PREV, bs[i].addr) else m3 == m2
    ensures var f := Expected(bs, k);
            var f1 := if k == i then f.(size := MergedSize(bs, i), next := Behind(bs, i)) else f;
            bs[k].addr + HEADER <= |m3|
            && FieldsAt(m3, bs[k].addr) == if k == i + 2 then f1.(previous := bs[i].addr) else f1
  {
    assert FieldsAt(m1, bs[k].addr) == if i == k then Field(FieldsAt(m, bs[k].addr), SIZE, MergedSize(bs, i))
           else FieldsAt(m, bs[k].addr);
    assert FieldsAt(m2, bs[k].addr) == if i == k then Field(FieldsAt(m1, bs[k].addr), NEXT, Behind(bs, i))
           else FieldsAt(m1, bs[k].addr);
  }

  /** Linking block i past block i + 1: its size and next, and the previous field behind. */
  lemma MergeImage(m: seq<Byte>, m1: seq<Byte>, m2: seq<Byte>, m3: seq<Byte>, bs: seq<Block>, i: nat)
    requires Image(m, bs) && i + 1 < |bs|
    requires Wrote(m, m1, bs, i, SIZE, MergedSize(bs, i)) && Wrote(m1, m2, bs, i, NEXT, Behind(bs, i))
    requires if i + 2 < |bs| then Wrote(m2, m3, bs, i + 2, PREV, bs[i].addr) else m3 == m2
    ensures Image(m3, MergeAt(bs, i))
  {
    var cs := MergeAt(bs, i);
    forall j | 0 <= j < |cs| ensures HeaderOk(m3, cs, j) {
      assert HeaderOk(m, bs, Kept(i, j));
      MergeExpected(bs, i, j);
      MergeHeader(m, m1, m2, m3, bs, i, Kept(i, j));
    }
  }

  // ---------------------------------------------------------------- writing a whole header

  /** r is m with a new header f at a. */
  predicate HeaderStored(m: seq<Byte>, r: seq<Byte>, a: nat, f: Fields) {
    && |r| == |m| && a + HEADER <= |m| && FieldsAt(r, a) == f
    && forall k :: 0 <= k < |m| && !(a <= k < a + HEADER) ==> r[k] == m[k]
  }

  lemma FieldsBeside(m: seq<Byte>, r: seq<Byte>, a: nat, f: Fields, b: nat)
    requires HeaderStored(m, r, a, f) && b + HEADER <= |m| && (a + HEADER <= b || b + HEADER <= a)
    ensures FieldsAt(r, b) == FieldsAt(m, b)
  {
  }

  ghost predicate Rewrote(m: seq<Byte>, r: seq<Byte>, bs: seq<Block>, i: nat, f: Fields) {
    && |m| == |r| && Inside(|m|, bs)
    && forall j :: 0 <= j < |bs| ==> FieldsAt(r, bs[j].addr) == if i == j then f else FieldsAt(m, bs[j].addr)
  }

  lemma HeaderRewrote(m: seq<Byte>, r: seq<Byte>, bs: seq<Block>, lo: nat, hi: nat, i: nat, f: Fields)
    requires Tiles(bs, lo, hi) && hi <= |m| && i < |bs| && HeaderStored(m, r, bs[i].addr, f)
    ensures Rewrote(m, r, bs, i, f) && Untouched(m, r, Live(bs))
  {
    HeadersInside(bs, lo, hi);
    forall j | 0 <= j < |bs| ensures FieldsAt(r, bs[j].addr) == if i == j then f else FieldsAt(m, bs[j].addr) {
      if i != j {
        PayloadsDisjoint(bs, lo, hi, i, j);
        FieldsBeside(m, r, bs[i].addr, f, bs[j].addr);
      }
    }
    HeaderUntouched(m, r, bs, lo, hi, i, f);
  }

  lemma HeaderUntouched(m: seq<Byte>, r: seq<Byte>, bs: seq<Block>, lo: nat, hi: nat, i: nat, f: Fields)
    requires Tiles(bs, lo, hi) && hi <= |m| && i < |bs| && HeaderStored(m, r, bs[i].addr, f)
    ensures Untouched(m, r, Live(bs))
  {
    forall b | b in Live(bs) ensures Agree(m, r, Payload(b), b.size) {
      LiveMember(bs, b);
      var j :| 0 <= j < |bs| && bs[j] == b;
      Bounds(bs, lo, hi, j);
      if i != j { PayloadsDisjoint(bs, lo, hi, i, j); }
    }
  }

  // ---------------------------------------------------------------- split and append in memory

  function SecondHalf(bs: seq<Block>, i: nat, n: nat): Fields
    requires i < |bs| && bs[i].size >= n + MINBLOCK
  {
    Fields(MAGIC, bs[i].size - n - HEADER, 0, if i + 1 < |bs| then bs[i + 1].addr else 0, bs[i].addr, MAGIC)
  }

  /** Which old block the j-th block after a split was; the second half was none. */
  function Was(i: nat, j: nat): nat
    requires j != i + 1
  {
    if j <= i then j else j - 1
  }

  lemma SplitExpected(bs: seq<Block>, cs: seq<Block>, i: nat, n: nat, j: nat)
    requires i < |bs| && Free(bs[i]) && bs[i].size >= n + MINBLOCK && j < |bs| + 1
    requires cs == bs[..i] + Halves(bs[i], n) + bs[i + 1..]
    ensures j == i + 1 ==> Expected(cs, j) == SecondHalf(bs, i, n)
    ensures j != i + 1 ==>
              && cs[j].addr == bs[Was(i, j)].addr
              && var f := Expected(bs, Was(i, j));
                 Expected(cs, j) == if j == i then f.(size := n, next := cs[i + 1].addr)
                                    else if j == i + 2 then f.(previous := cs[i + 1].addr) else f
  {
  }

  lemma SplitHeader(m: seq<Byte>, m1: seq<Byte>, m2: seq<Byte>, m3: seq<Byte>, m4: seq<Byte>,
                    cs: seq<Block>, i: nat, f: Fields, n: nat, j: nat)
    requires i + 1 < |cs| && j < |cs|
    requires Rewrote(m, m1, cs, i + 1, f) && Wrote(m1, m2, cs, i, SIZE, n) && Wrote(m2, m3, cs, i, NEXT, cs[i + 1].addr)
    requires if i + 2 < |cs| then Wrote(m3, m4, cs, i + 2, PREV, cs[i + 1].addr) else m4 == m3
    ensures cs[j].addr + HEADER <= |m4| && |m| == |m4|
    ensures var g := FieldsAt(m, cs[j].addr);
            FieldsAt(m4, cs[j].addr)
            == if j == i + 1 then f else if j == i then g.(size := n, next := cs[i + 1].addr)
               else if j == i + 2 then g.(previous := cs[i + 1].addr) else g
  {
    assert FieldsAt(m1, cs[j].addr) == if i + 1 == j then f else FieldsAt(m, cs[j].addr);
    assert FieldsAt(m2, cs[j].addr) == if i == j then Field(FieldsAt(m1, cs[j].addr), SIZE, n)
           else FieldsAt(m1, cs[j].addr);
    assert FieldsAt(m3, cs[j].addr)
        == if i == j then Field(FieldsAt(m2, cs[j].addr), NEXT, cs[i + 1].addr) else FieldsAt(m2, cs[j].addr);
  }

  lemma SplitImage(m: seq<Byte>, m1: seq<Byte>, m2: seq<Byte>, m3: seq<Byte>, m4: seq<Byte>,
                   bs: seq<Block>, cs: seq<Block>, i: nat, n: nat)
    requires Image(m, bs) && i < |bs| && Free(bs[i]) && bs[i].size >= n + MINBLOCK
    requires cs == bs[..i] + Halves(bs[i], n) + bs[i + 1..]
    requires Rewrote(m, m1, cs, i + 1, SecondHalf(bs, i, n)) && Wrote(m1, m2, cs, i, SIZE, n)
    requires Wrote(m2, m3, cs, i, NEXT, cs[i + 1].addr)
    requires if i + 2 < |cs| then Wrote(m3, m4, cs, i + 2, PREV, cs[i + 1].addr) else m4 == m3
    ensures Image(m4, cs)
  {
    forall j | 0 <= j < |cs| ensures HeaderOk(m4, cs, j) {
      SplitExpected(bs, cs, i, n, j);
      SplitHeader(m, m1, m2, m3, m4, cs, i, SecondHalf(bs, i, n), n, j);
      if j != i + 1 { assert HeaderOk(m, bs, Was(i, j)); }
    }
  }

  lemma AppendExpected(bs: seq<Block>, x: Block, j: nat)
    requires bs != [] && j <= |bs|
    ensures Expected(bs + [x], j)
            == if j == |bs| then Fields(MAGIC, x.size, x.used, 0, bs[|bs| - 1].addr, MAGIC)
               else if j == |bs| - 1 then Expected(bs, j).(next := x.addr) else Expected(bs, j)
  {
  }

  /** grow_heap's header, then last->next = bp and bp->previous = last. */
  lemma AppendImage(m: seq<Byte>, m1: seq<Byte>, m2: seq<Byte>, m3: seq<Byte>, bs: seq<Block>, x: Block)
    requires Image(m, bs) && bs != [] && x.used == 0
    requires Rewrote(m, m1, bs + [x], |bs|, Fields(MAGIC, x.size, 0, 0, 0, MAGIC))
    requires Wrote(m1, m2, bs + [x], |bs| - 1, NEXT, x.addr)
    requires Wrote(m2, m3, bs + [x], |bs|, PREV, bs[|bs| - 1].addr)
    ensures Image(m3, bs + [x])
  {
    var cs := bs + [x];
    forall j | 0 <= j < |cs| ensures HeaderOk(m3, cs, j) {
      AppendExpected(bs, x, j);
      AppendHeader(m, m1, m2, m3, bs, x, j);
      if j < |bs| { assert HeaderOk(m, bs, j); }
    }
  }

  lemma AppendHeader(m: seq<Byte>, m1: seq<Byte>, m2: seq<Byte>, m3: seq<Byte>, bs: seq<Block>, x: Block, j: nat)
    requires bs != [] && j <= |bs|
    requires Rewrote(m, m1, bs + [x], |bs|, Fields(MAGIC, x.size, 0, 0, 0, MAGIC))
    requires Wrote(m1, m2, bs + [x], |bs| - 1, NEXT, x.addr)
    requires Wrote(m2, m3, bs + [x], |bs|, PREV, bs[|bs| - 1].addr)
    ensures var a := (bs + [x])[j].addr;
            && a + HEADER <= |m3| && |m| == |m3|
            && FieldsAt(m3, a) == if j == |bs| then Fields(MAGIC, x.size, 0, 0, bs[|bs| - 1].addr, MAGIC)
                                  else if j == |bs| - 1 then FieldsAt(m, a).(next := x.addr) else FieldsAt(m, a)
  {
    var cs := bs + [x];
    assert FieldsAt(m1, cs[j].addr) == if |bs| == j then Fields(MAGIC, x.size, 0, 0, 0, MAGIC)
           else FieldsAt(m, cs[j].addr);
    assert FieldsAt(m2, cs[j].addr)
        == if |bs| - 1 == j then Field(FieldsAt(m1, cs[j].addr), NEXT, x.addr) else FieldsAt(m1, cs[j].addr);
  }

  // ---------------------------------------------------------------- payload bytes

  lemma UntouchedSubset(m: seq<Byte>, r: seq<Byte>, a: seq<Block>, b: seq<Block>)
    requires Untouched(m, r, a) && forall x :: x in b ==> x in a
    ensures Untouched(m, r, b)
  {
  }

  /** Only bytes of the payload of block i may differ. */
  predicate PayloadWritten(m: seq<Byte>, r: seq<Byte>, bs: seq<Block>, i: nat)
    requires i < |bs|
  {
    |m| == |r| && forall k :: 0 <= k < |m| && !(Payload(bs[i]) <= k < End(bs[i])) ==> r[k] == m[k]
  }

  /** Writing inside one payload disturbs no header and no other payload. */
  lemma PayloadWriteImage(m: seq<Byte>, r: seq<Byte>, bs: seq<Block>, lo: nat, hi: nat, i: nat)
    requires Laid(m, bs, lo, hi) && i < |bs| && PayloadWritten(m, r, bs, i)
    ensures Laid(r, bs, lo, hi)
    ensures forall j :: 0 <= j < |bs| && j != i ==> Agree(m, r, Payload(bs[j]), bs[j].size)
  {
    forall j | 0 <= j < |bs| ensures HeaderOk(r, bs, j) && (j != i ==> Agree(m, r, Payload(bs[j]), bs[j].size)) {
      assert HeaderOk(m, bs, j);
      if i != j { PayloadsDisjoint(bs, lo, hi, i, j); }
      SameFields(m, r, bs[j].addr);
    }
  }

  lemma SameFields(m: seq<Byte>, r: seq<Byte>, a: nat)
    requires |m| == |r| && a + HEADER <= |m| && forall k :: a <= k < a + HEADER ==> r[k] == m[k]
    ensures FieldsAt(r, a) == FieldsAt(m, a)
  {
  }
}
