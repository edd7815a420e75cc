/**
 The heap as a list of blocks: what malloc, free and realloc do to it, and what every
 sequence of calls keeps.
 */
module HeapBlocks {
  import opened Common

  // ---------------------------------------------------------------- blocks

  const HEADER: nat := 24              // sizeof(mblock_t)
  const MINBLOCK: nat := 48
  const INT_LIMIT: nat := 0x8000_0000

  /** A block header's address, the bytes it holds, and how many are in use; free when 0. */
  datatype Block = Block(addr: nat, size: nat, used: nat)

  function Payload(b: Block): nat { b.addr + HEADER }
  function End(b: Block): nat { b.addr + HEADER + b.size }
  predicate Free(b: Block) { b.used == 0 }

  /** WORDROUND. */
  function Round(n: nat): (r: nat)
    ensures n <= r < n + 4 && r % 4 == 0
  {
    (n + 3) / 4 * 4
  }

  /** The blocks follow one another without gap or overlap from lo to hi. */
  predicate Tiles(bs: seq<Block>, lo: nat, hi: nat) {
    && bs != [] && bs[0].addr == lo && End(bs[|bs| - 1]) == hi
    && (forall i :: 0 <= i < |bs| - 1 ==> bs[i + 1].addr == End(bs[i]))
  }

  predicate Fits(bs: seq<Block>) { forall i :: 0 <= i < |bs| ==> bs[i].used <= bs[i].size }

  predicate Coalesced(bs: seq<Block>) {
    forall i :: 0 <= i < |bs| - 1 ==> !(Free(bs[i]) && Free(bs[i + 1]))
  }

  /** The allocated blocks, in address order. */
  function Live(bs: seq<Block>): seq<Block> {
    if bs == [] then [] else (if Free(bs[0]) then [] else [bs[0]]) + Live(bs[1..])
  }

  lemma {:induction false} LiveAppend(a: seq<Block>, b: seq<Block>)
    ensures Live(a + b) == Live(a) + Live(b)
  {
    if a == [] {
      assert a + b == b;
    } else {
      assert (a + b)[1..] == a[1..] + b;
      LiveAppend(a[1..], b);
    }
  }

  lemma LiveThree(a: seq<Block>, b: seq<Block>, c: seq<Block>)
    ensures Live(a + b + c) == Live(a) + Live(b) + Live(c)
  {
    LiveAppend(a + b, c);
    LiveAppend(a, b);
  }

  lemma LiveOne(b: Block)
    ensures Live([b]) == if Free(b) then [] else [b]
  {
    assert [b][1..] == [];
  }

  lemma LiveTwoFree(b: Block, c: Block)
    requires Free(b) && Free(c)
    ensures Live([b, c]) == []
  {
    LiveAppend([b], [c]);
    LiveOne(b);
    LiveOne(c);
    assert [b] + [c] == [b, c];
  }

  lemma LiveReplace(a: seq<Block>, m: seq<Block>, n: seq<Block>, c: seq<Block>)
    requires Live(m) == Live(n)
    ensures Live(a + m + c) == Live(a + n + c)
  {
    LiveThree(a, m, c);
    LiveThree(a, n, c);
  }

  lemma Around(bs: seq<Block>, i: nat)
    requires i < |bs|
    ensures bs == bs[..i] + [bs[i]] + bs[i + 1..]
  {
  }

  lemma {:induction false} LiveMember(bs: seq<Block>, b: Block)
    ensures b in Live(bs) <==> b in bs && !Free(b)
  {
    if bs != [] {
      assert bs == [bs[0]] + bs[1..];
      LiveMember(bs[1..], b);
    }
  }

  lemma {:induction false} Ordered(bs: seq<Block>, lo: nat, hi: nat, i: nat, j: nat)
    requires Tiles(bs, lo, hi) && i < j < |bs|
    ensures End(bs[i]) <= bs[j].addr
    decreases j
  {
    if i + 1 < j {
      Ordered(bs, lo, hi, i, j - 1);
      assert bs[j - 1 + 1].addr == End(bs[j - 1]);
    } else {
      assert bs[i + 1].addr == End(bs[i]);
    }
  }

  lemma {:induction false} Bounds(bs: seq<Block>, lo: nat, hi: nat, i: nat)
    requires Tiles(bs, lo, hi) && i < |bs|
    ensures lo <= bs[i].addr && End(bs[i]) <= hi
  {
    if i > 0 { Ordered(bs, lo, hi, 0, i); }
    if i < |bs| - 1 { Ordered(bs, lo, hi, i, |bs| - 1); }
  }

  /** Distinct blocks have disjoint payloads, and no payload overlaps a header. */
  lemma PayloadsDisjoint(bs: seq<Block>, lo: nat, hi: nat, i: nat, j: nat)
    requires Tiles(bs, lo, hi) && i < |bs| && j < |bs| && i != j
    ensures End(bs[i]) <= bs[j].addr || End(bs[j]) <= bs[i].addr
  {
    if i < j { Ordered(bs, lo, hi, i, j); } else { Ordered(bs, lo, hi, j, i); }
  }

  // ---------------------------------------------------------------- one canonical form

  lemma TilesTail(bs: seq<Block>, lo: nat, hi: nat)
    requires Tiles(bs, lo, hi) && |bs| > 1
    ensures Tiles(bs[1..], End(bs[0]), hi)
  {
    forall i | 0 <= i < |bs[1..]| - 1 ensures bs[1..][i + 1].addr == End(bs[1..][i]) {
      assert bs[i + 1 + 1].addr == End(bs[i + 1]);
    }
    assert bs[0 + 1].addr == End(bs[0]);
  }

  lemma CoalescedTail(bs: seq<Block>)
    requires Coalesced(bs) && bs != []
    ensures Coalesced(bs[1..])
  {
    forall i | 0 <= i < |bs[1..]| - 1 ensures !(Free(bs[1..][i]) && Free(bs[1..][i + 1])) {
      assert !(Free(bs[i + 1]) && Free(bs[i + 1 + 1]));
    }
  }

  /** The first block tells whether the first address belongs to a live block. */
  lemma LiveFirst(bs: seq<Block>, lo: nat, hi: nat)
    requires Tiles(bs, lo, hi)
    ensures Free(bs[0]) ==> Live(bs) == Live(bs[1..]) && (Live(bs) != [] ==> Live(bs)[0].addr >= End(bs[0]))
    ensures !Free(bs[0]) ==> Live(bs) != [] && Live(bs)[0] == bs[0]
  {
    if Free(bs[0]) {
      var live := Live(bs[1..]);
      assert Live(bs) == live;
      if live != [] {
        LiveMember(bs[1..], live[0]);
        var i :| 0 <= i < |bs[1..]| && bs[1..][i] == live[0];
        Ordered(bs, lo, hi, 0, i + 1);
      }
    }
  }

  /** A coalesced heap starts with a live block, or with a free block that runs up to the
      first live block or to the end. */
  lemma FreeRunEnds(bs: seq<Block>, lo: nat, hi: nat)
    requires Tiles(bs, lo, hi) && Coalesced(bs) && Free(bs[0])
    ensures End(bs[0]) == if Live(bs) == [] then hi else Live(bs)[0].addr
    ensures |bs| == 1 <==> Live(bs) == []
  {
    if |bs| > 1 {
      assert !(Free(bs[0]) && Free(bs[0 + 1]));
      assert bs[0 + 1].addr == End(bs[0]);
      assert Live(bs) == Live(bs[1..]);
      assert bs[1..] == [bs[1]] + bs[2..];
    }
  }

  /** The live blocks determine a coalesced heap completely: two tilings of the same range
      with the same live blocks are the same list. */
  lemma {:induction false} CanonicalForm(a: seq<Block>, b: seq<Block>, lo: nat, hi: nat)
    requires Tiles(a, lo, hi) && Tiles(b, lo, hi) && Coalesced(a) && Coalesced(b) && Live(a) == Live(b)
    ensures a == b
    decreases |a|
  {
    LiveFirst(a, lo, hi);
    LiveFirst(b, lo, hi);
    if Free(a[0]) { FreeRunEnds(a, lo, hi); }
    if Free(b[0]) { FreeRunEnds(b, lo, hi); }
    assert a[0] == b[0];
    assert a == [a[0]] + a[1..] && b == [b[0]] + b[1..];
    assert Live(a[1..]) == Live(b[1..]) by {
      if !Free(a[0]) {
        assert Live(a)[1..] == Live(a[1..]) && Live(b)[1..] == Live(b[1..]);
      }
    }
    if |a| > 1 && |b| > 1 {
      TilesTail(a, lo, hi);
      TilesTail(b, lo, hi);
      CoalescedTail(a);
      CoalescedTail(b);
      CanonicalForm(a[1..], b[1..], End(a[0]), hi);
    } else if |a| > 1 {
      TilesTail(a, lo, hi);
      Bounds(a[1..], End(a[0]), hi, 0);
    } else if |b| > 1 {
      TilesTail(b, lo, hi);
      Bounds(b[1..], End(b[0]), hi, 0);
    }
  }

  // ---------------------------------------------------------------- the primitives

  predicate Well(bs: seq<Block>, lo: nat, hi: nat) { Tiles(bs, lo, hi) && Fits(bs) }

  /** merge_free_pair on blocks i and i + 1. */
  function MergeAt(bs: seq<Block>, i: nat): seq<Block>
    requires i + 1 < |bs|
  {
    bs[..i] + [Block(bs[i].addr, bs[i].size + bs[i + 1].size + HEADER, bs[i].used)] + bs[i + 2..]
  }

  /** split_free_block on block i: only when what is left over is worth a block. */
  function SplitAt(bs: seq<Block>, i: nat, len: nat): seq<Block>
    requires i < |bs|
  {
    if !Free(bs[i]) || bs[i].size < Round(len) + MINBLOCK then bs
    else bs[..i] + Halves(bs[i], Round(len)) + bs[i + 1..]
  }

  function Halves(b: Block, n: nat): seq<Block>
    requires b.size >= n + MINBLOCK
  {
    [Block(b.addr, n, 0), Block(b.addr + HEADER + n, b.size - n - HEADER, 0)]
  }

  function SetUsed(bs: seq<Block>, i: nat, used: nat): seq<Block>
    requires i < |bs|
  {
    bs[i := bs[i].(used := used)]
  }

  lemma MergeWell(bs: seq<Block>, lo: nat, hi: nat, i: nat)
    requires Well(bs, lo, hi) && i + 1 < |bs|
    ensures Well(MergeAt(bs, i), lo, hi)
  {
    var cs := MergeAt(bs, i);
    assert bs[i + 1].addr == End(bs[i]);
    forall j | 0 <= j < |cs| - 1 ensures cs[j + 1].addr == End(cs[j]) {
      if j < i { assert bs[j + 1].addr == End(bs[j]); }
      else { assert bs[j + 1 + 1].addr == End(bs[j + 1]); }
    }
  }

  lemma MergeLive(bs: seq<Block>, i: nat)
    requires i + 1 < |bs| && Free(bs[i]) && Free(bs[i + 1])
    ensures Live(MergeAt(bs, i)) == Live(bs)
  {
    var m := Block(bs[i].addr, bs[i].size + bs[i + 1].size + HEADER, bs[i].used);
    LiveThree(bs[..i], [m], bs[i + 2..]);
    LiveThree(bs[..i], [bs[i], bs[i + 1]], bs[i + 2..]);
    LiveOne(m);
    LiveTwoFree(bs[i], bs[i + 1]);
    assert bs == bs[..i] + [bs[i], bs[i + 1]] + bs[i + 2..];
  }

  lemma SplitWell(bs: seq<Block>, lo: nat, hi: nat, i: nat, len: nat)
    requires Well(bs, lo, hi) && i < |bs|
    ensures Well(SplitAt(bs, i, len), lo, hi)
    ensures Free(bs[i]) && Round(len) <= bs[i].size ==>
              |SplitAt(bs, i, len)| > i && Free(SplitAt(bs, i, len)[i]) && SplitAt(bs, i, len)[i].addr == bs[i].addr
              && Round(len) <= SplitAt(bs, i, len)[i].size
  {
    var cs := SplitAt(bs, i, len);
    if cs != bs {
      forall j | 0 <= j < |cs| - 1 ensures cs[j + 1].addr == End(cs[j]) {
        if j < i { assert bs[j + 1].addr == End(bs[j]); }
        else if j > i { assert bs[j - 1 + 1].addr == End(bs[j - 1]); }
      }
    }
  }

  lemma HalvesLive(a: seq<Block>, b: Block, c: seq<Block>, n: nat)
    requires Free(b) && b.size >= n + MINBLOCK
    ensures Live(a + Halves(b, n) + c) == Live(a + [b] + c)
  {
    LiveTwoFree(Halves(b, n)[0], Halves(b, n)[1]);
    LiveOne(b);
    LiveReplace(a, [b], Halves(b, n), c);
  }

  lemma SplitLive(bs: seq<Block>, i: nat, len: nat)
    requires i < |bs|
    ensures Live(SplitAt(bs, i, len)) == Live(bs)
  {
    if Free(bs[i]) && bs[i].size >= Round(len) + MINBLOCK {
      HalvesLive(bs[..i], bs[i], bs[i + 1..], Round(len));
      Around(bs, i);
    }
  }

  lemma SetUsedWell(bs: seq<Block>, lo: nat, hi: nat, i: nat, used: nat)
    requires Well(bs, lo, hi) && i < |bs| && used <= bs[i].size
    ensures Well(SetUsed(bs, i, used), lo, hi)
  {
    var cs := SetUsed(bs, i, used);
    forall j | 0 <= j < |cs| - 1 ensures cs[j + 1].addr == End(cs[j]) { assert bs[j + 1].addr == End(bs[j]); }
  }

  lemma LiveAround(a: seq<Block>, b: Block, c: seq<Block>)
    ensures Live(a + [b] + c) == Live(a) + (if Free(b) then [] else [b]) + Live(c)
  {
    LiveThree(a, [b], c);
    LiveOne(b);
  }

  // ---------------------------------------------------------------- garbage_collect

  /** garbage_collect from the first block on. */
  function Coalesce(bs: seq<Block>): seq<Block>
    decreases |bs|
  {
    if |bs| < 2 then bs
    else if Free(bs[0]) && Free(bs[1]) then Coalesce(MergeAt(bs, 0))
    else [bs[0]] + Coalesce(bs[1..])
  }

  lemma {:induction false} CoalesceFirst(bs: seq<Block>)
    requires bs != []
    ensures Coalesce(bs) != [] && Coalesce(bs)[0].addr == bs[0].addr && Coalesce(bs)[0].used == bs[0].used
    decreases |bs|
  {
    if |bs| >= 2 && Free(bs[0]) && Free(bs[1]) { CoalesceFirst(MergeAt(bs, 0)); }
  }

  lemma {:induction false} CoalesceWell(bs: seq<Block>, lo: nat, hi: nat)
    requires Well(bs, lo, hi)
    ensures Well(Coalesce(bs), lo, hi) && Live(Coalesce(bs)) == Live(bs)
    decreases |bs|
  {
    if |bs| >= 2 {
      if Free(bs[0]) && Free(bs[1]) {
        MergeWell(bs, lo, hi, 0);
        MergeLive(bs, 0);
        CoalesceWell(MergeAt(bs, 0), lo, hi);
      } else {
        TilesTail(bs, lo, hi);
        CoalesceWell(bs[1..], End(bs[0]), hi);
        var cs := Coalesce(bs[1..]);
        ConsWell(bs[0], cs, lo, hi);
      }
    }
  }

  lemma ConsWell(b: Block, cs: seq<Block>, lo: nat, hi: nat)
    requires b.addr == lo && b.used <= b.size && Well(cs, End(b), hi)
    ensures Well([b] + cs, lo, hi) && Live([b] + cs) == (if Free(b) then [] else [b]) + Live(cs)
  {
    var ds := [b] + cs;
    assert ds[1..] == cs;
    forall j | 0 <= j < |ds| - 1 ensures ds[j + 1].addr == End(ds[j]) {
      if j > 0 { assert cs[j - 1 + 1].addr == End(cs[j - 1]); }
    }
  }

  lemma {:induction false} CoalesceCoalesced(bs: seq<Block>)
    ensures Coalesced(Coalesce(bs))
    decreases |bs|
  {
    if |bs| >= 2 {
      if Free(bs[0]) && Free(bs[1]) {
        CoalesceCoalesced(MergeAt(bs, 0));
      } else {
        CoalesceCoalesced(bs[1..]);
        CoalesceFirst(bs[1..]);
        var cs := Coalesce(bs[1..]);
        forall i | 0 <= i < |[bs[0]] + cs| - 1 ensures !(Free(([bs[0]] + cs)[i]) && Free(([bs[0]] + cs)[i + 1])) {
          if i > 0 { assert !(Free(cs[i - 1]) && Free(cs[i - 1 + 1])); }
        }
      }
    }
  }

  // ---------------------------------------------------------------- the calls

  datatype Heap = Heap(blocks: seq<Block>, lo: nat, hi: nat)
  datatype Answer = Answer(heap: Heap, ptr: nat)

  /** The first free block of at least n bytes, or the number of blocks. */
  function FirstFit(bs: seq<Block>, n: nat): (i: nat)
    ensures i <= |bs|
    ensures i < |bs| ==> Free(bs[i]) && n <= bs[i].size
  {
    if bs == [] || (Free(bs[0]) && n <= bs[0].size) then 0 else 1 + FirstFit(bs[1..], n)
  }

  /** It is the first: exactly the index before which nothing fits. */
  lemma {:induction false} FirstFitIs(bs: seq<Block>, n: nat, k: nat)
    requires k <= |bs|
    ensures k == FirstFit(bs, n) <==>
            (k < |bs| ==> Free(bs[k]) && n <= bs[k].size)
              && (forall j :: 0 <= j < k ==> !(Free(bs[j]) && n <= bs[j].size))
  {
    if bs != [] && k > 0 {
      FirstFitIs(bs[1..], n, k - 1);
      assert (forall j :: 0 <= j < k ==> !(Free(bs[j]) && n <= bs[j].size)) <==>
             !(Free(bs[0]) && n <= bs[0].size)
               && (forall j :: 0 <= j < k - 1 ==> !(Free(bs[1..][j]) && n <= bs[1..][j].size)) by {
        assert forall j :: 0 <= j < k - 1 ==> bs[1..][j] == bs[j + 1];
        assert forall j :: 1 <= j < k ==> bs[j] == bs[1..][j - 1];
      }
    }
  }

  function Request(len: nat): nat { Round(len + 4) }

  function TakeBlock(h: Heap, i: nat, n: nat): Answer
    requires i < |h.blocks| && Free(h.blocks[i])
  {
    Answer(h.(blocks := SetUsed(SplitAt(h.blocks, i, n), i, n)), Payload(h.blocks[i]))
  }

  /** The heap after grow_heap got `more` bytes of payload, linked and merged with the last block. */
  function Grow(h: Heap, more: nat): Heap
    requires h.blocks != []
  {
    var n := |h.blocks|;
    var bs := h.blocks + [Block(h.hi, more, 0)];
    Heap(if Free(h.blocks[n - 1]) then MergeAt(bs, n - 1) else bs, h.lo, h.hi + HEADER + more)
  }

  /** malloc.  `more` is the payload of the block grow_heap returned, None when it returned NULL. */
  function Malloc(h: Heap, len: nat, more: Option<nat>): Answer
    requires h.blocks != []
  {
    var n := Request(len);
    var i := FirstFit(h.blocks, n);
    if len >= INT_LIMIT then Answer(h, 0)
    else if i < |h.blocks| then TakeBlock(h, i, n)
    else if more.None? then Answer(h, 0)
    else
      var g := Grow(h, more.value);
      TakeBlock(g, |g.blocks| - 1, n)
  }

  /** The block whose payload holds addr, or the number of blocks. */
  function Holding(bs: seq<Block>, addr: nat): (i: nat)
    ensures i <= |bs|
    ensures i < |bs| ==> Payload(bs[i]) <= addr < End(bs[i])
  {
    if bs == [] || Payload(bs[0]) <= addr < End(bs[0]) then 0 else 1 + Holding(bs[1..], addr)
  }

  lemma {:induction false} HoldingFirst(bs: seq<Block>, addr: nat, k: nat)
    requires k <= |bs| && (k < |bs| ==> Payload(bs[k]) <= addr < End(bs[k]))
    requires forall j :: 0 <= j < k ==> !(Payload(bs[j]) <= addr < End(bs[j]))
    ensures Holding(bs, addr) == k
  {
    if k > 0 { HoldingFirst(bs[1..], addr, k - 1); }
  }

  function FreeAt(h: Heap, addr: nat): Heap {
    var i := Holding(h.blocks, addr);
    if addr == 0 || i == |h.blocks| || Free(h.blocks[i]) then h
    else h.(blocks := Coalesce(SetUsed(h.blocks, i, 0)))
  }

  /** The block whose payload starts at ptr, or the number of blocks. */
  function Starting(bs: seq<Block>, ptr: nat): (i: nat)
    ensures i <= |bs|
    ensures i < |bs| ==> Payload(bs[i]) == ptr
  {
    if bs == [] || Payload(bs[0]) == ptr then 0 else 1 + Starting(bs[1..], ptr)
  }

  lemma {:induction false} StartingFirst(bs: seq<Block>, ptr: nat, k: nat)
    requires k <= |bs| && (k < |bs| ==> Payload(bs[k]) == ptr)
    requires forall j :: 0 <= j < k ==> Payload(bs[j]) != ptr
    ensures Starting(bs, ptr) == k
  {
    if k > 0 { StartingFirst(bs[1..], ptr, k - 1); }
  }

  predicate Absorbs(bs: seq<Block>, i: nat, size: nat)
    requires i < |bs|
  {
    i + 1 < |bs| && Free(bs[i + 1]) && size <= bs[i].size + bs[i + 1].size + HEADER
  }

  /** realloc: in the block itself, into the free block behind it, or by moving. */
  function Realloc(h: Heap, ptr: nat, size: nat, more: Option<nat>): Answer
    requires h.blocks != []
  {
    var bs := h.blocks;
    var i := Starting(bs, ptr);
    if size == 0 then Answer(FreeAt(h, ptr), 0)
    else if ptr == 0 then Malloc(h, size, more)
    else if i == |bs| then Answer(h, 0)
    else if size <= bs[i].size then Answer(h.(blocks := SetUsed(bs, i, size)), ptr)
    else if Absorbs(bs, i, size) then Answer(h.(blocks := SetUsed(MergeAt(bs, i), i, size)), ptr)
    else
      var a := Malloc(h, size, more);
      if a.ptr == 0 then a else Answer(FreeAt(a.heap, ptr), a.ptr)
  }
}
