/** What every malloc, free and realloc keeps, for every heap and every sequence of calls. */
module HeapCalls {
  import opened Common
  import opened HeapBlocks

  /** Tiled, no block over-used, no two free neighbours; address 0 is not in the heap. */
  predicate HeapInv(h: Heap) {
    Well(h.blocks, h.lo, h.hi) && Coalesced(h.blocks) && h.lo > 0
  }

  // ---------------------------------------------------------------- finding blocks

  lemma HoldingIs(bs: seq<Block>, lo: nat, hi: nat, i: nat, addr: nat)
    requires Tiles(bs, lo, hi) && i < |bs| && Payload(bs[i]) <= addr < End(bs[i])
    ensures Holding(bs, addr) == i
  {
    forall j | 0 <= j < i ensures !(Payload(bs[j]) <= addr < End(bs[j])) { Ordered(bs, lo, hi, j, i); }
    HoldingFirst(bs, addr, i);
  }

  lemma StartingIs(bs: seq<Block>, lo: nat, hi: nat, i: nat)
    requires Tiles(bs, lo, hi) && i < |bs|
    ensures Starting(bs, Payload(bs[i])) == i
  {
    forall j | 0 <= j < i ensures Payload(bs[j]) != Payload(bs[i]) { Ordered(bs, lo, hi, j, i); }
    StartingFirst(bs, Payload(bs[i]), i);
  }

  // ---------------------------------------------------------------- malloc

  /** The live blocks other than block i, each with its address, size and use. */
  function LiveBut(bs: seq<Block>, i: nat): seq<Block>
    requires i < |bs|
  {
    Live(bs[..i]) + Live(bs[i + 1..])
  }

  lemma LiveWithout(a: seq<Block>, b: Block, c: seq<Block>)
    requires Free(b)
    ensures Live(a + [b] + c) == Live(a) + Live(c)
  {
    LiveAround(a, b, c);
    assert Live(a) + [] + Live(c) == Live(a) + Live(c);
  }

  lemma LiveButFree(bs: seq<Block>, i: nat)
    requires i < |bs| && Free(bs[i])
    ensures Live(bs) == LiveBut(bs, i)
  {
    Around(bs, i);
    LiveWithout(bs[..i], bs[i], bs[i + 1..]);
  }

  lemma LiveButSame(bs: seq<Block>, i: nat, used: nat)
    requires i < |bs|
    ensures LiveBut(SetUsed(bs, i, used), i) == LiveBut(bs, i)
  {
    assert SetUsed(bs, i, used)[..i] == bs[..i] && SetUsed(bs, i, used)[i + 1..] == bs[i + 1..];
  }

  lemma SplitCoalesced(bs: seq<Block>, i: nat, n: nat)
    requires Coalesced(bs) && i < |bs| && Free(bs[i]) && n > 0 && Round(n) == n <= bs[i].size
    ensures Coalesced(SetUsed(SplitAt(bs, i, n), i, n))
  {
    var cs := SetUsed(SplitAt(bs, i, n), i, n);
    forall j | 0 <= j < |cs| - 1 ensures !(Free(cs[j]) && Free(cs[j + 1])) {
      if |cs| == |bs| {
        assert !(Free(bs[j]) && Free(bs[j + 1]));
      } else if j + 1 < i {
        assert !(Free(bs[j]) && Free(bs[j + 1]));
      } else if j > i {
        assert !(Free(bs[j - 1]) && Free(bs[j - 1 + 1]));
      }
    }
  }

  /** Taking a free block: one more live block, big enough, where the free one was. */
  lemma TakeBlockInv(h: Heap, i: nat, n: nat)
    requires HeapInv(h) && i < |h.blocks| && Free(h.blocks[i]) && n > 0 && Round(n) == n <= h.blocks[i].size
    ensures var a := TakeBlock(h, i, n);
            && HeapInv(a.heap) && i < |a.heap.blocks|
            && a.heap.blocks[i].addr == h.blocks[i].addr && a.heap.blocks[i].used == n <= a.heap.blocks[i].size
            && a.heap.blocks[i].size < n + MINBLOCK && LiveBut(a.heap.blocks, i) == Live(h.blocks)
  {
    var bs := SplitAt(h.blocks, i, n);
    SplitWell(h.blocks, h.lo, h.hi, i, n);
    SplitLive(h.blocks, i, n);
    SetUsedWell(bs, h.lo, h.hi, i, n);
    SplitCoalesced(h.blocks, i, n);
    LiveButFree(bs, i);
    LiveButSame(bs, i, n);
  }

  lemma AppendWell(bs: seq<Block>, lo: nat, hi: nat, size: nat)
    requires Well(bs, lo, hi)
    ensures Well(bs + [Block(hi, size, 0)], lo, hi + HEADER + size) && Live(bs + [Block(hi, size, 0)]) == Live(bs)
  {
    var cs := bs + [Block(hi, size, 0)];
    forall j | 0 <= j < |cs| - 1 ensures cs[j + 1].addr == End(cs[j]) {
      if j < |bs| - 1 { assert bs[j + 1].addr == End(bs[j]); }
    }
    LiveAppend(bs, [Block(hi, size, 0)]);
    LiveOne(Block(hi, size, 0));
  }

  lemma GrowCoalesced(h: Heap, more: nat)
    requires h.blocks != [] && Coalesced(h.blocks)
    ensures Coalesced(Grow(h, more).blocks)
  {
    var gs := Grow(h, more).blocks;
    forall j | 0 <= j < |gs| - 1 ensures !(Free(gs[j]) && Free(gs[j + 1])) {
      if j < |h.blocks| - 1 { assert !(Free(h.blocks[j]) && Free(h.blocks[j + 1])); }
    }
  }

  /** Growing keeps the live blocks and leaves one free block of at least `more` bytes at the end. */
  lemma GrowInv(h: Heap, more: nat)
    requires HeapInv(h)
    ensures var g := Grow(h, more);
            && HeapInv(g) && Live(g.blocks) == Live(h.blocks) && g.hi == h.hi + HEADER + more
            && Free(g.blocks[|g.blocks| - 1]) && g.blocks[|g.blocks| - 1].size >= more
  {
    var n := |h.blocks|;
    var bs := h.blocks + [Block(h.hi, more, 0)];
    AppendWell(h.blocks, h.lo, h.hi, more);
    if Free(h.blocks[n - 1]) {
      MergeWell(bs, h.lo, h.hi + HEADER + more, n - 1);
      MergeLive(bs, n - 1);
    }
    GrowCoalesced(h, more);
  }

  /** Where a malloc got its block: the heap it had, or the grown one. */
  function Source(h: Heap, len: nat, more: Option<nat>): Heap
    requires h.blocks != []
  {
    if FirstFit(h.blocks, Request(len)) == |h.blocks| && more.Some? then Grow(h, more.value) else h
  }

  predicate Enough(len: nat, more: Option<nat>) { more.Some? ==> more.value >= Request(len) }

  /** What malloc took from g: the block at j, found again by its address. */
  lemma TakenFrom(g: Heap, j: nat, n: nat, a: Answer)
    requires HeapInv(g) && j < |g.blocks| && Free(g.blocks[j]) && n > 0 && Round(n) == n <= g.blocks[j].size
    requires a == TakeBlock(g, j, n)
    ensures HeapInv(a.heap) && a.ptr != 0 && a.heap.lo == g.lo && a.heap.hi == g.hi
    ensures j < |a.heap.blocks| && Starting(a.heap.blocks, a.ptr) == j && a.heap.blocks[j].addr == g.blocks[j].addr
    ensures a.heap.blocks[j].used == n <= a.heap.blocks[j].size && LiveBut(a.heap.blocks, j) == Live(g.blocks)
    ensures a.heap.blocks[j].size < n + MINBLOCK
  {
    TakeBlockInv(g, j, n);
    StartingIs(a.heap.blocks, a.heap.lo, a.heap.hi, j);
  }

  /** The block that a malloc takes, in the heap it takes it from. */
  lemma Chosen(h: Heap, len: nat, more: Option<nat>) returns (j: nat)
    requires HeapInv(h) && Enough(len, more) && len < INT_LIMIT
    requires FirstFit(h.blocks, Request(len)) < |h.blocks| || more.Some?
    ensures var g, n := Source(h, len, more), Request(len);
            && HeapInv(g) && g.lo == h.lo && Live(g.blocks) == Live(h.blocks) && n > 0 && Round(n) == n
            && j < |g.blocks| && Free(g.blocks[j]) && n <= g.blocks[j].size
            && Malloc(h, len, more) == TakeBlock(g, j, n)
            && j == if FirstFit(h.blocks, n) < |h.blocks| then FirstFit(h.blocks, n) else |g.blocks| - 1
  {
    var g := Source(h, len, more);
    j := FirstFit(h.blocks, Request(len));
    if j == |h.blocks| {
      GrowInv(h, more.value);
      j := |g.blocks| - 1;
    }
  }

  /** malloc: a block for len bytes and a word more, in whole words, with less than a block's worth to spare; the
      other live blocks are those of before. */
  lemma MallocInv(h: Heap, len: nat, more: Option<nat>)
    requires HeapInv(h) && Enough(len, more)
    ensures var a := Malloc(h, len, more);
            && HeapInv(a.heap)
            && (a.ptr == 0 ==> a.heap == h)
            && (a.ptr == 0 <==> len >= INT_LIMIT || (FirstFit(h.blocks, Request(len)) == |h.blocks| && more.None?))
            && (a.ptr != 0 ==>
                  var i := Starting(a.heap.blocks, a.ptr);
                  && i < |a.heap.blocks| && len + 4 <= a.heap.blocks[i].used == Request(len) <= a.heap.blocks[i].size
                  && a.heap.blocks[i].used < len + 8 && a.heap.blocks[i].used % 4 == 0
                  && a.heap.blocks[i].size < a.heap.blocks[i].used + MINBLOCK
                  && a.heap.lo == h.lo && a.heap.hi == Source(h, len, more).hi
                  && LiveBut(a.heap.blocks, i) == Live(h.blocks))
  {
    if len < INT_LIMIT && (FirstFit(h.blocks, Request(len)) < |h.blocks| || more.Some?) {
      var j := Chosen(h, len, more);
      TakenFrom(Source(h, len, more), j, Request(len), Malloc(h, len, more));
    }
  }

  lemma FitsFirst(bs: seq<Block>, lo: nat, hi: nat, n: nat, j: nat)
    requires Tiles(bs, lo, hi) && j < |bs|
    requires var i := FirstFit(bs, n); i < |bs| ==> bs[j].addr < bs[i].addr
    ensures !(Free(bs[j]) && n <= bs[j].size)
  {
    var i := FirstFit(bs, n);
    FirstFitIs(bs, n, i);
    if i < j && i < |bs| { Ordered(bs, lo, hi, i, j); }
  }

  /** First fit: no free block at a lower address would have been large enough. */
  lemma MallocFirst(h: Heap, len: nat, more: Option<nat>, j: nat)
    requires HeapInv(h) && Malloc(h, len, more).ptr != 0 && j < |h.blocks|
    requires Payload(h.blocks[j]) < Malloc(h, len, more).ptr
    ensures !(Free(h.blocks[j]) && len + 4 <= h.blocks[j].size && h.blocks[j].size % 4 == 0)
    ensures !(Free(h.blocks[j]) && len + 7 <= h.blocks[j].size)
  {
    FitsFirst(h.blocks, h.lo, h.hi, Request(len), j);
    RequestLeast(len, h.blocks[j].size);
  }

  /** The request is the least whole number of words with room for len bytes and one word. */
  lemma RequestLeast(len: nat, size: nat)
    ensures size % 4 == 0 && len + 4 <= size ==> Request(len) <= size
    ensures len + 7 <= size ==> Request(len) <= size
  {
  }

  /** malloc splits the block it finds exactly when what is left over is worth a block of its own. */
  lemma MallocSplits(h: Heap, len: nat, more: Option<nat>, j: nat, a: Answer)
    requires HeapInv(h) && Enough(len, more) && a == Malloc(h, len, more) && a.ptr != 0 && a.heap.hi == h.hi
    requires j < |h.blocks| && Payload(h.blocks[j]) == a.ptr
    ensures Free(h.blocks[j]) && j < |a.heap.blocks| && a.heap.blocks[j].used == Request(len)
    ensures a.heap.blocks[j].size
            == if h.blocks[j].size < Request(len) + MINBLOCK then h.blocks[j].size else Request(len)
  {
    MallocInv(h, len, more);
    var n := Request(len);
    var i := FirstFit(h.blocks, n);
    if i == |h.blocks| { GrowInv(h, more.value); }
    if i < j { Ordered(h.blocks, h.lo, h.hi, i, j); }
    if j < i < |h.blocks| { Ordered(h.blocks, h.lo, h.hi, j, i); }
    TakenFrom(h, j, n, a);
  }

  /** malloc asks for more memory only when no contiguous run of free blocks, headers
      included, could hold the rounded request. */
  lemma GrowsOnlyWhenNeeded(h: Heap, n: nat, i: nat, j: nat)
    requires HeapInv(h) && FirstFit(h.blocks, n) == |h.blocks|
    requires i <= j < |h.blocks| && forall k :: i <= k <= j ==> Free(h.blocks[k])
    ensures End(h.blocks[j]) - Payload(h.blocks[i]) < n
  {
    FirstFitIs(h.blocks, n, |h.blocks|);
    var k := if i < j then i else 0;
    assert k + 1 < |h.blocks| ==> !(Free(h.blocks[k]) && Free(h.blocks[k + 1]));
  }

  // ---------------------------------------------------------------- free

  lemma FreeInv(h: Heap, addr: nat)
    requires HeapInv(h)
    ensures var g := FreeAt(h, addr); HeapInv(g) && g.lo == h.lo && g.hi == h.hi
    ensures var i := Holding(h.blocks, addr);
            if addr == 0 || i == |h.blocks| || Free(h.blocks[i]) then FreeAt(h, addr) == h
            else Live(FreeAt(h, addr).blocks) == LiveBut(h.blocks, i)
  {
    var i := Holding(h.blocks, addr);
    if addr != 0 && i < |h.blocks| && !Free(h.blocks[i]) {
      var bs := SetUsed(h.blocks, i, 0);
      SetUsedWell(h.blocks, h.lo, h.hi, i, 0);
      LiveButSame(h.blocks, i, 0);
      LiveButFree(bs, i);
      CoalesceWell(bs, h.lo, h.hi);
      CoalesceCoalesced(bs);
    }
  }

  /** free undoes malloc: the block list is again exactly what it was (grown, if it had to
      grow): same addresses, sizes and used fields. */
  lemma MallocThenFree(h: Heap, len: nat, more: Option<nat>)
    requires HeapInv(h) && Enough(len, more) && Malloc(h, len, more).ptr != 0
    ensures var a := Malloc(h, len, more); FreeAt(a.heap, a.ptr) == Source(h, len, more)
  {
    var a := Malloc(h, len, more);
    var g := Source(h, len, more);
    MallocInv(h, len, more);
    if more.Some? { GrowInv(h, more.value); }
    var i := Starting(a.heap.blocks, a.ptr);
    HoldingIs(a.heap.blocks, a.heap.lo, a.heap.hi, i, a.ptr);
    FreeInv(a.heap, a.ptr);
    var f := FreeAt(a.heap, a.ptr);
    CanonicalForm(f.blocks, g.blocks, g.lo, g.hi);
  }

  // ---------------------------------------------------------------- realloc

  lemma AbsorbCoalesced(bs: seq<Block>, i: nat, size: nat)
    requires Coalesced(bs) && i + 1 < |bs| && size > 0
    ensures Coalesced(SetUsed(MergeAt(bs, i), i, size))
  {
    var cs := SetUsed(MergeAt(bs, i), i, size);
    forall j | 0 <= j < |cs| - 1 ensures !(Free(cs[j]) && Free(cs[j + 1])) {
      if j + 1 < i { assert !(Free(bs[j]) && Free(bs[j + 1])); }
      else if j > i { assert !(Free(bs[j + 1]) && Free(bs[j + 1 + 1])); }
    }
  }

  lemma ReuseCoalesced(bs: seq<Block>, i: nat, size: nat)
    requires Coalesced(bs) && i < |bs| && size > 0
    ensures Coalesced(SetUsed(bs, i, size))
  {
    var cs := SetUsed(bs, i, size);
    forall j | 0 <= j < |cs| - 1 ensures !(Free(cs[j]) && Free(cs[j + 1])) {
      assert !(Free(bs[j]) && Free(bs[j + 1]));
    }
  }

  /** Every realloc, of any pointer and to any size, keeps the heap well formed. */
  lemma ReallocInv(h: Heap, ptr: nat, size: nat, more: Option<nat>)
    requires HeapInv(h) && Enough(size, more)
    ensures HeapInv(Realloc(h, ptr, size, more).heap)
  {
    var bs := h.blocks;
    var i := Starting(bs, ptr);
    if size == 0 {
      FreeInv(h, ptr);
    } else if ptr == 0 {
      MallocInv(h, size, more);
    } else if i < |bs| {
      if size <= bs[i].size {
        SetUsedWell(bs, h.lo, h.hi, i, size);
        ReuseCoalesced(bs, i, size);
      } else if Absorbs(bs, i, size) {
        MergeWell(bs, h.lo, h.hi, i);
        SetUsedWell(MergeAt(bs, i), h.lo, h.hi, i, size);
        AbsorbCoalesced(bs, i, size);
      } else {
        MallocInv(h, size, more);
        FreeInv(Malloc(h, size, more).heap, ptr);
      }
    }
  }

  /** Where the block behind k is free, its bytes and its header count as room for k. */
  function Room(bs: seq<Block>, k: nat): nat
    requires k < |bs|
  {
    bs[k].size + if k + 1 < |bs| && bs[k + 1].used == 0 then bs[k + 1].size + HEADER else 0
  }

  /** The size of the block k that stays where it is: its own if that will do, and otherwise all the room there. */
  function Extent(bs: seq<Block>, k: nat, size: nat): nat
    requires k < |bs|
  {
    if size <= bs[k].size then bs[k].size else Room(bs, k)
  }

  /** A block starts at ptr that has room for `size` bytes and says so, for the next realloc to carry. */
  predicate Holds(h: Heap, ptr: nat, size: nat) {
    var i := Starting(h.blocks, ptr); i < |h.blocks| && size <= h.blocks[i].used <= h.blocks[i].size
  }

  /** What a caller holds after resizing the live block k, beside the other live blocks of before. */
  ghost predicate Resized(h: Heap, k: nat, size: nat, a: Answer) {
    var i := Starting(a.heap.blocks, a.ptr);
    && k < |h.blocks| && i < |a.heap.blocks| && Holds(a.heap, a.ptr, size) && a.heap.blocks[i].used < size + 8
    && LiveBut(a.heap.blocks, i) == LiveBut(h.blocks, k) && a.heap.lo == h.lo
  }

  lemma ResizedInPlace(h: Heap, k: nat, size: nat, bs: seq<Block>)
    requires HeapInv(h) && k < |h.blocks| && !Free(h.blocks[k]) && Well(bs, h.lo, h.hi)
    requires k < |bs| && 0 < size <= bs[k].size && bs[k].addr == h.blocks[k].addr
             && LiveBut(bs, k) == LiveBut(h.blocks, k)
    ensures Resized(h, k, size, Answer(h.(blocks := SetUsed(bs, k, size)), Payload(h.blocks[k])))
  {
    SetUsedWell(bs, h.lo, h.hi, k, size);
    LiveButSame(bs, k, size);
    StartingIs(SetUsed(bs, k, size), h.lo, h.hi, k);
  }

  lemma AbsorbedOthers(bs: seq<Block>, k: nat)
    requires k + 1 < |bs| && Free(bs[k + 1])
    ensures LiveBut(MergeAt(bs, k), k) == LiveBut(bs, k)
  {
    var cs := MergeAt(bs, k);
    assert cs[..k] == bs[..k] && cs[k + 1..] == bs[k + 2..];
    assert bs[k + 1..][1..] == bs[k + 2..];
  }

  /** A live block other than block i is still among the others. */
  lemma LiveButMember(bs: seq<Block>, i: nat, b: Block)
    requires i < |bs|
    ensures b in LiveBut(bs, i) ==> b in Live(bs)
    ensures b in Live(bs) && b != bs[i] ==> b in LiveBut(bs, i)
  {
    LiveMember(bs, b);
    LiveMember(bs[..i], b);
    LiveMember(bs[i + 1..], b);
  }

  /** After a malloc the live block k of the old list is still in the new one, and is not the new block. */
  lemma StillThere(bs: seq<Block>, cs: seq<Block>, k: nat, j: nat) returns (k1: nat)
    requires k < |bs| && !Free(bs[k]) && j < |cs| && LiveBut(cs, j) == Live(bs) && cs[j].used > bs[k].size >= bs[k].used
    ensures k1 < |cs| && cs[k1] == bs[k] && k1 != j
  {
    LiveMember(bs, bs[k]);
    LiveButMember(cs, j, bs[k]);
    LiveMember(cs, bs[k]);
    k1 :| 0 <= k1 < |cs| && cs[k1] == bs[k];
  }

  /** The live blocks at other addresses. */
  function Except(live: seq<Block>, addr: nat): seq<Block> {
    if live == [] then []
    else Except(live[..|live| - 1], addr) + if live[|live| - 1].addr == addr then [] else [live[|live| - 1]]
  }

  lemma {:induction false} ExceptAppend(a: seq<Block>, b: seq<Block>, addr: nat)
    ensures Except(a + b, addr) == Except(a, addr) + Except(b, addr)
  {
    if b == [] {
      assert a + b == a;
    } else {
      assert (a + b)[..|a + b| - 1] == a + b[..|b| - 1];
      ExceptAppend(a, b[..|b| - 1], addr);
    }
  }

  predicate NoneAt(live: seq<Block>, addr: nat) {
    forall i :: 0 <= i < |live| ==> live[i].addr != addr
  }

  lemma {:induction false} ExceptAbsent(a: seq<Block>, addr: nat)
    requires NoneAt(a, addr)
    ensures Except(a, addr) == a
  {
    if a != [] { ExceptAbsent(a[..|a| - 1], addr); }
  }

  lemma {:induction false} ExceptSwap(a: seq<Block>, x: nat, y: nat)
    ensures Except(Except(a, x), y) == Except(Except(a, y), x)
  {
    if a != [] {
      var last := a[|a| - 1];
      ExceptSwap(a[..|a| - 1], x, y);
      ExceptAppend(Except(a[..|a| - 1], x), if last.addr == x then [] else [last], y);
      ExceptAppend(Except(a[..|a| - 1], y), if last.addr == y then [] else [last], x);
      ExceptOne(last, x);
      ExceptOne(last, y);
    }
  }

  lemma ExceptOne(b: Block, addr: nat)
    ensures Except([b], addr) == if b.addr == addr then [] else [b]
  {
    assert [b][..0] == [];
  }

  lemma OtherAddresses(bs: seq<Block>, lo: nat, hi: nat, k: nat, b: Block)
    requires Tiles(bs, lo, hi) && k < |bs| && (b in Live(bs[..k]) || b in Live(bs[k + 1..]))
    ensures b.addr != bs[k].addr
  {
    LiveMember(bs[..k], b);
    LiveMember(bs[k + 1..], b);
    if b in bs[..k] {
      var i :| 0 <= i < k && bs[..k][i] == b;
      Ordered(bs, lo, hi, i, k);
    } else {
      var i :| 0 <= i < |bs[k + 1..]| && bs[k + 1..][i] == b;
      Ordered(bs, lo, hi, k, k + 1 + i);
    }
  }

  lemma ExceptLast(a: seq<Block>, b: Block)
    requires NoneAt(a, b.addr)
    ensures Except(a + [b], b.addr) == a
  {
    assert (a + [b])[..|a|] == a;
    ExceptAbsent(a, b.addr);
  }

  lemma ExceptMiddle(a: seq<Block>, b: Block, c: seq<Block>)
    requires NoneAt(a, b.addr) && NoneAt(c, b.addr)
    ensures Except(a + [b] + c, b.addr) == a + c
  {
    ExceptAppend(a + [b], c, b.addr);
    ExceptLast(a, b);
    ExceptAbsent(c, b.addr);
  }

  lemma LiveButExcept(bs: seq<Block>, lo: nat, hi: nat, k: nat)
    requires Tiles(bs, lo, hi) && k < |bs| && !Free(bs[k])
    ensures LiveBut(bs, k) == Except(Live(bs), bs[k].addr)
  {
    var a, c := Live(bs[..k]), Live(bs[k + 1..]);
    Around(bs, k);
    LiveAround(bs[..k], bs[k], bs[k + 1..]);
    forall b | b in a || b in c ensures b.addr != bs[k].addr { OtherAddresses(bs, lo, hi, k, b); }
    ExceptMiddle(a, bs[k], c);
  }

  /** malloc put block j into g, and freeing block k1, the old block k,
    gave f: of h's other live blocks none is lost. */
  lemma MovedOthers(h: Heap, k: nat, g: Heap, j: nat, k1: nat, f: Heap, i: nat)
    requires HeapInv(h) && HeapInv(g) && HeapInv(f) && k < |h.blocks| && !Free(h.blocks[k])
    requires j < |g.blocks| && k1 < |g.blocks| && j != k1 && !Free(g.blocks[j]) && g.blocks[k1] == h.blocks[k]
    requires LiveBut(g.blocks, j) == Live(h.blocks) && Live(f.blocks) == LiveBut(g.blocks, k1)
    requires i < |f.blocks| && f.blocks[i] == g.blocks[j]
    ensures LiveBut(f.blocks, i) == LiveBut(h.blocks, k)
  {
    LiveButExcept(f.blocks, f.lo, f.hi, i);
    LiveButExcept(g.blocks, g.lo, g.hi, k1);
    LiveButExcept(g.blocks, g.lo, g.hi, j);
    LiveButExcept(h.blocks, h.lo, h.hi, k);
    ExceptSwap(Live(g.blocks), g.blocks[k1].addr, g.blocks[j].addr);
  }

  lemma ResizedByMove(h: Heap, k: nat, size: nat, more: Option<nat>, g: Heap, r: nat)
    requires HeapInv(h) && Enough(size, more) && k < |h.blocks| && !Free(h.blocks[k]) && h.blocks[k].size < size
    requires Answer(g, r) == Malloc(h, size, more) && r != 0
    ensures Resized(h, k, size, Answer(FreeAt(g, Payload(h.blocks[k])), r)) && r != Payload(h.blocks[k])
  {
    MallocInv(h, size, more);
    assert h.blocks[k].used <= h.blocks[k].size;
    var j := Starting(g.blocks, r);
    var k1 := StillThere(h.blocks, g.blocks, k, j);
    var ptr := Payload(h.blocks[k]);
    PayloadsDisjoint(g.blocks, g.lo, g.hi, j, k1);
    assert g.blocks[k1].used <= g.blocks[k1].size;
    HoldingIs(g.blocks, g.lo, g.hi, k1, ptr);
    FreeInv(g, ptr);
    var f := FreeAt(g, ptr);
    LiveButMember(g.blocks, k1, g.blocks[j]);
    LiveMember(g.blocks, g.blocks[j]);
    LiveMember(f.blocks, g.blocks[j]);
    var i :| 0 <= i < |f.blocks| && f.blocks[i] == g.blocks[j];
    StartingIs(f.blocks, f.lo, f.hi, i);
    MovedOthers(h, k, g, j, k1, f, i);
  }

  /** What realloc of the live block k to `size` bytes answers, and leaves. */
  ghost predicate Gives(h: Heap, k: nat, size: nat, more: Option<nat>, a: Answer)
    requires h.blocks != [] && k < |h.blocks|
  {
    var ptr := Payload(h.blocks[k]);
    && (a.ptr == ptr <==> size <= Room(h.blocks, k))
    && (a.ptr == 0 <==> size > Room(h.blocks, k) && Malloc(h, size, more).ptr == 0)
    && (a.ptr == 0 ==> a.heap == h)
    && (a.ptr != 0 ==> Resized(h, k, size, a))
    && (a.ptr == ptr ==>
          var i := Starting(a.heap.blocks, ptr);
          i < |a.heap.blocks| && a.heap.blocks[i] == Block(h.blocks[k].addr, Extent(h.blocks, k, size), size))
  }

  lemma GivesHere(h: Heap, k: nat, size: nat, more: Option<nat>, bs: seq<Block>, a: Answer)
    requires HeapInv(h) && k < |h.blocks| && !Free(h.blocks[k]) && Well(bs, h.lo, h.hi)
    requires k < |bs| && 0 < size <= bs[k].size && bs[k].addr == h.blocks[k].addr
             && LiveBut(bs, k) == LiveBut(h.blocks, k)
    requires size <= Room(h.blocks, k) && bs[k].size == Extent(h.blocks, k, size)
    requires a == Answer(h.(blocks := SetUsed(bs, k, size)), Payload(h.blocks[k]))
    ensures Gives(h, k, size, more, a)
  {
    ResizedInPlace(h, k, size, bs);
    SetUsedWell(bs, h.lo, h.hi, k, size);
    StartingIs(SetUsed(bs, k, size), h.lo, h.hi, k);
  }

  lemma GivesMoved(h: Heap, k: nat, size: nat, more: Option<nat>, g: Heap, r: nat, a: Answer)
    requires HeapInv(h) && Enough(size, more) && k < |h.blocks| && !Free(h.blocks[k]) && size > Room(h.blocks, k)
    requires Answer(g, r) == Malloc(h, size, more)
    requires a == if r == 0 then Answer(g, r) else Answer(FreeAt(g, Payload(h.blocks[k])), r)
    ensures Gives(h, k, size, more, a)
  {
    MallocInv(h, size, more);
    if r != 0 { ResizedByMove(h, k, size, more, g, r); }
  }

  /** realloc of a live block: it stays where it is exactly when there is room there or behind; NULL changes nothing;
      and otherwise the caller holds a block with room for `size` bytes, and every other live block is kept. */
  lemma ReallocGives(h: Heap, k: nat, size: nat, more: Option<nat>, a: Answer)
    requires HeapInv(h) && Enough(size, more) && k < |h.blocks| && !Free(h.blocks[k]) && size > 0
    requires a == Realloc(h, Payload(h.blocks[k]), size, more)
    ensures Gives(h, k, size, more, a)
  {
    var bs := h.blocks;
    StartingIs(bs, h.lo, h.hi, k);
    if size <= bs[k].size {
      GivesHere(h, k, size, more, bs, a);
    } else if size <= Room(bs, k) {
      MergeWell(bs, h.lo, h.hi, k);
      AbsorbedOthers(bs, k);
      GivesHere(h, k, size, more, MergeAt(bs, k), a);
    } else {
      GivesMoved(h, k, size, more, Malloc(h, size, more).heap, Malloc(h, size, more).ptr, a);
    }
  }

  /** ptr is the start of a live block. */
  predicate LiveAt(h: Heap, ptr: nat) {
    var i := Starting(h.blocks, ptr); i < |h.blocks| && !Free(h.blocks[i])
  }

  /** The two ways to come by a block, realloc of a live one and of NULL, and what is left when they fail. */
  lemma ReallocHolds(h: Heap, ptr: nat, size: nat, more: Option<nat>, a: Answer)
    requires HeapInv(h) && Enough(size, more) && size > 0 && (ptr == 0 || LiveAt(h, ptr))
    requires a == Realloc(h, ptr, size, more)
    ensures if a.ptr == 0 then a.heap == h else Holds(a.heap, a.ptr, size)
    ensures a.ptr != 0 && ptr != 0 ==> Resized(h, Starting(h.blocks, ptr), size, a)
  {
    if ptr == 0 {
      MallocInv(h, size, more);
    } else {
      ReallocGives(h, Starting(h.blocks, ptr), size, more, a);
    }
  }

  // ---------------------------------------------------------------- realloc of a freed block

  /** Blocks apart from the one taken stay as they are. */
  lemma TakeBeside(g: Heap, j: nat, n: nat, k: nat) returns (k1: nat)
    requires HeapInv(g) && j < |g.blocks| && Free(g.blocks[j]) && k < |g.blocks| && k != j
    ensures var cs := TakeBlock(g, j, n).heap.blocks; k1 < |cs| && cs[k1] == g.blocks[k]
    ensures TakeBlock(g, j, n).ptr != Payload(g.blocks[k])
  {
    var cs := TakeBlock(g, j, n).heap.blocks;
    k1 := if k < j || |cs| == |g.blocks| then k else k + 1;
    PayloadsDisjoint(g.blocks, g.lo, g.hi, j, k);
  }

  /** The heap needs no new memory, or the block at k is not the one that the new memory joins. */
  predicate Elsewhere(h: Heap, k: nat, size: nat) {
    FirstFit(h.blocks, Request(size)) < |h.blocks| || k + 1 < |h.blocks|
  }

  /** Growing changes only the last block, if that is free. */
  lemma GrowBeside(h: Heap, more: nat, k: nat)
    requires k < |h.blocks| && Free(h.blocks[k])
    ensures var gs := Grow(h, more).blocks;
            && k < |gs| && gs[k].addr == h.blocks[k].addr && (k + 1 == |h.blocks| <==> k + 1 == |gs|)
            && (k + 1 < |h.blocks| ==> gs[k] == h.blocks[k])
  {
  }

  /** What becomes of a free block that is too small, in a malloc: nothing, unless it is the last and the heap grows. */
  lemma FreedStays(h: Heap, k: nat, size: nat, more: Option<nat>) returns (k1: nat)
    requires HeapInv(h) && Enough(size, more) && k < |h.blocks| && Free(h.blocks[k]) && h.blocks[k].size < size
    requires Malloc(h, size, more).ptr != 0
    ensures var a, ptr := Malloc(h, size, more), Payload(h.blocks[k]);
            && k1 < |a.heap.blocks| && Payload(a.heap.blocks[k1]) == ptr && (a.ptr != ptr <==> Elsewhere(h, k, size))
            && if a.ptr == ptr then k1 == Starting(a.heap.blocks, ptr) else a.heap.blocks[k1] == h.blocks[k]
  {
    MallocInv(h, size, more);
    var j := Chosen(h, size, more);
    var g := Source(h, size, more);
    if more.Some? { GrowBeside(h, more.value, k); }
    if Elsewhere(h, k, size) {
      k1 := TakeBeside(g, j, Request(size), k);
    } else {
      TakenFrom(g, j, Request(size), Malloc(h, size, more));
      k1 := j;
    }
  }

  /** Freeing the start of a free block does nothing. */
  lemma FreeFreed(h: Heap, k: nat)
    requires HeapInv(h) && k < |h.blocks| && Free(h.blocks[k])
    ensures FreeAt(h, Payload(h.blocks[k])) == h
  {
    var i := Holding(h.blocks, Payload(h.blocks[k]));
    if i < |h.blocks| && i != k { PayloadsDisjoint(h.blocks, h.lo, h.hi, i, k); }
  }

  /** realloc to more than a freed block holds returns a live block exactly when the heap does not have
      to grow or the freed block is not the last one.  Otherwise it frees what it has just allocated. */
  lemma ReallocFreedIff(h: Heap, k: nat, size: nat, more: Option<nat>)
    requires HeapInv(h) && Enough(size, more) && k < |h.blocks| && Free(h.blocks[k]) && h.blocks[k].size < size
    requires Malloc(h, size, more).ptr != 0
    ensures var a := Realloc(h, Payload(h.blocks[k]), size, more);
            && a.ptr == Malloc(h, size, more).ptr && (LiveAt(a.heap, a.ptr) <==> Elsewhere(h, k, size))
            && if Elsewhere(h, k, size) then a.heap == Malloc(h, size, more).heap
               else Live(a.heap.blocks) == Live(h.blocks)
  {
    var ptr, m := Payload(h.blocks[k]), Malloc(h, size, more);
    ReallocFreedMoves(h, k, size, more);
    MallocInv(h, size, more);
    var k1 := FreedStays(h, k, size, more);
    if Elsewhere(h, k, size) {
      FreeFreed(m.heap, k1);
    } else {
      HoldingIs(m.heap.blocks, m.heap.lo, m.heap.hi, k1, ptr);
      FreeInv(m.heap, ptr);
      NotLiveAt(h, k, FreeAt(m.heap, ptr));
    }
  }

  /** One freed block of 8 bytes is the whole heap; realloc to 16 grows it and returns memory that is free. */
  lemma ReallocFreedLoses(h: Heap, a: Answer)
    requires h == Heap([Block(24, 8, 0)], 24, 56) && a == Realloc(h, 48, 16, Some(100))
    ensures HeapInv(h) && a.ptr == 48 && !LiveAt(a.heap, 48)
  {
    FirstFitIs(h.blocks, Request(16), 1);
    MallocInv(h, 16, Some(100));
    ReallocFreedIff(h, 0, 16, Some(100));
  }

  /** The freed block cannot take in its neighbour, which is not free. */
  lemma FreedAlone(h: Heap, k: nat, size: nat)
    requires HeapInv(h) && k < |h.blocks| && Free(h.blocks[k])
    ensures !Absorbs(h.blocks, k, size)
  {
    assert k + 1 < |h.blocks| ==> !(Free(h.blocks[k]) && Free(h.blocks[k + 1]));
  }

  lemma ReallocFreedMoves(h: Heap, k: nat, size: nat, more: Option<nat>)
    requires HeapInv(h) && k < |h.blocks| && Free(h.blocks[k]) && h.blocks[k].size < size
    ensures var a, ptr := Malloc(h, size, more), Payload(h.blocks[k]);
            Realloc(h, ptr, size, more) == if a.ptr == 0 then a else Answer(FreeAt(a.heap, ptr), a.ptr)
  {
    StartingIs(h.blocks, h.lo, h.hi, k);
    FreedAlone(h, k, size);
  }

  lemma NotLiveAt(h: Heap, k: nat, g: Heap)
    requires HeapInv(h) && k < |h.blocks| && Free(h.blocks[k]) && Live(g.blocks) == Live(h.blocks)
    ensures !LiveAt(g, Payload(h.blocks[k]))
  {
    var i := Starting(g.blocks, Payload(h.blocks[k]));
    if i < |g.blocks| && !Free(g.blocks[i]) {
      LiveMember(g.blocks, g.blocks[i]);
      LiveMember(h.blocks, g.blocks[i]);
      var j :| 0 <= j < |h.blocks| && h.blocks[j] == g.blocks[i];
      PayloadsDisjoint(h.blocks, h.lo, h.hi, j, k);
    }
  }

  // ---------------------------------------------------------------- whole runs

  datatype Call =
    | CallMalloc(len: nat, more: Option<nat>)
    | CallFree(addr: nat)
    | CallRealloc(ptr: nat, size: nat, rmore: Option<nat>)

  predicate CallOk(c: Call) {
    match c
    case CallMalloc(len, more) => Enough(len, more)
    case CallFree(_) => true
    case CallRealloc(_, size, more) => Enough(size, more)
  }

  function Do(h: Heap, c: Call): Heap
    requires h.blocks != []
  {
    match c
    case CallMalloc(len, more) => Malloc(h, len, more).heap
    case CallFree(addr) => FreeAt(h, addr)
    case CallRealloc(ptr, size, more) => Realloc(h, ptr, size, more).heap
  }

  lemma CallInv(h: Heap, c: Call)
    requires HeapInv(h) && CallOk(c)
    ensures HeapInv(Do(h, c))
  {
    match c
    case CallMalloc(len, more) => MallocInv(h, len, more);
    case CallFree(addr) => FreeInv(h, addr);
    case CallRealloc(ptr, size, more) => ReallocInv(h, ptr, size, more);
  }

  /** hs[i] leads to hs[i + 1] by calls[i]. */
  predicate IsHeapRun(hs: seq<Heap>, calls: seq<Call>) {
    && |hs| == |calls| + 1
    && forall i :: 0 <= i < |calls| ==> CallOk(calls[i]) && hs[i].blocks != [] && hs[i + 1] == Do(hs[i], calls[i])
  }

  /** After any sequence of calls the blocks tile the heap and no two free ones touch. */
  lemma {:induction false} EveryRun(hs: seq<Heap>, calls: seq<Call>)
    requires IsHeapRun(hs, calls) && HeapInv(hs[0])
    ensures HeapInv(hs[|calls|])
    decreases |calls|
  {
    var n := |calls|;
    if n > 0 {
      EveryRun(hs[..n], calls[..n - 1]);
      assert hs[..n][n - 1] == hs[n - 1];
      CallInv(hs[n - 1], calls[n - 1]);
    }
  }

  /** Whatever the histories, two heaps with the same range and live blocks are equal. */
  lemma HistoryIndependent(hs: seq<Heap>, calls: seq<Call>, gs: seq<Heap>, others: seq<Call>)
    requires IsHeapRun(hs, calls) && HeapInv(hs[0]) && IsHeapRun(gs, others) && HeapInv(gs[0])
    requires var h, g := hs[|calls|], gs[|others|];
             h.lo == g.lo && h.hi == g.hi && Live(h.blocks) == Live(g.blocks)
    ensures hs[|calls|] == gs[|others|]
  {
    EveryRun(hs, calls);
    EveryRun(gs, others);
    var h, g := hs[|calls|], gs[|others|];
    CanonicalForm(h.blocks, g.blocks, h.lo, h.hi);
  }
}
