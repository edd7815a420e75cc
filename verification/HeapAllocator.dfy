/**
 The allocator at work on memory: headers read and written through pointers, the list
 walked from heap_start.  `blocks` is the list the headers spell out.
 */
module HeapAllocator {
  import opened Common
  import opened Words
  import Frames
  import opened HeapBlocks
  import opened HeapCalls
  import opened HeapImage

  const ADDRESS_LIMIT: nat := Frames.REGION_1_LIMIT

  function UpToPage(n: nat): (r: nat)
    ensures n <= r < n + Frames.PAGESIZE && r % Frames.PAGESIZE == 0
  {
    (n + Frames.PAGESIZE - 1) / Frames.PAGESIZE * Frames.PAGESIZE
  }

  /** The payload grow_heap obtains for a request of n bytes: brk is None when the call
      fails, otherwise where the break is afterwards. */
  function Granted(hi: nat, n: nat, brk: Option<nat>): (more: Option<nat>)
    ensures more.Some? ==> more.value >= n && brk.Some? && hi + HEADER + more.value == brk.value
  {
    if brk.Some? && brk.value >= UpToPage(hi + n + HEADER) then Some(brk.value - hi - HEADER) else None
  }

  class Allocator {
    const mem: array<Byte>
    var heapStart: nat
    var heapEnd: nat
    ghost var blocks: seq<Block>

    ghost predicate Valid()
      reads this, mem
    {
      mem.Length <= ADDRESS_LIMIT && Laid(mem[..], blocks, heapStart, heapEnd) && Fits(blocks)
    }

    ghost function View(): Heap
      reads this
    {
      Heap(blocks, heapStart, heapEnd)
    }

    /** bp points to the header of block k. */
    ghost predicate At(bp: nat, k: nat)
      reads this
    {
      k < |blocks| && bp == blocks[k].addr
    }

    /** Write all six fields of a header. */
    method WriteHeader(bp: nat, f: Fields)
      requires bp + HEADER <= mem.Length && f.magic1 < WORD_LIMIT && f.size < WORD_LIMIT && f.used < WORD_LIMIT
      requires f.next < WORD_LIMIT && f.previous < WORD_LIMIT && f.magic2 < WORD_LIMIT
      modifies mem
      ensures HeaderStored(old(mem[..]), mem[..], bp, f)
    {
      ghost var m := mem[..];
      StoreWord(mem, bp, f.magic1);
      ghost var m1 := mem[..];
      StoreWord(mem, bp + SIZE, f.size);
      LoadBeside(m1, mem[..], bp + SIZE, f.size, bp);
      ghost var m2 := mem[..];
      StoreWord(mem, bp + USED, f.used);
      LoadBeside(m2, mem[..], bp + USED, f.used, bp);
      LoadBeside(m2, mem[..], bp + USED, f.used, bp + SIZE);
      ghost var m3 := mem[..];
      StoreWord(mem, bp + PREV, f.previous);
      StoreField(m3, mem[..], bp, PREV, f.previous, bp);
      ghost var m4 := mem[..];
      StoreWord(mem, bp + NEXT, f.next);
      StoreField(m4, mem[..], bp, NEXT, f.next, bp);
      ghost var m5 := mem[..];
      StoreWord(mem, bp + MAGIC2, f.magic2);
      StoreField(m5, mem[..], bp, MAGIC2, f.magic2, bp);
    }

    /** init_heap: one free block over [start, end). */
    constructor (memory: array<Byte>, start: nat, end: nat)
      requires 0 < start && start + HEADER <= end <= memory.Length <= ADDRESS_LIMIT
      modifies memory
      ensures Valid() && mem == memory && HeapInv(View())
      ensures View() == Heap([Block(start, end - start - HEADER, 0)], start, end)
    {
      mem, heapStart, heapEnd := memory, start, end;
      blocks := [Block(start, end - start - HEADER, 0)];
      new;
      WriteHeader(start, Fields(MAGIC, end - start - HEADER, 0, 0, 0, MAGIC));
    }

    /** One header field of block k. */
    method Get(bp: nat, off: nat, ghost k: nat) returns (v: nat)
      requires Valid() && At(bp, k) && Offset(off)
      ensures var f := Expected(blocks, k);
              v == if off == SIZE then f.size else if off == USED then f.used else if off == NEXT then f.next
                   else if off == PREV then f.previous else MAGIC
    {
      assert HeaderOk(mem[..], blocks, k);
      v := LoadWord(mem, bp + off);
    }

    /** Write one field of the header of block i of bs, a list that tiles the heap. */
    method Put(bp: nat, off: nat, v: nat, ghost bs: seq<Block>, ghost i: nat)
      requires Tiles(bs, heapStart, heapEnd) && heapEnd <= mem.Length && Offset(off) && v < WORD_LIMIT
      requires i < |bs| && bs[i].addr == bp
      modifies mem
      ensures Wrote(old(mem[..]), mem[..], bs, i, off, v) && Untouched(old(mem[..]), mem[..], Live(bs))
    {
      Bounds(bs, heapStart, heapEnd, i);
      StoreWord(mem, bp + off, v);
      StoreWrote(old(mem[..]), mem[..], bs, heapStart, heapEnd, i, off, v);
    }

    method PutHeader(bp: nat, size: nat, next: nat, previous: nat, ghost bs: seq<Block>, ghost i: nat)
      requires Tiles(bs, heapStart, heapEnd) && heapEnd <= mem.Length && i < |bs| && bs[i].addr == bp
      requires size < WORD_LIMIT && next < WORD_LIMIT && previous < WORD_LIMIT
      modifies mem
      ensures Rewrote(old(mem[..]), mem[..], bs, i, Fields(MAGIC, size, 0, next, previous, MAGIC))
      ensures Untouched(old(mem[..]), mem[..], Live(bs))
    {
      Bounds(bs, heapStart, heapEnd, i);
      WriteHeader(bp, Fields(MAGIC, size, 0, next, previous, MAGIC));
      HeaderRewrote(old(mem[..]), mem[..], bs, heapStart, heapEnd, i, Fields(MAGIC, size, 0, next, previous, MAGIC));
    }

    method SetUsedField(bp: nat, used: nat, ghost k: nat)
      requires Valid() && At(bp, k) && used <= blocks[k].size
      modifies this`blocks, mem
      ensures Valid() && blocks == SetUsed(old(blocks), k, used) && Untouched(old(mem[..]), mem[..], Live(old(blocks)))
    {
      ghost var m, bs := mem[..], blocks;
      Bounds(bs, heapStart, heapEnd, k);
      Put(bp, USED, used, bs, k);
      UsedImage(m, mem[..], bs, k, used);
      SetUsedWell(bs, heapStart, heapEnd, k, used);
      blocks := SetUsed(bs, k, used);
    }

    /** The writes that join block k and the block behind it. */
    method Join(bp: nat, ghost k: nat)
      requires Valid() && At(bp, k) && k + 1 < |blocks|
      modifies this`blocks, mem
      ensures Valid() && blocks == MergeAt(old(blocks), k) && Untouched(old(mem[..]), mem[..], Live(old(blocks)))
    {
      Bounds(blocks, heapStart, heapEnd, k + 1);
      assert blocks[k + 1].addr == End(blocks[k]);
      var second := Get(bp, NEXT, k);
      var size := Get(bp, SIZE, k);
      var size2 := Get(second, SIZE, k + 1);
      var next := Get(second, NEXT, k + 1);
      if k + 2 < |blocks| { Bounds(blocks, heapStart, heapEnd, k + 2); }
      Link(bp, size + size2 + HEADER, next, k);
    }

    method LinkWrites(bp: nat, size: nat, next: nat, ghost bs: seq<Block>, ghost k: nat)
      requires Tiles(bs, heapStart, heapEnd) && heapEnd <= mem.Length && k + 1 < |bs| && bs[k].addr == bp < WORD_LIMIT
      requires size == MergedSize(bs, k) < WORD_LIMIT && next == Behind(bs, k) < WORD_LIMIT
      requires k + 2 < |bs| ==> next != 0
      modifies mem
      ensures Image(old(mem[..]), bs) ==> Image(mem[..], MergeAt(bs, k))
      ensures Untouched(old(mem[..]), mem[..], Live(bs))
    {
      Put(bp, SIZE, size, bs, k);
      ghost var m1 := mem[..];
      Put(bp, NEXT, next, bs, k);
      ghost var m2 := mem[..];
      UntouchedChain(old(mem[..]), m1, m2, Live(bs));
      if next != 0 {
        Put(next, PREV, bp, bs, k + 2);
        UntouchedChain(old(mem[..]), m2, mem[..], Live(bs));
      }
      if Image(old(mem[..]), bs) { MergeImage(old(mem[..]), m1, m2, mem[..], bs, k); }
    }

    method Link(bp: nat, size: nat, next: nat, ghost k: nat)
      requires Valid() && At(bp, k) && k + 1 < |blocks| && size == MergedSize(blocks, k) < WORD_LIMIT
      requires next == Behind(blocks, k) < WORD_LIMIT && bp < WORD_LIMIT && (k + 2 < |blocks| ==> next != 0)
      modifies this`blocks, mem
      ensures Valid() && blocks == MergeAt(old(blocks), k) && Untouched(old(mem[..]), mem[..], Live(old(blocks)))
    {
      ghost var bs := blocks;
      LinkWrites(bp, size, next, bs, k);
      MergeWell(bs, heapStart, heapEnd, k);
      blocks := MergeAt(bs, k);
    }

    /** merge_free_pair: the merged block, or the one behind, or NULL at the end. */
    method MergeFreePair(bp: nat, ghost k: nat) returns (r: nat, ghost at: nat)
      requires Valid() && At(bp, k)
      modifies this`blocks, mem
      ensures Valid() && Untouched(old(mem[..]), mem[..], Live(old(blocks)))
      ensures k + 1 == |old(blocks)| ==> r == 0 && blocks == old(blocks) && at == k + 1
      ensures k + 1 < |old(blocks)| ==>
                if Free(old(blocks)[k]) && Free(old(blocks)[k + 1])
                then blocks == MergeAt(old(blocks), k) && at == k && At(r, k)
                else blocks == old(blocks) && at == k + 1 && At(r, k + 1)
    {
      Bounds(blocks, heapStart, heapEnd, k);
      var second := Get(bp, NEXT, k);
      if k + 1 < |blocks| { Bounds(blocks, heapStart, heapEnd, k + 1); }
      if second == 0 { return 0, k + 1; }
      var used := Get(bp, USED, k);
      if used != 0 { return second, k + 1; }
      var used2 := Get(second, USED, k + 1);
      if used2 != 0 { return second, k + 1; }
      Join(bp, k);
      return bp, k;
    }

    /** garbage_collect: one walk over the list; the blocks from the cursor on get fewer. */
    method GarbageCollect()
      requires Valid()
      modifies this`blocks, mem
      ensures Valid() && blocks == Coalesce(old(blocks)) && Untouched(old(mem[..]), mem[..], Live(old(blocks)))
      ensures Live(blocks) == Live(old(blocks))
    {
      ghost var m, bs := mem[..], blocks;
      ghost var k: nat := 0;
      var bp := heapStart;
      while bp != 0
        invariant Valid() && k <= |blocks| && Live(blocks) == Live(bs)
        invariant if k == |blocks| then bp == 0 else bp != 0 && At(bp, k)
        invariant Coalesce(bs) == blocks[..k] + Coalesce(blocks[k..])
        invariant Untouched(m, mem[..], Live(bs))
        decreases |blocks| - k
      {
        ghost var m1, cs := mem[..], blocks;
        Bounds(cs, heapStart, heapEnd, k);
        ghost var at: nat;
        bp, at := MergeFreePair(bp, k);
        UntouchedChain(m, m1, mem[..], Live(bs));
        CoalesceStep(cs, blocks, k, at);
        if blocks != cs { MergeLive(cs, k); }
        k := at;
        if k < |blocks| { Bounds(blocks, heapStart, heapEnd, k); }
      }
      assert blocks[..k] == blocks && blocks[k..] == [];
      CoalesceWell(bs, heapStart, heapEnd);
    }

    /** split_free_block. */
    method SplitFreeBlock(bp: nat, len: nat, ghost k: nat)
      requires Valid() && At(bp, k) && len < INT_LIMIT + 8
      modifies this`blocks, mem
      ensures Valid() && blocks == SplitAt(old(blocks), k, len) && Untouched(old(mem[..]), mem[..], Live(old(blocks)))
    {
      var n := Round(len);
      var used := Get(bp, USED, k);
      if used != 0 { return; }
      var size := Get(bp, SIZE, k);
      if size < n { return; }
      if size < n + MINBLOCK { return; }
      var next := Get(bp, NEXT, k);
      SplitWell(blocks, heapStart, heapEnd, k, len);
      if k + 1 < |blocks| { Bounds(blocks, heapStart, heapEnd, k + 1); }
      Cut(bp, n, size, next, k);
    }

    /** Shrink block k of cs to n bytes and put the block at `second` behind it. */
    method Shrink(bp: nat, n: nat, second: nat, next: nat, ghost cs: seq<Block>, ghost k: nat)
      returns (ghost m2: seq<Byte>, ghost m3: seq<Byte>)
      requires Tiles(cs, heapStart, heapEnd) && heapEnd <= mem.Length && k + 1 < |cs| && cs[k].addr == bp
      requires second < WORD_LIMIT && n < WORD_LIMIT && next == Behind(cs, k) && (k + 2 < |cs| ==> next != 0)
      modifies mem
      ensures Wrote(old(mem[..]), m2, cs, k, SIZE, n) && Wrote(m2, m3, cs, k, NEXT, second)
      ensures if k + 2 < |cs| then Wrote(m3, mem[..], cs, k + 2, PREV, second) else mem[..] == m3
      ensures Untouched(old(mem[..]), mem[..], Live(cs))
    {
      Put(bp, SIZE, n, cs, k);
      m2 := mem[..];
      Put(bp, NEXT, second, cs, k);
      m3 := mem[..];
      UntouchedChain(old(mem[..]), m2, m3, Live(cs));
      if next != 0 {
        Put(next, PREV, second, cs, k + 2);
        UntouchedChain(old(mem[..]), m3, mem[..], Live(cs));
      }
    }

    /** The writes that cut block k of bs in two, giving cs. */
    method CutWrites(bp: nat, n: nat, size: nat, next: nat, ghost bs: seq<Block>, ghost cs: seq<Block>, ghost k: nat)
      requires k < |bs| && Free(bs[k]) && bs[k].size >= n + MINBLOCK && cs == bs[..k] + Halves(bs[k], n) + bs[k + 1..]
      requires Tiles(cs, heapStart, heapEnd) && heapEnd <= mem.Length <= WORD_LIMIT && cs[k].addr == bp
      requires cs[k + 1].addr == bp + HEADER + n < WORD_LIMIT && n < WORD_LIMIT
               && size == bs[k].size - n - HEADER < WORD_LIMIT
      requires if k + 1 < |bs| then cs[k + 2] == bs[k + 1] && next == bs[k + 1].addr < WORD_LIMIT
               && next != 0 else next == 0
      modifies mem
      ensures Image(old(mem[..]), bs) ==> Image(mem[..], cs)
      ensures Untouched(old(mem[..]), mem[..], Live(cs))
    {
      assert bs[k].addr == cs[k].addr && SecondHalf(bs, k, n) == Fields(MAGIC, size, 0, next, bp, MAGIC);
      var second := bp + HEADER + n;
      PutHeader(second, size, next, bp, cs, k + 1);
      ghost var m1 := mem[..];
      ghost var m2, m3 := Shrink(bp, n, second, next, cs, k);
      UntouchedChain(old(mem[..]), m1, mem[..], Live(cs));
      if Image(old(mem[..]), bs) { SplitImage(old(mem[..]), m1, m2, m3, mem[..], bs, cs, k, n); }
    }

    method Cut(bp: nat, n: nat, size: nat, next: nat, ghost k: nat)
      requires Valid() && At(bp, k) && Free(blocks[k]) && size == blocks[k].size >= n + MINBLOCK
      requires next == (if k + 1 < |blocks| then blocks[k + 1].addr else 0) < WORD_LIMIT
      requires k + 1 < |blocks| ==> next != 0
      requires Well(blocks[..k] + Halves(blocks[k], n) + blocks[k + 1..], heapStart, heapEnd)
      modifies this`blocks, mem
      ensures Valid() && blocks == old(blocks)[..k] + Halves(old(blocks)[k], n) + old(blocks)[k + 1..]
      ensures Untouched(old(mem[..]), mem[..], Live(old(blocks)))
    {
      ghost var bs := blocks;
      ghost var cs := bs[..k] + Halves(bs[k], n) + bs[k + 1..];
      Bounds(bs, heapStart, heapEnd, k);
      HalvesLive(bs[..k], bs[k], bs[k + 1..], n);
      Around(bs, k);
      assert k + 1 < |bs| ==> cs[k + 2] == bs[k + 1];
      CutWrites(bp, n, size - n - HEADER, next, bs, cs, k);
      blocks := cs;
    }

    // -------------------------------------------------------------- walks over the list

    /** The block that holds addr, or NULL. */
    method FindHolding(addr: nat) returns (bp: nat, ghost k: nat)
      requires Valid()
      ensures k == Holding(blocks, addr) && if k == |blocks| then bp == 0 else bp != 0 && At(bp, k)
    {
      bp, k := heapStart, 0;
      while bp != 0
        invariant k <= |blocks| && if k == |blocks| then bp == 0 else bp != 0 && At(bp, k)
        invariant forall j :: 0 <= j < k ==> !(Payload(blocks[j]) <= addr < End(blocks[j]))
        decreases |blocks| - k
      {
        var size := Get(bp, SIZE, k);
        if bp + HEADER <= addr < bp + HEADER + size { break; }
        bp := Get(bp, NEXT, k);
        k := k + 1;
        if k < |blocks| { Bounds(blocks, heapStart, heapEnd, k); }
      }
      HoldingFirst(blocks, addr, k);
    }

    /** The block whose payload starts at ptr, or NULL. */
    method FindStarting(ptr: nat) returns (bp: nat, ghost k: nat)
      requires Valid()
      ensures k == Starting(blocks, ptr) && if k == |blocks| then bp == 0 else bp != 0 && At(bp, k)
    {
      bp, k := heapStart, 0;
      while bp != 0
        invariant k <= |blocks| && if k == |blocks| then bp == 0 else bp != 0 && At(bp, k)
        invariant forall j :: 0 <= j < k ==> Payload(blocks[j]) != ptr
        decreases |blocks| - k
      {
        if bp + HEADER == ptr { break; }
        bp := Get(bp, NEXT, k);
        k := k + 1;
        if k < |blocks| { Bounds(blocks, heapStart, heapEnd, k); }
      }
      StartingFirst(blocks, ptr, k);
    }

    /** The first free block of at least n bytes, or NULL and the last block. */
    method FindFit(n: nat) returns (bp: nat, last: nat, ghost k: nat)
      requires Valid()
      ensures k == FirstFit(blocks, n) && if k == |blocks| then bp == 0 else bp != 0 && At(bp, k)
      ensures k == |blocks| ==> At(last, |blocks| - 1)
    {
      bp, last, k := heapStart, 0, 0;
      while bp != 0
        invariant k <= |blocks| && if k == |blocks| then bp == 0 else bp != 0 && At(bp, k)
        invariant forall j :: 0 <= j < k ==> !(Free(blocks[j]) && n <= blocks[j].size)
        invariant k > 0 ==> At(last, k - 1)
        decreases |blocks| - k
      {
        var used := Get(bp, USED, k);
        var size := Get(bp, SIZE, k);
        if used == 0 && n <= size { break; }
        last := bp;
        bp := Get(bp, NEXT, k);
        k := k + 1;
        if k < |blocks| { Bounds(blocks, heapStart, heapEnd, k); }
      }
      FirstFitIs(blocks, n, k);
    }

    // -------------------------------------------------------------- free

    method Release(addr: nat)
      requires Valid()
      modifies this`blocks, mem
      ensures Valid() && View() == FreeAt(old(View()), addr) && Untouched(old(mem[..]), mem[..], Live(blocks))
      ensures old(HeapInv(View())) ==> HeapInv(View())
    {
      if HeapInv(View()) { FreeInv(View(), addr); }
      if addr == 0 { return; }
      var bp: nat;
      ghost var k: nat;
      bp, k := FindHolding(addr);
      if bp == 0 { return; }
      var used := Get(bp, USED, k);
      if used == 0 { return; }
      ReleaseBlock(bp, k);
    }

    method ReleaseBlock(bp: nat, ghost k: nat)
      requires Valid() && At(bp, k)
      modifies this`blocks, mem
      ensures Valid() && blocks == Coalesce(SetUsed(old(blocks), k, 0))
              && Untouched(old(mem[..]), mem[..], Live(blocks))
    {
      ghost var m, bs := mem[..], blocks;
      SetUsedField(bp, 0, k);
      ghost var m1, cs := mem[..], blocks;
      forall x | x in Live(cs) ensures x in Live(bs) {
        LiveMember(cs, x);
        LiveMember(bs, x);
      }
      UntouchedSubset(m, m1, Live(bs), Live(cs));
      GarbageCollect();
      UntouchedChain(m, m1, mem[..], Live(cs));
    }

    // -------------------------------------------------------------- malloc

    /** grow_heap: a header at the old heap_end, unlinked, and heap_end moved. */
    method GrowHeap(len: nat, brk: Option<nat>) returns (bp: nat)
      requires 0 < heapEnd <= mem.Length <= ADDRESS_LIMIT && (brk.Some? ==> brk.value <= mem.Length)
      modifies this`heapEnd, mem
      ensures bp == 0 <==> Granted(old(heapEnd), len, brk).None?
      ensures bp == 0 ==> heapEnd == old(heapEnd) && mem[..] == old(mem[..])
      ensures bp != 0 ==> bp == old(heapEnd) && heapEnd == brk.value
                          && HeaderStored(old(mem[..]), mem[..], bp,
                                          Fields(MAGIC, heapEnd - bp - HEADER, 0, 0, 0, MAGIC))
    {
      var req := UpToPage(heapEnd + len + HEADER);
      if brk.None? { return 0; }
      var newEnd := brk.value;
      if newEnd < req { return 0; }
      bp := heapEnd;
      WriteHeader(bp, Fields(MAGIC, newEnd - heapEnd - HEADER, 0, 0, 0, MAGIC));
      heapEnd := newEnd;
    }

    /** last->next = bp and bp->previous = last, for the block x that grow_heap made. */
    method LinkLast(last: nat, bp: nat, ghost m: seq<Byte>, ghost x: Block)
      requires blocks != [] && last == blocks[|blocks| - 1].addr && x.addr == bp && x.used == 0
      requires Well(blocks + [x], heapStart, heapEnd) && 0 < heapStart && heapEnd <= mem.Length <= ADDRESS_LIMIT
      requires Image(m, blocks) && HeaderStored(m, mem[..], bp, Fields(MAGIC, x.size, 0, 0, 0, MAGIC))
      modifies this`blocks, mem
      ensures Valid() && blocks == old(blocks) + [x] && Untouched(m, mem[..], Live(old(blocks) + [x]))
    {
      ghost var cs := blocks + [x];
      ghost var m1 := mem[..];
      HeaderRewrote(m, m1, cs, heapStart, heapEnd, |blocks|, Fields(MAGIC, x.size, 0, 0, 0, MAGIC));
      Bounds(cs, heapStart, heapEnd, |blocks|);
      Bounds(cs, heapStart, heapEnd, |blocks| - 1);
      Put(last, NEXT, bp, cs, |blocks| - 1);
      ghost var m2 := mem[..];
      UntouchedChain(m, m1, m2, Live(cs));
      Put(bp, PREV, last, cs, |blocks|);
      UntouchedChain(m, m2, mem[..], Live(cs));
      AppendImage(m, m1, m2, mem[..], blocks, x);
      blocks := cs;
    }

    /** Split and mark used: the end of malloc on either path. */
    method Take(bp: nat, n: nat, ghost k: nat)
      requires Valid() && At(bp, k) && Free(blocks[k]) && 0 < n == Round(n) <= blocks[k].size && n < INT_LIMIT + 8
      modifies this`blocks, mem
      ensures Valid() && View() == TakeBlock(old(View()), k, n).heap
      ensures Untouched(old(mem[..]), mem[..], Live(old(blocks)))
    {
      ghost var m, bs := mem[..], blocks;
      SplitWell(bs, heapStart, heapEnd, k, n);
      SplitLive(bs, k, n);
      SplitFreeBlock(bp, n, k);
      ghost var m1 := mem[..];
      SetUsedField(bp, n, k);
      UntouchedChain(m, m1, mem[..], Live(bs));
    }

    /** grow_heap and the two links: one more free block at the end, or nothing. */
    method Extend(n: nat, brk: Option<nat>, last: nat) returns (bp: nat)
      requires Valid() && (brk.Some? ==> brk.value <= mem.Length) && At(last, |blocks| - 1)
      modifies this, mem
      ensures Valid() && heapStart == old(heapStart) && Untouched(old(mem[..]), mem[..], Live(old(blocks)))
      ensures var more := Granted(old(heapEnd), n, brk);
              if more.None? then bp == 0 && View() == old(View())
              else bp == old(heapEnd) != 0 && heapEnd == bp + HEADER + more.value
                   && blocks == old(blocks) + [Block(bp, more.value, 0)]
    {
      ghost var m, bs := mem[..], blocks;
      Bounds(bs, heapStart, heapEnd, |bs| - 1);
      bp := GrowHeap(n, brk);
      if bp == 0 { return; }
      ghost var x := Block(bp, heapEnd - bp - HEADER, 0);
      AppendWell(bs, heapStart, bp, x.size);
      LinkLast(last, bp, m, x);
    }

    /** What malloc does when no block fits: grow, link, merge with a free last block. */
    method GrowList(n: nat, brk: Option<nat>, last: nat) returns (bp: nat, ghost k: nat)
      requires Valid() && (brk.Some? ==> brk.value <= mem.Length) && At(last, |blocks| - 1)
      modifies this, mem
      ensures Valid() && Untouched(old(mem[..]), mem[..], Live(old(blocks)))
      ensures var more := Granted(old(heapEnd), n, brk);
              if more.None? then bp == 0 && View() == old(View())
              else View() == Grow(old(View()), more.value) && k == |blocks| - 1 && At(bp, k) && bp != 0
                   && Free(blocks[k]) && n <= blocks[k].size
    {
      ghost var m, bs, hi := mem[..], blocks, heapEnd;
      k := 0;
      bp := Extend(n, brk, last);
      if bp == 0 { return; }
      ghost var m1, cs := mem[..], blocks;
      AppendWell(bs, heapStart, hi, Granted(hi, n, brk).value);
      bp, k := MergeFreePair(last, |bs| - 1);
      UntouchedChain(m, m1, mem[..], Live(bs));
      Bounds(blocks, heapStart, heapEnd, k);
    }

    method Allocate(len: nat, brk: Option<nat>) returns (r: nat)
      requires Valid() && (brk.Some? ==> brk.value <= mem.Length)
      modifies this, mem
      ensures Valid() && Untouched(old(mem[..]), mem[..], Live(old(blocks)))
      ensures Answer(View(), r) == Malloc(old(View()), len, Granted(old(heapEnd), Request(len), brk))
      ensures old(HeapInv(View())) ==> HeapInv(View())
    {
      ghost var h := View();
      if HeapInv(h) { MallocInv(h, len, Granted(heapEnd, Request(len), brk)); }
      if len >= INT_LIMIT { return 0; }
      var n := Round(len + 4);
      var bp, last: nat;
      ghost var k: nat;
      bp, last, k := FindFit(n);
      if bp != 0 {
        Take(bp, n, k);
        return bp + HEADER;
      }
      ghost var m, bs := mem[..], blocks;
      bp, k := GrowList(n, brk, last);
      if bp == 0 { return 0; }
      ghost var m1 := mem[..];
      GrowLive(h, Granted(h.hi, n, brk).value);
      Take(bp, n, k);
      UntouchedChain(m, m1, mem[..], Live(bs));
      return bp + HEADER;
    }

    // -------------------------------------------------------------- realloc

    /** Into the free block behind. */
    method AbsorbNext(bp: nat, size: nat, ghost k: nat)
      requires Valid() && At(bp, k) && !Free(blocks[k]) && Absorbs(blocks, k, size) && blocks[k].size < size
      modifies this`blocks, mem
      ensures Valid() && blocks == SetUsed(MergeAt(old(blocks), k), k, size)
      ensures Untouched(old(mem[..]), mem[..], Live(old(blocks)))
    {
      ghost var m, bs := mem[..], blocks;
      Join(bp, k);
      ghost var m1, cs := mem[..], blocks;
      SetUsedField(bp, size, k);
      forall b | b in Live(bs) ensures Agree(m1, mem[..], Payload(b), b.size) {
        AbsorbedLive(bs, k, b);
      }
      UntouchedChain(m, m1, mem[..], Live(bs));
    }

    /** memcpy of n bytes from the payload of block k to that of block j. */
    method CopyPayload(ghost k: nat, ghost j: nat, src: nat, dst: nat, n: nat)
      requires Valid() && k < |blocks| && j < |blocks| && k != j && src == Payload(blocks[k])
               && dst == Payload(blocks[j])
      requires n <= blocks[k].size && n <= blocks[j].size
      modifies mem
      ensures Valid() && Carried(old(mem[..]), mem[..], src, dst, n)
      ensures forall i :: 0 <= i < |blocks| && i != j ==>
              Agree(old(mem[..]), mem[..], Payload(blocks[i]), blocks[i].size)
    {
      ghost var m := mem[..];
      Bounds(blocks, heapStart, heapEnd, k);
      Bounds(blocks, heapStart, heapEnd, j);
      PayloadsDisjoint(blocks, heapStart, heapEnd, k, j);
      CopyBytes(mem, dst, src, n);
      CopiedSlice(m, mem[..], src, dst, n);
      PayloadWriteImage(m, mem[..], blocks, heapStart, heapEnd, j);
    }

    /** free of the payload of block k: every other live payload keeps its bytes. */
    method ReleaseAt(bp: nat, ghost k: nat)
      requires Valid() && HeapInv(View()) && At(bp, k) && !Free(blocks[k])
      modifies this`blocks, mem
      ensures Valid() && View() == FreeAt(old(View()), bp + HEADER)
      ensures LiveKept(old(mem[..]), mem[..], old(blocks), k, k)
    {
      ghost var h := View();
      Release(bp + HEADER);
      FreedLive(old(mem[..]), mem[..], h, k, bp + HEADER);
    }

    /** memcpy(rp, ptr, bp->size_used); free(ptr) */
    method CopyAndRelease(bp: nat, r: nat, ghost k: nat, ghost j: nat)
      requires Valid() && HeapInv(View()) && At(bp, k) && j < |blocks| && k != j && r == Payload(blocks[j])
      requires !Free(blocks[k]) && !Free(blocks[j]) && blocks[k].used <= blocks[j].size
      modifies this`blocks, mem
      ensures Valid() && View() == FreeAt(old(View()), bp + HEADER)
      ensures Carried(old(mem[..]), mem[..], Payload(old(blocks)[k]), Payload(old(blocks)[j]), old(blocks)[k].used)
      ensures LiveKept(old(mem[..]), mem[..], old(blocks), k, j)
    {
      ghost var m, cs := mem[..], blocks;
      var used := Get(bp, USED, k);
      CopyPayload(k, j, bp + HEADER, r, used);
      ghost var m1 := mem[..];
      ReleaseAt(bp, k);
      CopyKept(m, m1, mem[..], cs, k, j);
    }

    /** malloc of a larger block: block k is still there, at k1, and the new block is at j. */
    method AllocateLarger(size: nat, brk: Option<nat>, ghost k: nat) returns (r: nat, ghost k1: nat, ghost j: nat)
      requires Valid() && HeapInv(View()) && (brk.Some? ==> brk.value <= mem.Length)
      requires k < |blocks| && !Free(blocks[k]) && blocks[k].size < size
      modifies this, mem
      ensures Valid() && HeapInv(View()) && Untouched(old(mem[..]), mem[..], Live(old(blocks)))
      ensures Answer(View(), r) == Malloc(old(View()), size, Granted(old(heapEnd), Request(size), brk))
      ensures r == 0 ==> View() == old(View())
      ensures r != 0 ==> k1 < |blocks| && j < |blocks| && k1 != j && blocks[k1] == old(blocks)[k]
                         && r == Payload(blocks[j]) && LiveBut(blocks, j) == Live(old(blocks))
                         && !Free(blocks[j]) && blocks[k1].used <= blocks[j].size
    {
      ghost var bs := blocks;
      MallocInv(View(), size, Granted(heapEnd, Request(size), brk));
      k1, j := 0, 0;
      r := Allocate(size, brk);
      if r != 0 {
        j := Starting(blocks, r);
        k1 := StillThere(bs, blocks, k, j);
      }
    }

    /** The hard way: allocate, giving the heap g, then copy and free the old block. */
    method Move(bp: nat, size: nat, brk: Option<nat>, ghost k: nat) returns (r: nat, ghost g: Heap)
      requires Valid() && HeapInv(View()) && (brk.Some? ==> brk.value <= mem.Length)
      requires At(bp, k) && !Free(blocks[k]) && blocks[k].size < size
      modifies this, mem
      ensures Valid() && GotThenFreed(old(View()), View(), bp + HEADER, size,
                                      Granted(old(heapEnd), Request(size), brk), g, r)
      ensures Moved(old(mem[..]), mem[..], old(blocks), k, r, size)
    {
      ghost var m, bs := mem[..], blocks;
      assert bs[k].used <= bs[k].size;
      ghost var k1: nat, j: nat;
      r, k1, j := AllocateLarger(size, brk, k);
      g := View();
      if r == 0 { return; }
      ghost var m1, cs := mem[..], blocks;
      CopyAndRelease(bp, r, k1, j);
      MoveKept(m, m1, mem[..], bs, cs, g.lo, g.hi, k, k1, j);
    }

    /** memcpy(rp, ptr, bp->size_used) when bp was free before the malloc: nothing, or a copy onto itself. */
    method CopyFreed(bp: nat, r: nat, ghost k: nat)
      requires Valid() && At(bp, k) && (r == bp + HEADER || Free(blocks[k])) && r + blocks[k].used <= mem.Length
      modifies mem
      ensures Valid() && mem[..] == old(mem[..])
    {
      ghost var m := mem[..];
      Bounds(blocks, heapStart, heapEnd, k);
      var used := Get(bp, USED, k);
      CopyBytes(mem, r, bp + HEADER, used);
      assert mem[..] == m;
    }

    method CopyAndReleaseFreed(bp: nat, ptr: nat, r: nat, ghost k: nat)
      requires Valid() && At(bp, k) && (r == ptr || Free(blocks[k])) && r + blocks[k].used <= mem.Length
      requires ptr == bp + HEADER
      modifies this`blocks, mem
      ensures Valid() && View() == FreeAt(old(View()), ptr) && Untouched(old(mem[..]), mem[..], Live(blocks))
    {
      CopyFreed(bp, r, k);
      Release(ptr);
    }

    /** malloc of more than the free block k holds: that is still a block, at k1, free or the one just taken. */
    method AllocateBeside(bp: nat, size: nat, brk: Option<nat>, ghost k: nat) returns (r: nat, ghost k1: nat)
      requires Valid() && HeapInv(View()) && (brk.Some? ==> brk.value <= mem.Length)
      requires At(bp, k) && Free(blocks[k]) && blocks[k].size < size
      modifies this, mem
      ensures Valid() && Untouched(old(mem[..]), mem[..], Live(old(blocks)))
      ensures Answer(View(), r) == Malloc(old(View()), size, Granted(old(heapEnd), Request(size), brk))
      ensures r != 0 ==> At(bp, k1) && (r == bp + HEADER || Free(blocks[k1])) && r + blocks[k1].used <= mem.Length
    {
      ghost var h, more := View(), Granted(heapEnd, Request(size), brk);
      MallocInv(h, size, more);
      k1 := k;
      r := Allocate(size, brk);
      if r == 0 { return; }
      k1 := FreedStays(h, k, size, more);
      Bounds(blocks, heapStart, heapEnd, k1);
      Bounds(blocks, heapStart, heapEnd, Starting(blocks, r));
    }

    /** realloc of a block that is free, to more than it holds: malloc, copy nothing, and free. */
    method MoveFreed(bp: nat, ptr: nat, size: nat, brk: Option<nat>, ghost k: nat, ghost more: Option<nat>)
      returns (r: nat, ghost g: Heap)
      requires Valid() && HeapInv(View()) && (brk.Some? ==> brk.value <= mem.Length)
      requires At(bp, k) && Free(blocks[k]) && blocks[k].size < size
      requires ptr == bp + HEADER && more == Granted(heapEnd, Request(size), brk)
      modifies this, mem
      ensures Valid() && Untouched(old(mem[..]), mem[..], Live(old(blocks))) && r <= mem.Length
      ensures GotThenFreed(old(View()), View(), ptr, size, more, g, r)
    {
      ghost var h, m := View(), mem[..];
      ghost var k1;
      r, k1 := AllocateBeside(bp, size, brk, k);
      g := View();
      if r == 0 { return; }
      ghost var m1 := mem[..];
      CopyAndReleaseFreed(bp, ptr, r, k1);
      FreedUntouched(m, m1, mem[..], h, k, ptr, size, more, g, r, View());
    }

    /** The hard way, for any block that is too small. */
    method Replace(bp: nat, ptr: nat, size: nat, brk: Option<nat>, ghost k: nat, ghost more: Option<nat>)
      returns (r: nat, ghost g: Heap)
      requires Valid() && HeapInv(View()) && (brk.Some? ==> brk.value <= mem.Length) && At(bp, k)
               && blocks[k].size < size
      requires ptr == bp + HEADER && more == Granted(heapEnd, Request(size), brk)
      modifies this, mem
      ensures Valid() && GotThenFreed(old(View()), View(), ptr, size, more, g, r)
      ensures Moved(old(mem[..]), mem[..], old(blocks), k, r, size)
    {
      ghost var m, bs := mem[..], blocks;
      Bounds(blocks, heapStart, heapEnd, k);
      var used := Get(bp, USED, k);
      if used > 0 {
        r, g := Move(bp, size, brk, k);
      } else {
        r, g := MoveFreed(bp, ptr, size, brk, k, more);
        FreedMoved(m, mem[..], bs, k, r, size);
      }
    }

    /** The two paths that keep the block where it is; a freed one becomes live again. */
    method StayPut(bp: nat, size: nat, ghost k: nat)
      requires Valid() && At(bp, k) && (size <= blocks[k].size || (!Free(blocks[k]) && Absorbs(blocks, k, size)))
      modifies this`blocks, mem
      ensures Valid()
      ensures View() == Stayed(old(View()), k, size) && Moved(old(mem[..]), mem[..], old(blocks), k, bp + HEADER, size)
    {
      ghost var m, bs := mem[..], blocks;
      Bounds(blocks, heapStart, heapEnd, k);
      var here := Get(bp, SIZE, k);
      if size <= here { SetUsedField(bp, size, k); } else { AbsorbNext(bp, size, k); }
      if Free(bs[k]) {
        FreedMoved(m, mem[..], bs, k, bp + HEADER, size);
      } else {
        StayedPut(m, mem[..], bs, k, size);
      }
    }

    /** realloc of block k, at ptr, to a nonzero size: the first min(used, size) bytes survive on all
        three paths, and NULL means that nothing happened. */
    method Resize(bp: nat, ptr: nat, size: nat, brk: Option<nat>, ghost k: nat, ghost more: Option<nat>)
      returns (r: nat)
      requires Valid() && HeapInv(View()) && (brk.Some? ==> brk.value <= mem.Length)
      requires At(bp, k) && ptr == bp + HEADER && size > 0 && more == Granted(heapEnd, Request(size), brk)
      modifies this, mem
      ensures Valid() && Answer(View(), r) == Realloc(old(View()), ptr, size, more)
      ensures Moved(old(mem[..]), mem[..], old(blocks), k, r, size)
    {
      var here := Get(bp, SIZE, k);
      var room := RoomBehind(bp, size, k);
      ghost var h := View();
      if Free(blocks[k]) { FreedAlone(h, k, size); }
      if size <= here || room {
        StayPut(bp, size, k);
        r := ptr;
        ReallocHere(h, k, ptr, size, more, View());
      } else {
        ghost var g;
        r, g := Replace(bp, ptr, size, brk, k, more);
        ReallocMoves(h, k, ptr, size, more, g, r, View());
      }
    }

    /** realloc of any pointer. */
    method Reallocate(ptr: nat, size: nat, brk: Option<nat>) returns (r: nat)
      requires Valid() && HeapInv(View()) && (brk.Some? ==> brk.value <= mem.Length)
      modifies this, mem
      ensures Valid() && HeapInv(View())
      ensures Answer(View(), r) == Realloc(old(View()), ptr, size, Granted(old(heapEnd), Request(size), brk))
      ensures OthersKept(old(mem[..]), mem[..], Live(old(blocks)), ptr)
      ensures size > 0 && r == 0 ==> Untouched(old(mem[..]), mem[..], Live(old(blocks)))
      ensures var i := Starting(old(blocks), ptr);
              size > 0 && ptr != 0 && r != 0 ==>
                i < |old(blocks)| && Carried(old(mem[..]), mem[..], ptr, r, Min(old(blocks)[i].used, size))
      ensures size > 0 && (ptr == 0 || LiveAt(old(View()), ptr)) ==>
                if r == 0 then View() == old(View()) else Holds(View(), r, size)
      ensures size > 0 && r != 0 && ptr != 0 && LiveAt(old(View()), ptr) ==>
                Resized(old(View()), Starting(old(blocks), ptr), size, Answer(View(), r))
    {
      ghost var h, m, more := View(), mem[..], Granted(heapEnd, Request(size), brk);
      ReallocInv(h, ptr, size, more);
      if size > 0 && (ptr == 0 || LiveAt(h, ptr)) {
        ReallocHolds(h, ptr, size, more, Realloc(h, ptr, size, more));
      }
      if size == 0 {
        Release(ptr);
        FreedKept(m, mem[..], h, ptr);
        return 0;
      }
      if ptr == 0 {
        r := Allocate(size, brk);
        return;
      }
      var bp: nat;
      ghost var k: nat;
      bp, k := FindStarting(ptr);
      if bp == 0 { return 0; }
      r := Resize(bp, ptr, size, brk, k, more);
    }

    /** Whether the next block is free and, with its header, makes the room that is asked for. */
    method RoomBehind(bp: nat, size: nat, ghost k: nat) returns (room: bool)
      requires Valid() && At(bp, k)
      ensures room <==> Absorbs(blocks, k, size)
    {
      var np := Get(bp, NEXT, k);
      if k + 1 < |blocks| { Bounds(blocks, heapStart, heapEnd, k + 1); }
      if np == 0 { return false; }
      var used := Get(np, USED, k + 1);
      var here := Get(bp, SIZE, k);
      var there := Get(np, SIZE, k + 1);
      return used == 0 && size <= here + there + HEADER;
    }
  }

  // ---------------------------------------------------------------- realloc, path by path

  function Stayed(h: Heap, k: nat, size: nat): Heap
    requires k < |h.blocks| && (size <= h.blocks[k].size || Absorbs(h.blocks, k, size))
  {
    h.(blocks := SetUsed(if size <= h.blocks[k].size then h.blocks else MergeAt(h.blocks, k), k, size))
  }

  lemma ReallocHere(h: Heap, k: nat, ptr: nat, size: nat, more: Option<nat>, end: Heap)
    requires Tiles(h.blocks, h.lo, h.hi) && k < |h.blocks| && ptr == Payload(h.blocks[k]) && size > 0
    requires size <= h.blocks[k].size || Absorbs(h.blocks, k, size)
    requires end == Stayed(h, k, size)
    ensures Answer(end, ptr) == Realloc(h, ptr, size, more)
  {
    StartingIs(h.blocks, h.lo, h.hi, k);
  }

  /** A malloc takes h to g, and unless it failed freeing ptr takes g to end. */
  ghost predicate GotThenFreed(h: Heap, end: Heap, ptr: nat, size: nat, more: Option<nat>, g: Heap, r: nat) {
    h.blocks != [] && Answer(g, r) == Malloc(h, size, more) && end == if r == 0 then g else FreeAt(g, ptr)
  }

  lemma ReallocMoves(h: Heap, k: nat, ptr: nat, size: nat, more: Option<nat>, g: Heap, r: nat, end: Heap)
    requires Tiles(h.blocks, h.lo, h.hi) && k < |h.blocks| && ptr == Payload(h.blocks[k])
    requires size > h.blocks[k].size && !Absorbs(h.blocks, k, size)
    requires GotThenFreed(h, end, ptr, size, more, g, r)
    ensures Answer(end, r) == Realloc(h, ptr, size, more)
  {
    StartingIs(h.blocks, h.lo, h.hi, k);
  }

  // ---------------------------------------------------------------- bytes across a call

  /** A freed block has no bytes to carry. */
  lemma FreedMoved(m: seq<Byte>, q: seq<Byte>, bs: seq<Block>, k: nat, r: nat, size: nat)
    requires k < |bs| && Free(bs[k]) && Payload(bs[k]) <= |m| && r <= |q| && Untouched(m, q, Live(bs))
    ensures Moved(m, q, bs, k, r, size)
  {
  }

  lemma FreedUntouched(m: seq<Byte>, m1: seq<Byte>, m2: seq<Byte>, h: Heap, k: nat, ptr: nat, size: nat,
                       more: Option<nat>,
                       g: Heap, r: nat, end: Heap)
    requires HeapInv(h) && Enough(size, more) && k < |h.blocks| && Free(h.blocks[k]) && h.blocks[k].size < size
    requires ptr == Payload(h.blocks[k]) && GotThenFreed(h, end, ptr, size, more, g, r) && r != 0
    requires Untouched(m, m1, Live(h.blocks)) && Untouched(m1, m2, Live(end.blocks))
    ensures Untouched(m, m2, Live(h.blocks))
  {
    MallocInv(h, size, more);
    ReallocFreedMoves(h, k, size, more);
    ReallocFreedIff(h, k, size, more);
    forall b | b in Live(h.blocks) ensures Agree(m1, m2, Payload(b), b.size) {
      if Elsewhere(h, k, size) { LiveButMember(g.blocks, Starting(g.blocks, r), b); }
    }
    UntouchedChain(m, m1, m2, Live(h.blocks));
  }

  /** No live payload but the one that holds ptr changed. */
  ghost predicate OthersKept(m: seq<Byte>, r: seq<Byte>, live: seq<Block>, ptr: nat) {
    |m| == |r| && forall b :: b in live && !(Payload(b) <= ptr < End(b)) ==> Agree(m, r, Payload(b), b.size)
  }

  /** The n bytes at `from` before are the n bytes at `to` now. */
  predicate Carried(m: seq<Byte>, r: seq<Byte>, from: nat, to: nat, n: nat) {
    from + n <= |m| && to + n <= |r| && r[to..to + n] == m[from..from + n]
  }

  /** Block k was resized to `size` at r: its first bytes came along, the rest kept still, and
      a NULL leaves every live payload alone. */
  ghost predicate Moved(m: seq<Byte>, q: seq<Byte>, bs: seq<Block>, k: nat, r: nat, size: nat) {
    && k < |bs| && OthersKept(m, q, Live(bs), Payload(bs[k]))
    && (r == 0 ==> Untouched(m, q, Live(bs)))
    && (r != 0 ==> Carried(m, q, Payload(bs[k]), r, if bs[k].used < size then bs[k].used else size))
  }

  lemma AgreeSlice(m: seq<Byte>, r: seq<Byte>, a: nat, size: nat, n: nat)
    requires Agree(m, r, a, size) && n <= size && a + n <= |m|
    ensures r[a..a + n] == m[a..a + n]
  {
  }

  lemma CopiedSlice(m: seq<Byte>, r: seq<Byte>, src: nat, dst: nat, n: nat)
    requires |m| == |r| && src + n <= |m| && dst + n <= |m|
    requires forall k :: dst <= k < dst + n ==> r[k] == m[k - dst + src]
    ensures Carried(m, r, src, dst, n)
  {
    var slice := r[dst..dst + n];
    forall i | 0 <= i < |slice| ensures slice[i] == m[src + i] {
      assert slice[i] == r[dst + i] == m[dst + i - dst + src];
    }
  }

  lemma CarriedOn(m: seq<Byte>, m1: seq<Byte>, m2: seq<Byte>, b: Block, to: nat)
    requires Agree(m, m1, Payload(b), b.size) && b.used <= b.size && Carried(m1, m2, Payload(b), to, b.used)
    ensures Carried(m, m2, Payload(b), to, b.used)
  {
    AgreeSlice(m, m1, Payload(b), b.size, b.used);
  }

  /** A live block keeps at least its own bytes when block k takes in the free one behind it. */
  lemma AbsorbedLive(bs: seq<Block>, k: nat, b: Block)
    requires k + 1 < |bs| && !Free(bs[k]) && Free(bs[k + 1]) && b in Live(bs)
    ensures var cs := MergeAt(bs, k);
            || b in Live(cs)
            || (b == bs[k] && cs[k] in Live(cs) && cs[k].addr == b.addr && cs[k].size >= b.size)
  {
    LiveMember(bs, b);
    LiveMember(MergeAt(bs, k), b);
    LiveMember(MergeAt(bs, k), MergeAt(bs, k)[k]);
    if b != bs[k] { AbsorbedMember(bs, k, b); }
  }

  lemma AbsorbedMember(bs: seq<Block>, k: nat, b: Block)
    requires k + 1 < |bs| && Free(bs[k + 1]) && !Free(b) && b in bs && b != bs[k]
    ensures b in MergeAt(bs, k)
  {
    var i :| 0 <= i < |bs| && bs[i] == b;
    assert MergeAt(bs, k)[if i < k then i else i - 1] == b;
  }

  lemma InPlace(m: seq<Byte>, r: seq<Byte>, live: seq<Block>, b: Block, size: nat)
    requires Untouched(m, r, live) && b in live && b.used <= b.size && End(b) <= |m|
    ensures OthersKept(m, r, live, Payload(b)) && Carried(m, r, Payload(b), Payload(b), Min(b.used, size))
  {
    AgreeSlice(m, r, Payload(b), b.size, Min(b.used, size));
  }

  lemma StayedPut(m: seq<Byte>, r: seq<Byte>, bs: seq<Block>, k: nat, size: nat)
    requires k < |bs| && !Free(bs[k]) && bs[k].used <= bs[k].size && End(bs[k]) <= |m| && Untouched(m, r, Live(bs))
    ensures Moved(m, r, bs, k, Payload(bs[k]), size)
  {
    LiveMember(bs, bs[k]);
    InPlace(m, r, Live(bs), bs[k], size);
  }

  lemma FreedKept(m: seq<Byte>, r: seq<Byte>, h: Heap, ptr: nat)
    requires HeapInv(h) && Untouched(m, r, Live(FreeAt(h, ptr).blocks))
    ensures OthersKept(m, r, Live(h.blocks), ptr)
  {
    FreeInv(h, ptr);
    var i := Holding(h.blocks, ptr);
    forall b | b in Live(h.blocks) && !(Payload(b) <= ptr < End(b)) ensures Agree(m, r, Payload(b), b.size) {
      if i < |h.blocks| { LiveButMember(h.blocks, i, b); }
    }
  }

  /** Live payloads other than those of blocks k and j are the same. */
  ghost predicate LiveKept(m: seq<Byte>, r: seq<Byte>, cs: seq<Block>, k: nat, j: nat) {
    |m| == |r| && forall i :: 0 <= i < |cs| && i != j && i != k && !Free(cs[i]) ==>
      Agree(m, r, Payload(cs[i]), cs[i].size)
  }

  lemma FreedLive(m: seq<Byte>, r: seq<Byte>, h: Heap, k: nat, ptr: nat)
    requires HeapInv(h) && k < |h.blocks| && !Free(h.blocks[k]) && ptr == Payload(h.blocks[k])
    requires Untouched(m, r, Live(FreeAt(h, ptr).blocks))
    ensures LiveKept(m, r, h.blocks, k, k)
  {
    var cs := h.blocks;
    assert cs[k].used <= cs[k].size;
    HoldingIs(cs, h.lo, h.hi, k, ptr);
    FreeInv(h, ptr);
    forall i | 0 <= i < |cs| && i != k && !Free(cs[i]) ensures Agree(m, r, Payload(cs[i]), cs[i].size) {
      LiveMember(cs, cs[i]);
      PayloadsDisjoint(cs, h.lo, h.hi, i, k);
      LiveButMember(cs, k, cs[i]);
    }
  }

  lemma CopyKept(m: seq<Byte>, m1: seq<Byte>, m2: seq<Byte>, cs: seq<Block>, k: nat, j: nat)
    requires k < |cs| && j < |cs| && k != j && !Free(cs[j]) && cs[k].used <= cs[j].size && |m| == |m1|
    requires Carried(m, m1, Payload(cs[k]), Payload(cs[j]), cs[k].used) && LiveKept(m1, m2, cs, k, k)
    requires forall i :: 0 <= i < |cs| && i != j ==> Agree(m, m1, Payload(cs[i]), cs[i].size)
    ensures Carried(m, m2, Payload(cs[k]), Payload(cs[j]), cs[k].used) && LiveKept(m, m2, cs, k, j)
  {
    AgreeSlice(m1, m2, Payload(cs[j]), cs[j].size, cs[k].used);
  }

  lemma MoveKeptOne(m: seq<Byte>, m1: seq<Byte>, m2: seq<Byte>, live: seq<Block>, cs: seq<Block>,
                    lo: nat, hi: nat, k1: nat, j: nat, b: Block)
    requires Well(cs, lo, hi) && k1 < |cs| && j < |cs| && LiveBut(cs, j) == live && Untouched(m, m1, live)
    requires LiveKept(m1, m2, cs, k1, j) && b in live && b != cs[k1]
    ensures Agree(m, m2, Payload(b), b.size)
  {
    NotTwice(cs, lo, hi, j, b);
    LiveButMember(cs, j, b);
    LiveMember(cs, b);
    var i :| 0 <= i < |cs| && cs[i] == b;
    assert Agree(m, m1, Payload(b), b.size) && Agree(m1, m2, Payload(b), b.size);
  }

  lemma MoveKept(m: seq<Byte>, m1: seq<Byte>, m2: seq<Byte>, bs: seq<Block>, cs: seq<Block>,
                 lo: nat, hi: nat, k: nat, k1: nat, j: nat)
    requires Well(cs, lo, hi) && k < |bs| && k1 < |cs| && j < |cs| && cs[k1] == bs[k] && !Free(bs[k])
    requires LiveBut(cs, j) == Live(bs) && Untouched(m, m1, Live(bs)) && LiveKept(m1, m2, cs, k1, j)
    requires Carried(m1, m2, Payload(cs[k1]), Payload(cs[j]), cs[k1].used)
    ensures OthersKept(m, m2, Live(bs), Payload(bs[k]))
    ensures Carried(m, m2, Payload(bs[k]), Payload(cs[j]), bs[k].used)
  {
    assert cs[k1].used <= cs[k1].size;
    LiveMember(bs, bs[k]);
    CarriedOn(m, m1, m2, bs[k], Payload(cs[j]));
    var live := Live(bs);
    forall b | b in live && !(Payload(b) <= Payload(bs[k]) < End(b)) ensures Agree(m, m2, Payload(b), b.size) {
      MoveKeptOne(m, m1, m2, live, cs, lo, hi, k1, j, b);
    }
  }

  /** Block j is not among the others. */
  lemma NotTwice(cs: seq<Block>, lo: nat, hi: nat, j: nat, b: Block)
    requires Tiles(cs, lo, hi) && j < |cs| && b in LiveBut(cs, j)
    ensures b != cs[j]
  {
    LiveMember(cs[..j], b);
    LiveMember(cs[j + 1..], b);
    if b in cs[..j] {
      var i :| 0 <= i < j && cs[..j][i] == b;
      PayloadsDisjoint(cs, lo, hi, i, j);
    } else {
      var i :| 0 <= i < |cs[j + 1..]| && cs[j + 1..][i] == b;
      PayloadsDisjoint(cs, lo, hi, j + 1 + i, j);
    }
  }

  lemma GrowLive(h: Heap, more: nat)
    requires Well(h.blocks, h.lo, h.hi)
    ensures Live(Grow(h, more).blocks) == Live(h.blocks)
  {
    var n := |h.blocks|;
    AppendWell(h.blocks, h.lo, h.hi, more);
    if Free(h.blocks[n - 1]) { MergeLive(h.blocks + [Block(h.hi, more, 0)], n - 1); }
  }

  /** One round of the collector's walk. */
  lemma CoalesceStep(bs: seq<Block>, cs: seq<Block>, k: nat, at: nat)
    requires k < |bs|
    requires k + 1 == |bs| ==> cs == bs && at == k + 1
    requires k + 1 < |bs| ==> if Free(bs[k]) && Free(bs[k + 1]) then cs == MergeAt(bs, k) && at == k
                              else cs == bs && at == k + 1
    ensures bs[..k] + Coalesce(bs[k..]) == cs[..at] + Coalesce(cs[at..])
  {
    var t := bs[k..];
    if k + 1 == |bs| {
      assert cs[..at] == bs[..k] + t && cs[at..] == [];
    } else if Free(bs[k]) && Free(bs[k + 1]) {
      assert cs[..k] == bs[..k] && cs[k..] == MergeAt(t, 0);
    } else {
      assert bs[k..][1..] == bs[k + 1..] && bs[..k + 1] == bs[..k] + [bs[k]];
    }
  }
}
