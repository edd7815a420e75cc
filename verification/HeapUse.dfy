/**
 A program with a block of its own: what it wrote there is what the next realloc carries.
 */
module HeapUse {
  import opened Common
  import opened Words
  import opened HeapBlocks
  import opened HeapCalls
  import opened HeapImage
  import opened HeapAllocator

  lemma OthersStand(m: seq<Byte>, r: seq<Byte>, bs: seq<Block>, k: nat)
    requires k < |bs| && bs[k].size > 0 && |m| == |r|
    requires forall j :: 0 <= j < |bs| && j != k ==> Agree(m, r, Payload(bs[j]), bs[j].size)
    ensures OthersKept(m, r, Live(bs), Payload(bs[k]))
  {
    forall b | b in Live(bs) && !(Payload(b) <= Payload(bs[k]) < End(b)) ensures Agree(m, r, Payload(b), b.size) {
      LiveMember(bs, b);
    }
  }

  /** Bytes written where the program has room for them. */
  method Write(a: Allocator, ptr: nat, data: seq<Byte>)
    requires a.Valid() && |data| > 0 && Holds(a.View(), ptr, |data|)
    modifies a.mem
    ensures a.Valid() && Filled(a.mem[..], ptr, data) && OthersKept(old(a.mem[..]), a.mem[..], Live(a.blocks), ptr)
  {
    ghost var k, m := Starting(a.blocks, ptr), a.mem[..];
    Bounds(a.blocks, a.heapStart, a.heapEnd, k);
    var i := 0;
    while i < |data|
      invariant 0 <= i <= |data|
      invariant forall j :: 0 <= j < a.mem.Length && !(ptr <= j < ptr + i) ==> a.mem[j] == m[j]
      invariant forall j :: 0 <= j < i ==> a.mem[ptr + j] == data[j]
    {
      a.mem[ptr + i] := data[i];
      i := i + 1;
    }
    PayloadWriteImage(m, a.mem[..], a.blocks, a.heapStart, a.heapEnd, k);
    OthersStand(m, a.mem[..], a.blocks, k);
  }

  /** The bytes at ptr begin with data. */
  predicate Filled(m: seq<Byte>, ptr: nat, data: seq<Byte>) {
    ptr + |data| <= |m| && m[ptr..ptr + |data|] == data
  }

  lemma CarriedPart(m: seq<Byte>, r: seq<Byte>, from: nat, to: nat, n: nat, data: seq<Byte>, k: nat)
    requires Filled(m, from, data) && Carried(m, r, from, to, n) && k <= n && k <= |data|
    ensures Filled(r, to, data[..k])
  {
    assert r[to..to + k] == r[to..to + n][..k] && m[from..from + n][..k] == m[from..from + |data|][..k];
  }

  lemma FilledAfter(m: seq<Byte>, q: seq<Byte>, bs: seq<Block>, k: nat, r: nat, size: nat, data: seq<Byte>)
    requires k < |bs| && 0 < |data| <= bs[k].used <= bs[k].size && End(bs[k]) <= |m|
    requires Filled(m, Payload(bs[k]), data)
    requires if r == 0 then Untouched(m, q, Live(bs)) else Carried(m, q, Payload(bs[k]), r, Min(bs[k].used, size))
    ensures if r == 0 then Filled(q, Payload(bs[k]), data) else Filled(q, r, data[..Min(|data|, size)])
  {
    LiveMember(bs, bs[k]);
    if r != 0 {
      CarriedPart(m, q, Payload(bs[k]), r, Min(bs[k].used, size), data, Min(|data|, size));
    } else {
      AgreeSlice(m, q, Payload(bs[k]), bs[k].size, |data|);
    }
  }

  /** realloc of a block that holds data: as many of them as fit are at the new place, or all of them at the old. */
  method ReallocateFilled(a: Allocator, ptr: nat, data: seq<Byte>, size: nat, brk: Option<nat>) returns (r: nat)
    requires a.Valid() && HeapInv(a.View()) && (brk.Some? ==> brk.value <= a.mem.Length) && |data| > 0 && size > 0
    requires ptr != 0 && Holds(a.View(), ptr, |data|) && Filled(a.mem[..], ptr, data)
    modifies a, a.mem
    ensures a.Valid() && HeapInv(a.View()) && (r != 0 ==> Holds(a.View(), r, size))
    ensures if r == 0 then Filled(a.mem[..], ptr, data) else Filled(a.mem[..], r, data[..Min(|data|, size)])
  {
    ghost var m, bs, k := a.mem[..], a.blocks, Starting(a.blocks, ptr);
    Bounds(bs, a.heapStart, a.heapEnd, k);
    r := a.Reallocate(ptr, size, brk);
    FilledAfter(m, a.mem[..], bs, k, r, size, data);
  }

  /** Two reallocs in a row, with the block filled in between: the second carries what was written, as far as
      it fits, and when it fails the first block still stands. */
  method ReallocateTwice(a: Allocator, ptr: nat, data: seq<Byte>, size: nat, brk: Option<nat>, again: Option<nat>)
    returns (r: nat, q: nat)
    requires a.Valid() && HeapInv(a.View()) && (ptr == 0 || LiveAt(a.View(), ptr)) && |data| > 0 && size > 0
    requires (brk.Some? ==> brk.value <= a.mem.Length) && (again.Some? ==> again.value <= a.mem.Length)
    modifies a, a.mem
    ensures a.Valid() && HeapInv(a.View())
    ensures r == 0 ==> q == 0 && a.View() == old(a.View())
    ensures r != 0 && q == 0 ==> Filled(a.mem[..], r, data)
    ensures q != 0 ==> Holds(a.View(), q, size) && Filled(a.mem[..], q, data[..Min(|data|, size)])
  {
    q := 0;
    r := a.Reallocate(ptr, |data|, brk);
    if r == 0 { return; }
    Write(a, r, data);
    q := ReallocateFilled(a, r, data, size, again);
  }
}
