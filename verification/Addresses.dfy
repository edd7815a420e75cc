/** What SetKernelBrk and growStack do to the byte at an address. */
module Addresses {
  import opened Frames
  import opened PageTables
  import opened Regions

  /** The highest address that SetKernelBrk can round up in 32 bits, and the highest it accepts. */
  const LAST_ROUNDED := 0xFFFF_E000
  const HEAP_LIMIT := (KSTACK_START - 1) * PAGESIZE

  /** The entry that translates byte address a of region 0, or of region 1 through table t. */
  function EntryOf<K>(m: Mem<K>, t: K, a: nat): Pte
    requires Table(m, m.zero) && Table(m, t) && a < REGION_1_LIMIT
  {
    if a < REGION_1 then m.maps[m.zero][a / PAGESIZE] else m.maps[t][(a - REGION_1) / PAGESIZE]
  }

  /** A page to read and write, in a frame that was free and is in use for u now. */
  predicate Backed<K>(m: Mem<K>, r: Mem<K>, e: Pte, u: Usage) {
    && e.valid && e.prot == READ_WRITE && e.pfn < |m.usage| == |r.usage|
    && m.usage[e.pfn] == Free && r.usage[e.pfn] == u
  }

  lemma RoundedUp(addr: nat)
    requires 0 < addr <= LAST_ROUNDED
    ensures 0 < BrkPage(addr) && (BrkPage(addr) - 1) * PAGESIZE < addr <= BrkPage(addr) * PAGESIZE
  {
  }

  lemma RoundedBelow(addr: nat, page: nat)
    requires 0 < addr <= LAST_ROUNDED
    ensures BrkPage(addr) <= page <==> addr <= page * PAGESIZE
  {
    RoundedUp(addr);
  }

  /** Which addresses are accepted, and where the break then is: on the first page boundary that is not below the
      address. */
  lemma BreakIs<K>(m: Mem<K>, addr: nat, a: Answer<K>)
    requires Sound(m) && m.brk <= KSTACK_START && addr <= LAST_ROUNDED && a == SetKernelBrk(m, addr)
    ensures a.ok <==> 0 < addr <= HEAP_LIMIT && addr <= (m.brk + m.free) * PAGESIZE
    ensures if a.ok then (a.mem.brk - 1) * PAGESIZE < addr <= a.mem.brk * PAGESIZE else a.mem.brk == m.brk
    ensures addr == 0 || addr > HEAP_LIMIT ==> a.mem == m
  {
    BrkIs(m, addr);
    if addr > 0 {
      RoundedUp(addr);
      RoundedBelow(addr, KSTACK_START - 1);
      RoundedBelow(addr, m.brk + m.free);
    }
  }

  /** Byte b lies in the pages from `from` up to `to`. */
  predicate Between(from: nat, b: nat, to: nat) { from * PAGESIZE <= b < to * PAGESIZE }

  lemma PageBetween(from: nat, b: nat, to: nat)
    ensures Between(from, b, to) <==> from <= b / PAGESIZE < to
  {
  }

  /** A call that succeeds, byte by byte of region 0: from the old break up to the new one a page to read and write
      in a frame that was free, from the new one up to the old one nothing, and elsewhere what was there. */
  lemma BreakBytes<K>(m: Mem<K>, addr: nat, a: Answer<K>, b: nat)
    requires Sound(m) && m.brk <= KSTACK_START && a == SetKernelBrk(m, addr) && a.ok && b < REGION_1
    ensures Table(a.mem, a.mem.zero) && a.mem.zero == m.zero && a.mem.pages == m.pages
    ensures var e := EntryOf(a.mem, m.zero, b);
            if Between(m.brk, b, a.mem.brk) then Backed(m, a.mem, e, Kernel)
            else if Between(a.mem.brk, b, m.brk) then !e.valid
            else e == EntryOf(m, m.zero, b)
  {
    BrkIs(m, addr);
    PageBetween(m.brk, b, a.mem.brk);
    PageBetween(a.mem.brk, b, m.brk);
    if Between(m.brk, b, a.mem.brk) {
      MappedUsed(m, a.mem.(brk := m.brk), m.zero, m.brk, a.mem.brk - m.brk, Kernel, READ_WRITE, b / PAGESIZE);
    }
  }

  /** The heap reaches up to the address asked for. */
  lemma HeapReaches<K>(m: Mem<K>, addr: nat, a: Answer<K>, b: nat)
    requires Sound(m) && m.brk <= KSTACK_START && a == SetKernelBrk(m, addr) && a.ok && addr <= LAST_ROUNDED
    requires m.brk * PAGESIZE <= b < addr
    ensures Table(a.mem, a.mem.zero) && b < REGION_1 && Backed(m, a.mem, EntryOf(a.mem, a.mem.zero, b), Kernel)
  {
    BreakIs(m, addr, a);
    BreakBytes(m, addr, a, b);
  }

  /** Above LAST_ROUNDED the rounding wraps around: the call succeeds, the break is 0 and no page below the old
      break is left. */
  lemma BreakWraps<K>(m: Mem<K>, addr: nat, a: Answer<K>, b: nat)
    requires Sound(m) && m.brk <= KSTACK_START && a == SetKernelBrk(m, addr)
    requires LAST_ROUNDED < addr < 0x1_0000_0000 && b < m.brk * PAGESIZE
    ensures a.ok && a.mem.brk == 0 && Table(a.mem, a.mem.zero) && !EntryOf(a.mem, a.mem.zero, b).valid
  {
    BrkIs(m, addr);
    BreakBytes(m, addr, a, b);
  }

  // ---------------------------------------------------------------- growStack

  function PageStart(addr: nat): (r: nat)
    ensures r <= addr < r + PAGESIZE && r % PAGESIZE == 0
  {
    addr - addr % PAGESIZE
  }

  lemma PagesAsked(addr: nat, base: nat, free: nat)
    requires REGION_1 <= addr && REGION_1 <= base
    ensures REGION_1 + PageOf(addr) * PAGESIZE == PageStart(addr)
    ensures Requested(addr, base) <= free <==> PageStart(base) <= PageStart(addr) + free * PAGESIZE
  {
  }

  lemma AskedBetween(addr: nat, base: nat, b: nat)
    requires REGION_1 <= addr && REGION_1 <= base && REGION_1 <= b
    ensures var v := (b - REGION_1) / PAGESIZE;
            PageOf(addr) <= v < PageOf(addr) + Requested(addr, base) <==> PageStart(addr) <= b < PageStart(base)
  {
  }

  /** growStack for a fault at addr, byte by byte of region 1: with frames enough every byte from the faulting page
      up to the page of the stack base can be read and written, in a frame that was free, and the others are as
      they were. */
  lemma StackBytes<K>(m: Mem<K>, t: K, addr: nat, base: nat, r: Mem<K>, b: nat)
    requires Sound(m) && Table(m, t) && REGION_1 <= addr < REGION_1_LIMIT
    requires REGION_1 <= base <= REGION_1_LIMIT && r == GrowStack(m, t, PageOf(addr), Requested(addr, base))
    requires PageStart(base) <= PageStart(addr) + m.free * PAGESIZE && REGION_1 <= b < REGION_1_LIMIT
    ensures Sound(r) && Table(r, t) && r.zero == m.zero && r.pages == m.pages
    ensures var e := EntryOf(r, t, b);
            if PageStart(addr) <= b < PageStart(base) then Backed(m, r, e, User) else e == EntryOf(m, t, b)
  {
    PagesAsked(addr, base, m.free);
    AskedBetween(addr, base, b);
    GrowStackGrows(m, t, PageOf(addr), Requested(addr, base));
    if PageStart(addr) <= b < PageStart(base) {
      MappedUsed(m, r, t, PageOf(addr), Requested(addr, base), User, READ_WRITE, (b - REGION_1) / PAGESIZE);
    }
  }
}
