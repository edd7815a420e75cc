/** What a fork does to the kernel heap: every page it copies goes through the scratch pages of region 0. */
module Forking {
  import opened Frames
  import opened PageTables
  import opened Paging
  import opened Regions

  predicate ScratchFree<K>(m: Mem<K>) { Table(m, m.zero) && !m.maps[m.zero][SCRATCH_SRC].valid }

  // ---------------------------------------------------------------- CopyPT

  /** A copied page goes through the scratch pages, which end up unmapped. */
  lemma RoundUnmapsScratch<K>(o: Outcome<K>, s: K, d: K, i: nat)
    requires Copying(o.mem, s, d) && i < PAGES
    ensures var p := CopyRound(o, s, d, i);
            && (ScratchFree(o.mem) ==> ScratchFree(p.mem))
            && (o.ok && p.ok && o.mem.maps[s][i].valid ==> ScratchFree(p.mem))
  {
  }

  lemma {:induction false} CopyUnmapsScratch<K>(m: Mem<K>, s: K, d: K, n: nat, i: nat)
    requires Sound(m) && Copying(m, s, d) && i < n <= PAGES && m.maps[s][i].valid && i < CopyUpTo(m, s, d, n).done
    ensures ScratchFree(CopyUpTo(m, s, d, n).mem)
  {
    var o := CopyUpTo(m, s, d, n - 1);
    CopyUpToIs(m, s, d, n - 1);
    if i < o.done { CopyUnmapsScratch(m, s, d, n - 1, i); }
    RoundUnmapsScratch(o, s, d, n - 1);
  }

  lemma {:induction false} CopyNothing<K>(m: Mem<K>, s: K, d: K, n: nat)
    requires Copying(m, s, d) && n <= PAGES
    requires FirstFree(m.usage) == |m.usage| || forall i :: 0 <= i < PAGES ==> !m.maps[s][i].valid
    ensures CopyUpTo(m, s, d, n).mem == m
  {
    if n > 0 { CopyNothing(m, s, d, n - 1); }
  }

  /** CopyPT takes a heap page at the source scratch page away exactly when it copies a page at all. */
  lemma CopyDropsHeapIff<K>(m: Mem<K>, s: K, d: K, r: Mem<K>)
    requires Sound(m) && Copying(m, s, d) && !ScratchFree(m) && r == CopyUpTo(m, s, d, PAGES).mem
    ensures ScratchFree(r) <==> m.free > 0 && exists i :: 0 <= i < PAGES && m.maps[s][i].valid
  {
    FirstFreeSome(m.usage);
    if m.free > 0 && exists i :: 0 <= i < PAGES && m.maps[s][i].valid {
      var i := FirstValid(m.maps[s], 0);
      FirstIsCopied(m, s, d, i);
      CopyUnmapsScratch(m, s, d, PAGES, i);
    } else {
      CopyNothing(m, s, d, PAGES);
    }
  }

  /** The first valid entry from i on. */
  lemma {:induction false} FirstValid(e: seq<Pte>, i: nat) returns (f: nat)
    requires exists j :: i <= j < |e| && e[j].valid
    ensures i <= f < |e| && e[f].valid && forall j :: i <= j < f ==> !e[j].valid
    decreases |e| - i
  {
    if e[i].valid { f := i; } else { f := FirstValid(e, i + 1); }
  }

  /** With a free frame the first page that is mapped gets copied. */
  lemma FirstIsCopied<K>(m: Mem<K>, s: K, d: K, f: nat)
    requires Sound(m) && Copying(m, s, d) && m.free > 0
    requires f < PAGES && m.maps[s][f].valid && forall j :: 0 <= j < f ==> !m.maps[s][j].valid
    ensures f < CopyUpTo(m, s, d, PAGES).done
  {
    var o := CopyUpTo(m, s, d, PAGES);
    CopyUpToIs(m, s, d, PAGES);
    if o.done <= f { CountNone(m.maps[s], IsValid, o.done); }
  }

  // ---------------------------------------------------------------- the whole fork

  /** Fork's calls on the memory, k being the current kernel stack: CopyPT, and if that succeeds the child's kernel
      stack c and KCCopy.  The machine halts when there are no frames for that stack. */
  ghost predicate Forked<K>(m: Mem<K>, r: Mem<K>, s: K, d: K, k: K, c: K) {
    && Copying(m, s, d) && Regions.Stack(m, k) && c !in m.maps
    && var o := CopyUpTo(m, s, d, PAGES);
       if !o.ok then r == o.mem
       else
         && o.mem.free >= KSTACK_PAGES
         && var a := AddStack(o.mem, c);
            && Table(a, a.zero) && Regions.Stack(a, k) && Regions.Stack(a, c)
            && (forall i :: 0 <= i < KSTACK_PAGES ==> a.maps[k][i].pfn < |a.pages| && a.maps[c][i].pfn < |a.pages|)
            && r == CopyStack(a, k, c)
  }

  /** Region 0 is the same, but for the scratch pages. */
  predicate SameHeap<K>(m: Mem<K>, r: Mem<K>) {
    && Table(m, m.zero) && Table(r, r.zero) && r.brk == m.brk
    && forall i :: 0 <= i < PAGES && i != SCRATCH_SRC && i != SCRATCH_DST ==> r.maps[r.zero][i] == m.maps[m.zero][i]
  }

  lemma CopyStackScratch<K>(m: Mem<K>, k: K, c: K)
    requires Table(m, m.zero) && Regions.Stack(m, k) && Regions.Stack(m, c)
    requires forall i :: 0 <= i < KSTACK_PAGES ==> m.maps[k][i].pfn < |m.pages| && m.maps[c][i].pfn < |m.pages|
    ensures SameHeap(m, CopyStack(m, k, c)) && ScratchFree(CopyStack(m, k, c))
  {
  }

  lemma CopyPtHeap<K>(m: Mem<K>, s: K, d: K)
    requires Sound(m) && Copying(m, s, d)
    ensures SameHeap(m, CopyUpTo(m, s, d, PAGES).mem)
  {
    CopyUpToIs(m, s, d, PAGES);
  }

  lemma AddStackHeap<K>(m: Mem<K>, c: K)
    requires Sound(m) && c !in m.maps && m.free >= KSTACK_PAGES
    ensures SameHeap(m, AddStack(m, c))
  {
    var n := m.(maps := m.maps[c := [Unmapped(0, 0), Unmapped(0, 0)]]);
    NewTableSound(m, c, [Unmapped(0, 0), Unmapped(0, 0)]);
    MapRangeIs(n, c, 0, KSTACK_PAGES, Kernel, READ_WRITE, AddStack(m, c));
  }

  /** A fork that gets past CopyPT always unmaps the source scratch page: it copies the kernel stack. */
  lemma ForkScratch<K>(m: Mem<K>, r: Mem<K>, s: K, d: K, k: K, c: K)
    requires Sound(m) && Forked(m, r, s, d, k, c)
    ensures SameHeap(m, r)
    ensures CopyUpTo(m, s, d, PAGES).ok ==> ScratchFree(r)
  {
    var o := CopyUpTo(m, s, d, PAGES);
    CopyPtHeap(m, s, d);
    CopyUpToSound(m, s, d, PAGES);
    CopyUpToIs(m, s, d, PAGES);
    if o.ok {
      AddStackHeap(o.mem, c);
      CopyStackScratch(AddStack(o.mem, c), k, c);
    }
  }

  /** The kernel heap is mapped from page lo up to the break. */
  predicate HeapMapped<K>(m: Mem<K>, lo: nat) {
    && Table(m, m.zero) && lo <= SCRATCH_SRC && m.brk <= KSTACK_START
    && forall v :: lo <= v < m.brk ==> m.maps[m.zero][v].valid
  }

  /** A kernel heap mapped up to the break survives a fork exactly when the break is no higher than the source
      scratch page, or the fork failed before it copied anything. */
  lemma ForkHeapIff<K>(m: Mem<K>, r: Mem<K>, s: K, d: K, k: K, c: K, lo: nat)
    requires Sound(m) && Forked(m, r, s, d, k, c) && HeapMapped(m, lo)
    ensures HeapMapped(r, lo) <==> m.brk <= SCRATCH_SRC || (!CopyUpTo(m, s, d, PAGES).ok && m.free == 0)
  {
    ForkScratch(m, r, s, d, k, c);
    CopyUpToIs(m, s, d, PAGES);
    if m.brk > SCRATCH_SRC && !CopyUpTo(m, s, d, PAGES).ok {
      CopyDropsHeapIff(m, s, d, r);
      CountNone(m.maps[s], IsValid, PAGES);
      FirstFreeSome(m.usage);
      if m.free == 0 { CopyNothing(m, s, d, PAGES); }
    }
  }

  /** In a sound memory, with frames for the stack, a fork goes through. */
  lemma {:induction false} ForkGoes<K>(m: Mem<K>, s: K, d: K, k: K, c: K) returns (r: Mem<K>)
    requires Sound(m) && Copying(m, s, d) && Regions.Stack(m, k) && c !in m.maps
    requires Count(m.maps[s], IsValid, 0, PAGES) <= m.free ==>
               Count(m.maps[s], IsValid, 0, PAGES) + KSTACK_PAGES <= m.free
    ensures Forked(m, r, s, d, k, c) && Sound(r)
  {
    var o := CopyUpTo(m, s, d, PAGES);
    CopyUpToIs(m, s, d, PAGES);
    CopyUpToSound(m, s, d, PAGES);
    r := o.mem;
    if o.ok {
      var a := AddStack(o.mem, c);
      NewStack(o.mem, c, k);
      StackExists(a, k);
      StackExists(a, c);
      CopyStackIs(a, k, c);
      r := CopyStack(a, k, c);
    }
  }

  lemma NewStack<K>(m: Mem<K>, c: K, k: K)
    requires Sound(m) && c !in m.maps && m.free >= KSTACK_PAGES && Regions.Stack(m, k)
    ensures Sound(AddStack(m, c)) && Regions.Stack(AddStack(m, c), c) && Regions.Stack(AddStack(m, c), k)
  {
    var n := m.(maps := m.maps[c := [Unmapped(0, 0), Unmapped(0, 0)]]);
    NewTableSound(m, c, [Unmapped(0, 0), Unmapped(0, 0)]);
    MapRangeSound(n, c, 0, KSTACK_PAGES, Kernel, READ_WRITE, AddStack(m, c));
    MapRangeIs(n, c, 0, KSTACK_PAGES, Kernel, READ_WRITE, AddStack(m, c));
  }
}
