/** src/mem.c, the page-table parts of src/kernel.c, and growStack, in place on the kernel's tables. */
module VirtualMemory {
  import opened Common
  import opened Frames
  import opened PageTables
  import Paging
  import Regions
  import Addresses
  import opened Boot

  class Memory {
    const usage: array<Usage> // frame_table
    var freeCount: nat // free_nframes
    const phys: array<seq<Byte>> // the bytes of each frame
    const region0: array<Pte> // pt_region0
    var brk: nat // kernel_brk_page
    ghost var tables: set<array<Pte>> // region 0, region 1 tables and kernel stacks

    ghost function View(): Mem<array<Pte>>
      reads this, usage, phys, tables
    {
      Mem(usage[..], freeCount, phys[..], region0, map t | t in tables :: t[..], brk)
    }

    ghost predicate Shape()
      reads this, phys
    {
      && region0 in tables && region0.Length == PAGES && phys.Length == usage.Length && brk <= KSTACK_START
      && forall f :: 0 <= f < phys.Length ==> |phys[f]| == PAGESIZE
    }

    ghost predicate Valid()
      reads this, usage, phys, tables
    {
      Shape() && Sound(View())
    }

    /** InitializeFreeFrameList and InitializeVM. */
    constructor (frames: nat, text: nat, data: nat, orig: nat, kernelBrk: nat)
      requires Bootable(frames, text, data, orig, kernelBrk)
      ensures Shape() && tables == {region0} && fresh(region0) && fresh(usage) && fresh(phys)
      ensures View() == Booted(region0, frames, text, data, orig, kernelBrk)
      ensures Valid() <==> orig <= kernelBrk || text == orig
    {
      usage := new Usage[frames];
      phys := new seq<Byte>[frames](_ => seq(PAGESIZE, _ => 0));
      region0 := new Pte[PAGES](v requires 0 <= v => BootEntry(text, data, orig, v));
      freeCount, brk, tables := 0, kernelBrk, {region0};
      new;
      assert forall v :: 0 <= v < PAGES ==> region0[v] == BootEntry(text, data, orig, v);
      for i := 0 to frames
        modifies this`freeCount, usage
        invariant forall f :: 0 <= f < i ==> usage[f] == if f < kernelBrk then Kernel else Free
        invariant freeCount == if i < kernelBrk then 0 else i - kernelBrk
      {
        usage[i] := if i < kernelBrk then Kernel else Free;
        if i >= kernelBrk { freeCount := freeCount + 1; }
      }
      BootedIs(View(), frames, text, data, orig, kernelBrk);
      BootSoundIff(region0, frames, text, data, orig, kernelBrk);
    }

    /** t[i] = e. */
    method SetEntry(t: array<Pte>, i: nat, e: Pte)
      requires t in tables && i < t.Length
      modifies t
      ensures View() == Put(old(View()), t, i, e)
    {
      ghost var m := View();
      t[i] := e;
      assert t[..] == m.maps[t][i := e];
      assert forall v :: v in tables && v != t ==> v[..] == m.maps[v];
    }

    method AllocFrame(u: Usage) returns (pfn: int)
      modifies this`freeCount, usage
      ensures pfn == -1 <==> FirstFree(old(usage[..])) == usage.Length
      ensures pfn == -1 ==> View() == old(View())
      ensures pfn != -1 ==> pfn == FirstFree(old(usage[..])) && View() == Take(old(View()), pfn, u)
    {
      for i := 0 to usage.Length
        invariant forall f :: 0 <= f < i ==> usage[f] != Free
      {
        if usage[i] == Free {
          FirstFreeFromIs(usage[..], 0, i);
          usage[i] := u;
          if freeCount > 0 { freeCount := freeCount - 1; }
          return i;
        }
      }
      FirstFreeFromIs(usage[..], 0, usage.Length);
      return -1;
    }

    method AllocSpecificFrame(pfn: nat, u: Usage) returns (r: int)
      modifies this`freeCount, usage
      ensures r == -1 <==> pfn >= usage.Length || old(usage[pfn]) != Free
      ensures r == -1 ==> View() == old(View())
      ensures r != -1 ==> r == pfn && View() == Take(old(View()), pfn, u)
    {
      if pfn >= usage.Length || usage[pfn] != Free { return -1; }
      usage[pfn] := u;
      if freeCount > 0 { freeCount := freeCount - 1; }
      return pfn;
    }

    method FreeFrame(pfn: int)
      modifies this`freeCount, usage
      ensures View() == if 0 <= pfn < usage.Length then Release(old(View()), pfn) else old(View())
    {
      if !(0 <= pfn < usage.Length) { return; }
      usage[pfn] := Free;
      freeCount := freeCount + 1;
    }

    /** memcpy(SCRATCH_ADDR_DST, SCRATCH_ADDR_SRC, PAGESIZE), each access translated by region 0. */
    method CopyScratch()
      requires Shape() && region0[SCRATCH_SRC].valid && region0[SCRATCH_DST].valid
      requires region0[SCRATCH_SRC].pfn < phys.Length && region0[SCRATCH_DST].pfn < phys.Length
      modifies phys
      ensures Shape() && phys[..] == old(phys[..])[region0[SCRATCH_DST].pfn := old(phys[region0[SCRATCH_SRC].pfn])]
    {
      ghost var page := phys[region0[SCRATCH_SRC].pfn];
      ghost var dst := region0[SCRATCH_DST].pfn;
      for i := 0 to PAGESIZE
        invariant Shape() && phys[dst][..i] == page[..i] && phys[region0[SCRATCH_SRC].pfn][i..] == page[i..]
        invariant forall f :: 0 <= f < phys.Length && f != dst ==> phys[f] == old(phys[f])
      {
        var x: Byte := phys[region0[SCRATCH_SRC].pfn][i];
        assert x == page[i];
        phys[region0[SCRATCH_DST].pfn] := phys[region0[SCRATCH_DST].pfn][i := x];
      }
      assert phys[dst] == page;
    }

    method CloneFrame(src: nat, dst: nat)
      requires Shape() && src < phys.Length && dst < phys.Length
      modifies region0, phys
      ensures Shape() && View() == Clone(old(View()), src, dst)
    {
      ghost var m := View();
      region0[SCRATCH_SRC] := Pte(true, PROT_READ, src);
      region0[SCRATCH_DST] := Pte(true, READ_WRITE, dst);
      CopyScratch();
      region0[SCRATCH_SRC] := region0[SCRATCH_SRC].(valid := false);
      region0[SCRATCH_DST] := region0[SCRATCH_DST].(valid := false);
      assert region0[..] == Clone(m, src, dst).maps[region0];
      assert forall v :: v in tables && v != region0 ==> v[..] == m.maps[v];
    }

    // -------------------------------------------------------------- CopyPT

    /** The body of CopyPT's loop for a valid entry. */
    method CopyEntry(src: array<Pte>, dst: array<Pte>, i: nat) returns (ok: bool)
      requires Shape() && src in tables && dst in tables && Paging.Copying(View(), src, dst) && i < PAGES
      requires src[i].valid && src[i].pfn < phys.Length
      modifies this`freeCount, usage, phys, region0, dst
      ensures Shape() && (ok <==> FirstFree(old(usage[..])) < usage.Length)
      ensures View() == if ok then Paging.CopyEntry(old(View()), src, dst, i) else old(View())
    {
      ghost var m := View();
      var pfn := AllocFrame(User);
      if pfn == -1 { return false; }
      CloneFrame(src[i].pfn, pfn);
      assert src[..] == m.maps[src];
      SetEntry(dst, i, Pte(true, src[i].prot, pfn));
      return true;
    }

    /** One round of CopyPT's loop; o is how far it got. */
    method CopyPage(src: array<Pte>, dst: array<Pte>, i: nat, ghost o: Paging.Outcome<array<Pte>>) returns (ok: bool)
      requires Valid() && src in tables && dst in tables && i < PAGES && o.ok && o.mem == View()
      requires Paging.Copying(View(), src, dst)
      modifies this`freeCount, usage, phys, region0, dst
      ensures Valid() && Paging.CopyRound(o, src, dst, i).mem == View() && Paging.CopyRound(o, src, dst, i).ok == ok
    {
      assert src[..] == o.mem.maps[src];
      Paging.CopyRoundSound(o, src, dst, i);
      assert src[i].valid ==> Owns(o.mem, src, i);
      ok := true;
      if src[i].valid { ok := CopyEntry(src, dst, i); }
    }

    method CopyPT(src: array<Pte>, dst: array<Pte>) returns (ok: bool)
      requires Valid() && src in tables && dst in tables && Paging.Copying(View(), src, dst)
      modifies this`freeCount, usage, phys, region0, dst
      ensures Valid() && ok == Paging.CopyUpTo(old(View()), src, dst, PAGES).ok
      ensures View() == Paging.CopyUpTo(old(View()), src, dst, PAGES).mem
    {
      ghost var m := View();
      ghost var o := Paging.CopyUpTo(m, src, dst, 0);
      var i := 0;
      ok := true;
      while i < PAGES
        invariant i <= PAGES && Valid() && ok && o == Paging.CopyUpTo(m, src, dst, i) && o.mem == View() && o.ok
      {
        ok := CopyPage(src, dst, i, o);
        o := Paging.CopyRound(o, src, dst, i);
        i := i + 1;
        if !ok { break; }
      }
      Paging.CopyStopped(m, src, dst, i);
    }

    // -------------------------------------------------------------- ranges

    /** A loop of LoadProgram: allocFrame and map, without a look at the result. */
    method MapPages(t: array<Pte>, from: nat, n: nat)
      requires t in tables && from + n <= t.Length
      modifies this`freeCount, usage, t
      ensures View() == MapRange(old(View()), t, from, n, User, READ_WRITE)
    {
      for i := 0 to n
        invariant View() == MapRange(old(View()), t, from, i, User, READ_WRITE)
      {
        var pfn := AllocFrame(User);
        SetEntry(t, from + i, Pte(true, READ_WRITE, if pfn == -1 then NO_FRAME else pfn));
      }
    }

    /** freeFrame and invalidate every valid entry of the range. */
    method DropPages(t: array<Pte>, from: nat, n: nat)
      requires t in tables && from + n <= t.Length
      modifies this`freeCount, usage, t
      ensures View() == DropRange(old(View()), t, from, n)
    {
      for i := 0 to n
        invariant View() == DropRange(old(View()), t, from, i)
      {
        if t[from + i].valid { DropEntry(t, from + i); } else { assert t[..] == View().maps[t]; }
      }
    }

    // -------------------------------------------------------------- growStack

    /** allocFrame and, if there is a frame, map it. */
    method MapFrame(t: array<Pte>, i: nat, u: Usage) returns (ok: bool)
      requires Valid() && t in tables && i < t.Length && u != Free
      modifies this`freeCount, usage, t
      ensures Valid() && ok == (old(freeCount) > 0) && freeCount == old(freeCount) - (if ok then 1 else 0)
      ensures View() == if ok then MapNext(old(View()), t, i, u, READ_WRITE) else old(View())
    {
      ghost var m := View();
      FirstFreeSome(m.usage);
      if freeCount > 0 { MapNextSound(m, t, i, u, READ_WRITE, MapNext(m, t, i, u, READ_WRITE)); }
      var pfn := AllocFrame(u);
      if pfn == -1 { return false; }
      SetEntry(t, i, Pte(true, READ_WRITE, pfn));
      return true;
    }

    /** freeFrame of a mapped page, and its entry is invalid. */
    method DropEntry(t: array<Pte>, i: nat)
      requires t in tables && i < t.Length && t[i].valid
      modifies this`freeCount, usage, t
      ensures View() == DropNext(old(View()), t, i) && forall k :: i < k < t.Length ==> t[k] == old(t[k])
    {
      ghost var m := View();
      assert t[..] == m.maps[t];
      FreeFrame(t[i].pfn);
      SetEntry(t, i, t[i].(valid := false));
      assert t[..] == View().maps[t];
    }

    /** growStack's rollback, over pages it has just mapped. */
    method GiveBack(t: array<Pte>, from: nat, n: nat)
      requires t in tables && from + n <= t.Length && forall k :: from <= k < from + n ==> t[k].valid
      modifies this`freeCount, usage, t
      ensures View() == DropRange(old(View()), t, from, n)
    {
      ghost var m := View();
      for j := 0 to n
        invariant View() == DropRange(m, t, from, j)
        invariant forall k :: from + j <= k < from + n ==> t[k].valid
      {
        DropEntry(t, from + j);
      }
    }

    /** The allocation loop of growStack and SetKernelBrk: n pages, or as many as there are frames. */
    method MapWhileFree(t: array<Pte>, from: nat, n: nat, u: Usage) returns (i: nat)
      requires Valid() && t in tables && from + n <= t.Length && u != Free
      modifies this`freeCount, usage, t
      ensures Valid() && i == (if n <= old(freeCount) then n else old(freeCount))
      ensures View() == MapRange(old(View()), t, from, i, u, READ_WRITE)
    {
      ghost var m := View();
      i := 0;
      while i < n
        invariant i <= n && Valid() && freeCount == m.free - i && View() == MapRange(m, t, from, i, u, READ_WRITE)
      {
        MapRangeUnroll(m, t, from, i, u, READ_WRITE, View());
        var ok := MapFrame(t, from + i, u);
        if !ok { break; }
        i := i + 1;
      }
    }

    /** n pages, or all frames there are and back again. */
    method GrowRange(t: array<Pte>, from: nat, n: nat) returns (ok: bool)
      requires Valid() && t in tables && from + n <= t.Length
      modifies this`freeCount, usage, t
      ensures ok == (n <= old(freeCount)) && View() == GrowStack(old(View()), t, from, n)
    {
      ghost var m := View();
      var i := MapWhileFree(t, from, n, User);
      if i == n { return true; }
      MapRangeIs(m, t, from, i, User, READ_WRITE, View());
      assert t[..] == View().maps[t];
      GiveBack(t, from, i);
      return false;
    }

    /** growStack: a fault at or above the stack base maps nothing. */
    method GrowStackTo(t: array<Pte>, addr: nat, stackBase: nat) returns (ok: bool, base: nat)
      requires Valid() && t in tables && t != region0 && t.Length == PAGES
      requires REGION_1 <= addr < REGION_1_LIMIT && REGION_1 <= stackBase <= REGION_1_LIMIT
      modifies this`freeCount, usage, t
      ensures Valid()
      ensures var n := Requested(addr, stackBase);
              && ok == (n <= old(freeCount)) && View() == GrowStack(old(View()), t, PageOf(addr), n)
              && base == if ok then addr / PAGESIZE * PAGESIZE else stackBase
    {
      var target, top := PageOf(addr), PageOf(stackBase);
      var n := if target < top then top - target else 0;
      ghost var m := View();
      ok := GrowRange(t, target, n);
      if ok { GrowStackGrows(m, t, target, n); } else { GrowStackGivesBack(m, t, target, n); }
      base := if ok then addr / PAGESIZE * PAGESIZE else stackBase;
    }

    // -------------------------------------------------------------- SetKernelBrk

    method ShrinkHeap(target: nat)
      requires Shape() && target <= brk
      modifies this`freeCount, usage, region0
      ensures View() == Regions.Shrink(old(View()), brk - target)
    {
      ghost var m := View();
      var cur := brk;
      while cur > target
        invariant target <= cur <= brk && View() == Regions.Shrink(m, brk - cur)
      {
        cur := cur - 1;
        UnmapHeapPage(cur);
      }
    }

    method UnmapHeapPage(v: nat)
      requires Shape() && v < PAGES
      modifies this`freeCount, usage, region0
      ensures View() == Regions.UnmapPage(old(View()), v)
    {
      assert region0[..] == View().maps[region0];
      if !region0[v].valid { return; }
      var pfn := region0[v].pfn;
      SetEntry(region0, v, Pte(false, 0, 0));
      FreeFrame(pfn);
    }

    /** The break ends up on the first page boundary that is not below the address. */
    method SetKernelBrk(addr: nat) returns (ok: bool)
      requires Valid()
      modifies this`freeCount, this`brk, usage, region0
      ensures Regions.Answer(View(), ok) == Regions.SetKernelBrk(old(View()), addr)
      ensures addr <= Addresses.LAST_ROUNDED ==>
                && (ok <==> 0 < addr <= Addresses.HEAP_LIMIT && addr <= old(brk + freeCount) * PAGESIZE)
                && if ok then (brk - 1) * PAGESIZE < addr <= brk * PAGESIZE else brk == old(brk)
    {
      ghost var m := View();
      if addr <= Addresses.LAST_ROUNDED { Addresses.BreakIs(m, addr, Regions.SetKernelBrk(m, addr)); }
      if addr == 0 { return false; }
      var target := Regions.BrkPage(addr);
      if target >= KSTACK_START { return false; }
      ok := MoveBreak(addr, target);
    }

    method MoveBreak(ghost addr: nat, target: nat) returns (ok: bool)
      requires Valid() && addr != 0 && target == Regions.BrkPage(addr) < KSTACK_START
      modifies this`freeCount, this`brk, usage, region0
      ensures Regions.Answer(View(), ok) == Regions.SetKernelBrk(old(View()), addr)
    {
      ok := brk > target;
      if ok { ShrinkHeap(target); } else { ok := ExtendHeap(target); }
      ghost var r := View();
      if ok {
        brk := target;
        assert View() == r.(brk := target);
      }
    }

    method ExtendHeap(target: nat) returns (ok: bool)
      requires Valid() && brk <= target < KSTACK_START
      modifies this`freeCount, usage, region0
      ensures ok == (target - brk <= old(freeCount))
      ensures var n := if ok then target - brk else old(freeCount);
              View() == MapRange(old(View()), region0, brk, n, Kernel, READ_WRITE)
    {
      var n := MapWhileFree(region0, brk, target - brk, Kernel);
      ok := n == target - brk;
    }

    // -------------------------------------------------------------- LoadProgram

    /** The address space of a new program; sound afterwards exactly when the frames sufficed. */
    method LoadRegion1(t: array<Pte>, l: Regions.Layout)
      requires Valid() && t in tables && t != region0 && t.Length == PAGES && Regions.Loadable(l)
      modifies this`freeCount, usage, t
      ensures View() == Regions.Rebuild(old(View()), t, l)
      ensures Valid() <==> l.textPages + l.dataPages + l.stackPages <= old(freeCount + Count(t[..], IsValid, 0, PAGES))
    {
      ghost var m := View();
      Regions.RebuildIff(m, t, l);
      DropPages(t, 0, PAGES);
      MapPages(t, l.text, l.textPages);
      MapPages(t, l.data, l.dataPages);
      MapPages(t, PAGES - l.stackPages, l.stackPages);
      ProtectPages(t, l.text, l.textPages, PROT_READ + PROT_EXEC);
    }

    method ProtectPages(t: array<Pte>, from: nat, n: nat, prot: nat)
      requires t in tables && from + n <= t.Length
      modifies t
      ensures View() == Regions.SetProt(old(View()), t, from, n, prot)
    {
      for i := 0 to n
        invariant View() == Regions.SetProt(old(View()), t, from, i, prot)
      {
        assert t[..] == View().maps[t];
        SetEntry(t, from + i, t[from + i].(prot := prot));
      }
    }

    // -------------------------------------------------------------- kernel stacks

    /** InitializeKernelStackProcess; the machine halts when it has no frames. */
    method NewKernelStack() returns (k: array<Pte>, ok: bool)
      requires Valid()
      modifies this`freeCount, this`tables, usage
      ensures fresh(k) && ok == (old(freeCount) >= KSTACK_PAGES)
      ensures ok ==> Valid() && tables == old(tables) + {k} && View() == Regions.AddStack(old(View()), k)
    {
      ghost var m := View();
      k := new Pte[KSTACK_PAGES](_ => Unmapped(0, 0));
      tables := tables + {k};
      assert k[..] == [Unmapped(0, 0), Unmapped(0, 0)];
      assert View() == m.(maps := m.maps[k := [Unmapped(0, 0), Unmapped(0, 0)]]);
      Regions.NewTableSound(m, k, k[..]);
      var n := MapWhileFree(k, 0, KSTACK_PAGES, Kernel);
      ok := n == KSTACK_PAGES;
    }

    /** InitializeKernelStackIdle, which does not look at what allocSpecificFrame answers. */
    method IdleKernelStack() returns (k: array<Pte>)
      requires Valid()
      modifies this`freeCount, this`tables, usage
      ensures fresh(k) && tables == old(tables) + {k} && View() == IdleStack(old(View()), k)
    {
      ghost var m := View();
      k := new Pte[KSTACK_PAGES](_ => Unmapped(0, 0));
      for i := 0 to KSTACK_PAGES
        invariant View() == if i == 0 then m else if i == 1 then TryTake(m, KSTACK_START, Kernel)
                            else TryTake(TryTake(m, KSTACK_START, Kernel), KSTACK_START + 1, Kernel)
        invariant tables == old(tables) && forall j :: 0 <= j < i ==> k[j] == IdleEntries()[j]
      {
        var pfn := AllocSpecificFrame(KSTACK_START + i, Kernel);
        ghost var r := View();
        k[i] := Pte(true, READ_WRITE, KSTACK_START + i);
        assert View() == r;
      }
      ghost var r := View();
      tables := tables + {k};
      assert k[..] == IdleEntries();
      assert View() == r.(maps := r.maps[k := IdleEntries()]);
    }

    method MoveWindow(k: array<Pte>)
      requires region0.Length == PAGES && k != region0 && k.Length == KSTACK_PAGES
      modifies region0
      ensures region0[..] == old(region0[..])[..KSTACK_START] + k[..]
    {
      for i := 0 to KSTACK_PAGES
        invariant region0[..] == old(region0[..])[..KSTACK_START] + k[..i] + old(region0[..])[KSTACK_START + i..]
      {
        region0[KSTACK_START + i] := k[i];
      }
    }

    /** KCSwitch moves the window to the next process's stack. */
    method SwitchStack(k: array<Pte>)
      requires Valid() && k in tables && k != region0 && k.Length == KSTACK_PAGES
      modifies region0
      ensures Valid() && View() == Regions.SwitchTo(old(View()), k)
    {
      ghost var m := View();
      MoveWindow(k);
      assert region0[..] == m.maps[region0][..KSTACK_START] + m.maps[k];
      assert forall v :: v in tables && v != region0 ==> v[..] == m.maps[v];
      Regions.SwitchToIs(m, k);
    }

    /** KCCopy's loop. */
    method CopyKernelStack(k: array<Pte>, c: array<Pte>)
      requires Valid() && k in tables && c in tables && k != c && Regions.Stack(View(), k) && Regions.Stack(View(), c)
      modifies region0, phys
      ensures Valid() && View() == Regions.CopyStack(old(View()), k, c)
    {
      ghost var m := View();
      Regions.CopyStackIs(m, k, c);
      assert k[..] == m.maps[k] && c[..] == m.maps[c];
      CloneFrame(k[0].pfn, c[0].pfn);
      CloneFrame(k[1].pfn, c[1].pfn);
    }
  }
}
