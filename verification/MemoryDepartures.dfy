/** Runs from boot to each of the ways in which the memory departs from its intent. */
module MemoryDepartures {
  import opened Common
  import opened Frames
  import opened PageTables
  import opened Paging
  import opened Regions
  import opened Boot
  import opened MemoryRuns
  import opened BootRuns
  import opened Forking

  // Addresses of the tables: region 0, the idle stack, a parent and a child.
  const ZERO := 0
  const IDLE := 1
  const PARENT := 2
  const CHILD := 3
  const TOP := PAGES - 1
  const HEAP := 10 // the kernel break at boot

  /** A call makes r of w. */
  ghost predicate Link<K>(w: World<K>, c: Call<K>, r: World<K>) {
    && Table(w.mem, w.mem.zero) && w.mem.brk <= KSTACK_START && |w.mem.pages| == |w.mem.usage|
    && Enabled(w, c) && r == Apply(w, c)
  }

  lemma Extend<K>(ws: seq<World<K>>, cs: seq<Call<K>>, c: Call<K>, r: World<K>)
    requires IsRun(ws, cs) && Link(ws[|cs|], c, r)
    ensures IsRun(ws + [r], cs + [c])
  {
  }

  /** The facts about a state that the runs below rely on. */
  ghost predicate At(w: World<int>, frames: nat, free: nat, tables: set<int>) {
    && Inv(w) && w.cur == Some(IDLE) && w.mem.zero == ZERO && w.mem.maps.Keys == tables
    && |w.mem.usage| == |w.mem.pages| == frames && w.mem.free == free
  }

  lemma IdleStep(frames: nat) returns (w: World<int>, r: World<int>)
    requires PAGES <= frames < NO_FRAME
    ensures w == World(Booted(ZERO, frames, 0, 0, HEAP, HEAP), None) && Inv(w) && Link(w, Idle(IDLE), r)
    ensures At(r, frames, frames - HEAP - KSTACK_PAGES, {ZERO, IDLE}) && r.mem.pages == w.mem.pages && r.mem.brk == HEAP
  {
    w := World(Booted(ZERO, frames, 0, 0, HEAP, HEAP), None);
    BootInv(ZERO, frames, 0, 0, HEAP, HEAP);
    IdleFramesFree(w.mem, HEAP);
    r := Apply(w, Idle(IDLE));
    CallInvIff(w, Idle(IDLE));
  }

  lemma CreateStep(w: World<int>, t: int, frames: nat, free: nat, tables: set<int>) returns (r: World<int>)
    requires At(w, frames, free, tables) && t !in tables
    ensures Link(w, Create(t), r) && At(r, frames, free, tables + {t})
            && r.mem == w.mem.(maps := w.mem.maps[t := NoPages()])
  {
    r := Apply(w, Create(t));
    CallInvIff(w, Create(t));
  }

  lemma GrowStep(w: World<int>, t: int, from: nat, n: nat, frames: nat, free: nat, tables: set<int>)
    returns (r: World<int>)
    requires At(w, frames, free, tables) && Table(w.mem, t) && t != ZERO && from + n <= PAGES && n <= free
    ensures Link(w, Grow(t, from, n), r) && At(r, frames, free - n, tables)
    ensures Mapped(w.mem, r.mem, t, from, n, User, READ_WRITE)
  {
    r := Apply(w, Grow(t, from, n));
    CallInvIff(w, Grow(t, from, n));
    GrowStackGrows(w.mem, t, from, n);
  }

  /** Boot, the idle stack, and a process with one page at the top of its region. */
  lemma Start(frames: nat) returns (ws: seq<World<int>>, cs: seq<Call<int>>, d: World<int>)
    requires PAGES <= frames < NO_FRAME
    ensures IsRun(ws, cs) && ws[0] == World(Booted(ZERO, frames, 0, 0, HEAP, HEAP), None) && d == ws[|cs|]
    ensures At(d, frames, frames - HEAP - KSTACK_PAGES - 1, {ZERO, IDLE, PARENT}) && d.mem.pages == ws[0].mem.pages
    ensures d.mem.brk == HEAP && Table(d.mem, PARENT) && d.mem.maps[PARENT][TOP].valid
  {
    var a, b := IdleStep(frames);
    var c := CreateStep(b, PARENT, frames, frames - HEAP - KSTACK_PAGES, {ZERO, IDLE});
    d := GrowStep(c, PARENT, TOP, 1, frames, frames - HEAP - KSTACK_PAGES, {ZERO, IDLE, PARENT});
    Extend([a], [], Idle(IDLE), b);
    Extend([a, b], [Idle(IDLE)], Create(PARENT), c);
    Extend([a, b, c], [Idle(IDLE), Create(PARENT)], Grow(PARENT, TOP, 1), d);
    ws, cs := [a, b, c] + [d], [Idle(IDLE), Create(PARENT)] + [Grow(PARENT, TOP, 1)];
  }

  // ---------------------------------------------------------------- a program without frames

  /** 128 frames, and a program of 121 pages: the last of them has no frame behind it. */
  lemma NoFramesDeparture() returns (ws: seq<World<int>>, cs: seq<Call<int>>)
    ensures IsRun(ws, cs) && ws[0] == World(Booted(ZERO, PAGES, 0, 0, HEAP, HEAP), None)
    ensures |cs| > 0 && cs[|cs| - 1].Load? && Inv(ws[|cs| - 1]) && !Sound(ws[|cs|].mem)
  {
    var vs, bs, d := Start(PAGES);
    var free := PAGES - HEAP - KSTACK_PAGES - 1;
    var e := CreateStep(d, CHILD, PAGES, free, {ZERO, IDLE, PARENT});
    Extend(vs, bs, Create(CHILD), e);
    var r := LoadTooMuch(e, Layout(0, 60, 60, 60, 1), PAGES, free, {ZERO, IDLE, PARENT, CHILD});
    Extend(vs + [e], bs + [Create(CHILD)], Load(CHILD, Layout(0, 60, 60, 60, 1)), r);
    ws, cs := vs + [e] + [r], bs + [Create(CHILD)] + [Load(CHILD, Layout(0, 60, 60, 60, 1))];
  }

  lemma LoadTooMuch(w: World<int>, l: Layout, frames: nat, free: nat, tables: set<int>) returns (r: World<int>)
    requires At(w, frames, free, tables) && CHILD in tables && w.mem.maps[CHILD] == NoPages() && Loadable(l)
    requires l.textPages + l.dataPages + l.stackPages > free
    ensures Link(w, Load(CHILD, l), r) && !Sound(r.mem)
  {
    r := Apply(w, Load(CHILD, l));
    CountNone(w.mem.maps[CHILD], IsValid, PAGES);
    RebuildIff(w.mem, CHILD, l);
  }

  // ---------------------------------------------------------------- a break too high

  lemma {:induction false} CountAtMost<T>(s: seq<T>, p: T -> bool, n: nat)
    requires n <= |s|
    ensures Count(s, p, 0, n) <= n
  {
    if n > 0 { CountAtMost(s, p, n - 1); }
  }

  lemma BreakStep(w: World<int>, frames: nat, free: nat, tables: set<int>) returns (r: World<int>)
    requires At(w, frames, free, tables) && w.mem.brk == HEAP && free >= SCRATCH_DST - HEAP
    ensures Link(w, Brk(SCRATCH_DST * PAGESIZE), r) && At(r, frames, free - (SCRATCH_DST - HEAP), tables)
    ensures r.mem.brk == SCRATCH_DST && !ScratchFree(r.mem)
    ensures forall t :: t in tables && t != ZERO ==> r.mem.maps[t] == w.mem.maps[t]
  {
    r := Apply(w, Brk(SCRATCH_DST * PAGESIZE));
    CallInvIff(w, Brk(SCRATCH_DST * PAGESIZE));
    HighestBreak(w.mem);
    BrkIs(w.mem, SCRATCH_DST * PAGESIZE);
  }

  lemma CopyStep(w: World<int>, frames: nat, free: nat, tables: set<int>) returns (r: World<int>)
    requires At(w, frames, free, tables) && Copying(w.mem, PARENT, CHILD) && free >= PAGES
    ensures Link(w, Copy(PARENT, CHILD), r) && r.mem == CopyUpTo(w.mem, PARENT, CHILD, PAGES).mem
    ensures r.mem.brk == w.mem.brk && Inv(r) && Count(w.mem.maps[PARENT], IsValid, 0, PAGES) <= free
  {
    r := Apply(w, Copy(PARENT, CHILD));
    CallInvIff(w, Copy(PARENT, CHILD));
    CopyUpToIs(w.mem, PARENT, CHILD, PAGES);
    CountAtMost(w.mem.maps[PARENT], IsValid, PAGES);
  }

  /** The break goes to the highest page SetKernelBrk allows, and then a fork's CopyPT unmaps a page
      of the heap below it, without any call going wrong. */
  lemma HighBreakDeparture() returns (ws: seq<World<int>>, cs: seq<Call<int>>)
    ensures IsRun(ws, cs) && ws[0] == World(Booted(ZERO, 400, 0, 0, HEAP, HEAP), None)
    ensures |cs| > 0 && cs[|cs| - 1].Copy? && Inv(ws[|cs| - 1]) && Inv(ws[|cs|])
    ensures ws[|cs| - 1].mem.brk == ws[|cs|].mem.brk == SCRATCH_DST
    ensures !ScratchFree(ws[|cs| - 1].mem) && ScratchFree(ws[|cs|].mem) && SCRATCH_SRC < SCRATCH_DST
  {
    var vs, bs, d := Start(400);
    var e := CreateStep(d, CHILD, 400, 387, {ZERO, IDLE, PARENT});
    var f := BreakStep(e, 400, 387, {ZERO, IDLE, PARENT, CHILD});
    var r := CopyStep(f, 400, 272, {ZERO, IDLE, PARENT, CHILD});
    CopyDropsHeapIff(f.mem, PARENT, CHILD, r.mem);
    assert f.mem.maps[PARENT][TOP].valid;
    Extend(vs, bs, Create(CHILD), e);
    Extend(vs + [e], bs + [Create(CHILD)], Brk(SCRATCH_DST * PAGESIZE), f);
    Extend(vs + [e] + [f], bs + [Create(CHILD)] + [Brk(SCRATCH_DST * PAGESIZE)], Copy(PARENT, CHILD), r);
    ws := vs + [e] + [f] + [r];
    cs := bs + [Create(CHILD)] + [Brk(SCRATCH_DST * PAGESIZE)] + [Copy(PARENT, CHILD)];
  }

  // ---------------------------------------------------------------- an idle stack without its frames

  /** With the boot break at 126, the idle process's user page gets frame 126, and then its kernel stack names
      that frame too. */
  lemma IdleDeparture() returns (ws: seq<World<int>>, cs: seq<Call<int>>)
    ensures IsRun(ws, cs) && ws[0] == World(Booted(ZERO, PAGES, 0, 0, KSTACK_START, KSTACK_START), None)
    ensures |cs| > 0 && cs[|cs| - 1] == Idle(IDLE) && Inv(ws[|cs| - 1]) && !Sound(ws[|cs|].mem)
    ensures forall i :: 0 <= i < |cs| - 1 ==> BootCall(ws[i].mem, cs[i])
  {
    var a := World(Booted(ZERO, PAGES, 0, 0, KSTACK_START, KSTACK_START), None);
    BootInv(ZERO, PAGES, 0, 0, KSTACK_START, KSTACK_START);
    var b := Apply(a, Create(PARENT));
    CallInvIff(a, Create(PARENT));
    var c := Apply(b, Grow(PARENT, TOP, 1));
    CallInvIff(b, Grow(PARENT, TOP, 1));
    var vs, bs := [a, b, c], [Create(PARENT), Grow(PARENT, TOP, 1)];
    assert IsRun(vs, bs);
    assert UserPages(bs, 0) == 0 && UserPages(bs, 1) == 0;
    UserTable(b, c);
    BootIdleIff(vs, bs, IDLE, ZERO, PAGES, 0, 0, KSTACK_START, KSTACK_START);
    IdleStackIff(c.mem, IDLE);
    CallInvIff(c, Idle(IDLE));
    Extend(vs, bs, Idle(IDLE), Apply(c, Idle(IDLE)));
    ws, cs := vs + [Apply(c, Idle(IDLE))], bs + [Idle(IDLE)];
  }

  lemma UserTable(b: World<int>, c: World<int>)
    requires Inv(b) && Table(b.mem, PARENT) && PARENT != b.mem.zero && IDLE !in b.mem.maps && b.mem.free >= 1
    requires c == b.(mem := GrowStack(b.mem, PARENT, TOP, 1))
    ensures IDLE !in c.mem.maps
  {
    GrowStackGrows(b.mem, PARENT, TOP, 1);
  }

  // ---------------------------------------------------------------- a break that fails

  lemma {:induction false} CountAtLeast(e: seq<Pte>, k: nat, n: nat)
    requires k <= n <= |e| && forall i :: 0 <= i < k ==> e[i].valid
    ensures Count(e, IsValid, 0, n) >= k
  {
    if n > 0 { CountAtLeast(e, if k < n then k else k - 1, n - 1); }
  }

  const FAR := SCRATCH_DST * PAGESIZE
  const NEAR := 20 * PAGESIZE

  /** The process with 100 more pages leaves too few frames for the break to get to page 125. */
  lemma FailStep(w: World<int>) returns (r: World<int>)
    requires At(w, PAGES, 15, {ZERO, IDLE, PARENT}) && w.mem.brk == HEAP
    ensures Link(w, Brk(FAR), r) && At(r, PAGES, 0, {ZERO, IDLE, PARENT}) && r.mem.brk == HEAP
    ensures !SetKernelBrk(w.mem, FAR).ok && r.mem != w.mem && r.mem.maps[PARENT] == w.mem.maps[PARENT]
    ensures forall v :: HEAP <= v < HEAP + 15 ==> r.mem.maps[ZERO][v].valid
  {
    r := Apply(w, Brk(FAR));
    CallInvIff(w, Brk(FAR));
    assert BrkPage(FAR) == SCRATCH_DST;
    BrkIs(w.mem, FAR);
    FailedBrkIff(w.mem, FAR);
  }

  /** A small program in its place sets 98 frames free. */
  lemma SmallStep(w: World<int>) returns (r: World<int>)
    requires At(w, PAGES, 0, {ZERO, IDLE, PARENT}) && w.mem.brk == HEAP && Table(w.mem, PARENT)
    requires forall v :: 0 <= v < 100 ==> w.mem.maps[PARENT][v].valid
    requires forall v :: HEAP <= v < HEAP + 15 ==> w.mem.maps[ZERO][v].valid
    ensures Link(w, Load(PARENT, Layout(0, 1, 1, 1, 1)), r) && Inv(r) && r.mem.brk == HEAP && r.mem.free >= 97
    ensures r.mem.zero == ZERO && forall v :: HEAP <= v < HEAP + 15 ==> r.mem.maps[ZERO][v].valid
  {
    var l := Layout(0, 1, 1, 1, 1);
    CountAtLeast(w.mem.maps[PARENT], 100, PAGES);
    r := Apply(w, Load(PARENT, l));
    CallInvIff(w, Load(PARENT, l));
    RebuildLaid(w.mem, PARENT, l, r.mem);
  }

  lemma RegrowStep(w: World<int>) returns (r: World<int>)
    requires Inv(w) && w.mem.brk == HEAP && w.mem.free >= 97 && w.mem.zero == ZERO
    requires forall v :: HEAP <= v < HEAP + 15 ==> w.mem.maps[ZERO][v].valid
    ensures Link(w, Brk(NEAR), r) && Inv(r) && SetKernelBrk(w.mem, NEAR).ok
    ensures forall v :: HEAP <= v < 20 ==> Leaked(r.mem, w.mem.maps[ZERO][v].pfn)
  {
    r := Apply(w, Brk(NEAR));
    CallInvIff(w, Brk(NEAR));
    assert BrkPage(NEAR) == 20;
    BrkIs(w.mem, NEAR);
    forall v | HEAP <= v < 20 ensures Leaked(r.mem, w.mem.maps[ZERO][v].pfn) { BrkLeaks(w.mem, NEAR, v); }
  }

  /** A process with 101 pages, and a break that then finds too few frames. */
  lemma BeforeRegrow() returns (ws: seq<World<int>>, cs: seq<Call<int>>, f: World<int>, i: nat)
    ensures IsRun(ws, cs) && ws[0] == World(Booted(ZERO, PAGES, 0, 0, HEAP, HEAP), None) && f == ws[|cs|]
    ensures i < |cs| && cs[i] == Brk(FAR) && Inv(ws[i]) && !SetKernelBrk(ws[i].mem, FAR).ok
            && ws[i + 1].mem != ws[i].mem
    ensures Inv(f) && f.mem.brk == HEAP && f.mem.free >= 97 && f.mem.zero == ZERO
    ensures forall v :: HEAP <= v < HEAP + 15 ==> f.mem.maps[ZERO][v].valid
  {
    var vs, bs, a := Start(PAGES);
    var b := GrowStep(a, PARENT, 0, 100, PAGES, 115, {ZERO, IDLE, PARENT});
    var c := FailStep(b);
    f := SmallStep(c);
    Extend(vs, bs, Grow(PARENT, 0, 100), b);
    Extend(vs + [b], bs + [Grow(PARENT, 0, 100)], Brk(FAR), c);
    Extend(vs + [b] + [c], bs + [Grow(PARENT, 0, 100)] + [Brk(FAR)], Load(PARENT, Layout(0, 1, 1, 1, 1)), f);
    ws := vs + [b] + [c] + [f];
    cs := bs + [Grow(PARENT, 0, 100)] + [Brk(FAR)] + [Load(PARENT, Layout(0, 1, 1, 1, 1))];
    i := |bs| + 1;
  }

  /** A call that fails keeps pages above the break, and the next one that succeeds leaks their frames. */
  lemma FailedBrkDeparture() returns (ws: seq<World<int>>, cs: seq<Call<int>>, i: nat)
    ensures IsRun(ws, cs) && ws[0] == World(Booted(ZERO, PAGES, 0, 0, HEAP, HEAP), None) && i + 1 < |cs|
    ensures cs[i] == Brk(FAR) && !SetKernelBrk(ws[i].mem, FAR).ok && ws[i + 1].mem != ws[i].mem && Inv(ws[i])
    ensures cs[|cs| - 1] == Brk(NEAR) && Inv(ws[|cs| - 1]) && Inv(ws[|cs|])
    ensures exists f: nat :: !Leaked(ws[|cs| - 1].mem, f) && Leaked(ws[|cs|].mem, f)
  {
    var vs, bs, w;
    vs, bs, w, i := BeforeRegrow();
    var r := RegrowStep(w);
    Extend(vs, bs, Brk(NEAR), r);
    ws, cs := vs + [r], bs + [Brk(NEAR)];
    assert Owns(w.mem, ZERO, HEAP);
    assert !Leaked(w.mem, w.mem.maps[ZERO][HEAP].pfn) && Leaked(r.mem, w.mem.maps[ZERO][HEAP].pfn);
  }

  // ---------------------------------------------------------------- a child that loses its stack

  const ADDRESS := TOP * PAGESIZE // in the region's top page
  const FAULT := REGION_1 + 120 * PAGESIZE // below it, not mapped

  /** What a table of this memory reads at that address. */
  function Seen(m: Mem<int>, t: int): Option<Byte>
    requires t in m.maps
  {
    ReadAt(m.pages, m.maps[t], ADDRESS)
  }

  lemma StoreStep(w: World<int>, frames: nat, free: nat, tables: set<int>, x: Byte) returns (r: World<int>)
    requires At(w, frames, free, tables) && Table(w.mem, PARENT) && w.mem.maps[PARENT][TOP].valid
    requires forall f :: 0 <= f < frames ==> w.mem.pages[f] == seq(PAGESIZE, _ => 0)
    ensures Link(w, Store(Write(PARENT, ADDRESS, x)), r) && At(r, frames, free, tables)
    ensures r.mem.maps == w.mem.maps && Seen(r.mem, PARENT) == Some(x)
    ensures forall f :: 0 <= f < frames && r.mem.usage[f] == Free ==> r.mem.pages[f] == seq(PAGESIZE, _ => 0)
  {
    r := Apply(w, Store(Write(PARENT, ADDRESS, x)));
    CallInvIff(w, Store(Write(PARENT, ADDRESS, x)));
    assert ADDRESS / PAGESIZE == TOP && ADDRESS % PAGESIZE == 0;
    assert Owns(w.mem, PARENT, TOP);
  }

  /** A page that was just mapped holds what its frame held. */
  lemma GrownReads(o: Mem<int>, r: Mem<int>, t: int, from: nat)
    requires from <= TOP && Mapped(o, r, t, from, PAGES - from, User, READ_WRITE) && Table(o, t)
             && |o.pages| == |o.usage|
    requires forall f :: 0 <= f < |o.usage| && o.usage[f] == Free ==> o.pages[f] == seq(PAGESIZE, _ => 0)
    ensures Seen(r, t) == Some(0)
  {
    assert ADDRESS / PAGESIZE == TOP && ADDRESS % PAGESIZE == 0;
  }

  /** A parent writes a byte to its stack and forks; the child reads it, faults further down, and then
      reads a different byte, while the parent's is still there. */
  lemma LostStackDeparture() returns (ws: seq<World<int>>, cs: seq<Call<int>>)
    ensures IsRun(ws, cs) && ws[0] == World(Booted(ZERO, 400, 0, 0, HEAP, HEAP), None)
    ensures |cs| > 0 && Inv(ws[|cs| - 1]) && Inv(ws[|cs|])
    ensures cs[|cs| - 1] == Grow(CHILD, PageOf(FAULT), Requested(FAULT, USER_STACK_BASE))
    ensures CHILD in ws[|cs| - 1].mem.maps && Seen(ws[|cs| - 1].mem, CHILD) == Some(7)
    ensures CHILD in ws[|cs|].mem.maps && Seen(ws[|cs|].mem, CHILD) == Some(0)
    ensures PARENT in ws[|cs|].mem.maps && Seen(ws[|cs|].mem, PARENT) == Some(7)
  {
    var vs, bs, f := BeforeFork();
    var g := ForkStep(f);
    var r := FaultStep(g);
    Extend(vs, bs, Copy(PARENT, CHILD), g);
    Extend(vs + [g], bs + [Copy(PARENT, CHILD)], Grow(CHILD, 120, 8), r);
    ws, cs := vs + [g] + [r], bs + [Copy(PARENT, CHILD)] + [Grow(CHILD, 120, 8)];
    assert PageOf(FAULT) == 120 && Requested(FAULT, USER_STACK_BASE) == 8;
  }

  lemma BeforeFork() returns (ws: seq<World<int>>, cs: seq<Call<int>>, f: World<int>)
    ensures IsRun(ws, cs) && ws[0] == World(Booted(ZERO, 400, 0, 0, HEAP, HEAP), None) && f == ws[|cs|]
    ensures At(f, 400, 387, {ZERO, IDLE, PARENT, CHILD}) && Copying(f.mem, PARENT, CHILD)
    ensures f.mem.maps[CHILD] == NoPages() && Zeroed(f, PARENT)
  {
    var vs, bs, d := Start(400);
    var e := StoreStep(d, 400, 387, {ZERO, IDLE, PARENT}, 7);
    f := CreateStep(e, CHILD, 400, 387, {ZERO, IDLE, PARENT});
    Extend(vs, bs, Store(Write(PARENT, ADDRESS, 7)), e);
    Extend(vs + [e], bs + [Store(Write(PARENT, ADDRESS, 7))], Create(CHILD), f);
    ws, cs := vs + [e] + [f], bs + [Store(Write(PARENT, ADDRESS, 7))] + [Create(CHILD)];
  }

  /** Free frames hold zeros, and a process reads 7 there. */
  ghost predicate Zeroed(w: World<int>, t: int) {
    && Inv(w) && t in w.mem.maps && Seen(w.mem, t) == Some(7) && |w.mem.pages| == |w.mem.usage| == 400
    && forall f :: 0 <= f < 400 && w.mem.usage[f] == Free ==> w.mem.pages[f] == seq(PAGESIZE, _ => 0)
  }

  lemma ForkStep(w: World<int>) returns (g: World<int>)
    requires At(w, 400, 387, {ZERO, IDLE, PARENT, CHILD}) && Copying(w.mem, PARENT, CHILD) && Zeroed(w, PARENT)
    requires w.mem.maps[CHILD] == NoPages()
    ensures Link(w, Copy(PARENT, CHILD), g) && Zeroed(g, PARENT) && Zeroed(g, CHILD)
    ensures g.mem.free >= PAGES && Table(g.mem, CHILD) && g.mem.zero == ZERO
  {
    g := CopyStep(w, 400, 387, {ZERO, IDLE, PARENT, CHILD});
    CopyUpToIs(w.mem, PARENT, CHILD, PAGES);
    ForkReads(w.mem, g.mem, PARENT, CHILD, ADDRESS);
    CountAtMost(w.mem.maps[PARENT], IsValid, PAGES);
  }

  lemma FaultStep(g: World<int>) returns (r: World<int>)
    requires Zeroed(g, PARENT) && Zeroed(g, CHILD) && g.mem.free >= PAGES && Table(g.mem, CHILD) && g.mem.zero == ZERO
    ensures Link(g, Grow(CHILD, 120, 8), r) && Inv(r)
    ensures CHILD in r.mem.maps && Seen(r.mem, CHILD) == Some(0) && PARENT in r.mem.maps
            && Seen(r.mem, PARENT) == Some(7)
  {
    r := Apply(g, Grow(CHILD, 120, 8));
    CallInvIff(g, Grow(CHILD, 120, 8));
    GrowStackGrows(g.mem, CHILD, 120, 8);
    GrownReads(g.mem, r.mem, CHILD, 120);
  }
}
