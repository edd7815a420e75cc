/** What the boot code does with frames before it sets up the idle process's kernel stack. */
module BootRuns {
  import opened Common
  import opened Frames
  import opened PageTables
  import opened Regions
  import opened Boot
  import opened MemoryRuns

  /** A call that only takes frames, and finds them. */
  predicate Takes<K>(m: Mem<K>, c: Call<K>) {
    match c
    case Create(_) => true
    case Grow(_, _, n) => n <= m.free
    case Brk(addr) => addr != 0 && m.brk <= BrkPage(addr) < KSTACK_START && BrkPage(addr) - m.brk <= m.free
    case _ => false
  }

  /** The frames taken are the lowest ones, and as many as the count says. */
  predicate Packed<K>(m: Mem<K>) { m.free <= |m.usage| && Taken(m.usage, |m.usage| - m.free) }

  lemma RangePacked<K>(m: Mem<K>, t: K, from: nat, n: nat, u: Usage, r: Mem<K>)
    requires Sound(m) && Packed(m) && t in m.maps && from + n <= |m.maps[t]| && n <= m.free && u != Free
    requires r == MapRange(m, t, from, n, u, READ_WRITE)
    ensures Packed(r) && |r.usage| == |m.usage|
  {
    MapRangeTakes(m, t, from, n, u, READ_WRITE, |m.usage| - m.free);
    MapRangeSound(m, t, from, n, u, READ_WRITE, r);
  }

  lemma TakesPacked<K>(w: World<K>, c: Call<K>, r: World<K>)
    requires Inv(w) && Enabled(w, c) && Takes(w.mem, c) && Packed(w.mem) && r == Apply(w, c)
    ensures Packed(r.mem) && |r.mem.usage| == |w.mem.usage| && r.cur == w.cur
  {
    var m := w.mem;
    match c
    case Create(_) =>
    case Grow(t, from, n) => RangePacked(m, t, from, n, User, GrowStack(m, t, from, n));
    case Brk(addr) =>
      var n := BrkPage(addr) - m.brk;
      RangePacked(m, m.zero, m.brk, n, Kernel, MapRange(m, m.zero, m.brk, n, Kernel, READ_WRITE));
  }

  /** From boot on, while frames are only taken, they are taken from the lowest up. */
  lemma {:induction false} BootPacked<K>(ws: seq<World<K>>, cs: seq<Call<K>>, k: nat)
    requires IsRun(ws, cs) && k <= |cs| && Inv(ws[0]) && Packed(ws[0].mem)
    requires forall i :: 0 <= i < k ==> Takes(ws[i].mem, cs[i])
    ensures Inv(ws[k]) && Packed(ws[k].mem) && |ws[k].mem.usage| == |ws[0].mem.usage| && ws[k].cur == ws[0].cur
  {
    if k > 0 {
      BootPacked(ws, cs, k - 1);
      CallInvIff(ws[k - 1], cs[k - 1]);
      TakesPacked(ws[k - 1], cs[k - 1], ws[k]);
    }
  }

  lemma BootInv<K>(zero: K, frames: nat, text: nat, data: nat, orig: nat, brk: nat)
    requires Bootable(frames, text, data, orig, brk) && orig <= brk
    ensures var m := Booted(zero, frames, text, data, orig, brk); Inv(World(m, None)) && Packed(m)
  {
    BootTaken(zero, frames, text, data, orig, brk);
    BootSoundIff(zero, frames, text, data, orig, brk);
  }

  /** So InitializeKernelStackIdle, which does not look at what allocSpecificFrame answers, finds frames 126
      and 127 free exactly when at most 126 frames were taken before. */
  lemma IdleAfterBoot<K>(ws: seq<World<K>>, cs: seq<Call<K>>, zero: K, frames: nat, text: nat, data: nat, orig: nat,
                         brk: nat)
    requires Bootable(frames, text, data, orig, brk) && orig <= brk
    requires IsRun(ws, cs) && ws[0] == World(Booted(zero, frames, text, data, orig, brk), None)
    requires forall i :: 0 <= i < |cs| ==> Takes(ws[i].mem, cs[i])
    ensures var m := ws[|cs|].mem;
            && Inv(ws[|cs|]) && |m.usage| == frames
            && (m.usage[KSTACK_START] == Free && m.usage[KSTACK_START + 1] == Free <==> frames - m.free <= KSTACK_START)
            && (frames - m.free <= KSTACK_START ==> forall k: K :: Enough(m, Idle(k)))
  {
    BootInv(zero, frames, text, data, orig, brk);
    BootPacked(ws, cs, |cs|);
    IdleFramesFree(ws[|cs|].mem, frames - ws[|cs|].mem.free);
  }

  // ---------------------------------------------------------------- the boot order

  /** What KernelStart does before the idle stack: page tables, a kernel heap that does not shrink, and pages of
      user memory. */
  predicate BootCall<K>(m: Mem<K>, c: Call<K>) {
    match c
    case Create(_) => true
    case Grow(_, _, n) => n == 1
    case Brk(addr) => addr == 0 || m.brk <= BrkPage(addr)
    case _ => false
  }

  /** The pages of user memory among the first k calls. */
  function UserPages<K>(cs: seq<Call<K>>, k: nat): nat
    requires k <= |cs|
  {
    if k == 0 then 0 else UserPages(cs, k - 1) + if cs[k - 1].Grow? then 1 else 0
  }

  /** Where boot stands: the taken frames are the heap's and the user page's, and with a boot break of 126 the
      user page has frame 126. */
  ghost predicate Booting<K>(w: World<K>, frames: nat, brk: nat, user: nat) {
    && Inv(w) && w.cur.None? && |w.mem.usage| == frames && Packed(w.mem)
    && frames - w.mem.free == w.mem.brk + user && user <= 1
    && brk <= w.mem.brk && (w.mem.brk == brk || w.mem.brk <= SCRATCH_DST)
    && (brk == KSTACK_START && user == 1 ==> !Unnamed(w.mem, KSTACK_START))
  }

  lemma CreateBoots<K>(w: World<K>, t: K, r: World<K>, frames: nat, brk: nat, user: nat)
    requires Booting(w, frames, brk, user) && Enabled(w, Create(t)) && r == Apply(w, Create(t))
    ensures Booting(r, frames, brk, user)
  {
    CallInvIff(w, Create(t));
    if u, i :| u in w.mem.maps && Owns(w.mem, u, i) && w.mem.maps[u][i].pfn == KSTACK_START {
      assert Owns(r.mem, u, i);
    }
  }

  lemma BrkBoots<K>(w: World<K>, addr: nat, r: World<K>, frames: nat, brk: nat, user: nat)
    requires Booting(w, frames, brk, user) && BootCall(w.mem, Brk(addr)) && r == Apply(w, Brk(addr))
    requires PAGES <= frames
    ensures Booting(r, frames, brk, user)
  {
    var m := w.mem;
    BrkIs(m, addr);
    if addr != 0 && BrkPage(addr) < KSTACK_START {
      assert Takes(m, Brk(addr));
      CallInvIff(w, Brk(addr));
      TakesPacked(w, Brk(addr), r);
    }
  }

  lemma UserBoots<K>(w: World<K>, t: K, i: nat, r: World<K>, frames: nat, brk: nat)
    requires Booting(w, frames, brk, 0) && Enabled(w, Grow(t, i, 1)) && r == Apply(w, Grow(t, i, 1)) && PAGES <= frames
    requires brk <= KSTACK_START
    ensures Booting(r, frames, brk, 1)
  {
    var m := w.mem;
    assert m.free >= 1;
    CallInvIff(w, Grow(t, i, 1));
    TakesPacked(w, Grow(t, i, 1), r);
    GrowStackGrows(m, t, i, 1);
    UserFrame(m, t, i, frames - m.free, r.mem);
  }

  /** The page gets the lowest frame that is not taken. */
  lemma UserFrame<K>(m: Mem<K>, t: K, i: nat, k: nat, r: Mem<K>)
    requires Sound(m) && t in m.maps && t != m.zero && i < |m.maps[t]| && Taken(m.usage, k) && k < |m.usage|
             && m.free > 0
    requires r == GrowStack(m, t, i, 1)
    ensures !Unnamed(r, k)
  {
    MapNextTakes(m, t, i, User, READ_WRITE, k);
    assert MapRange(m, t, i, 0, User, READ_WRITE) == m;
    MapRangeUnroll(m, t, i, 0, User, READ_WRITE, m);
    assert Owns(r, t, i);
  }

  lemma {:induction false} BootOrder<K>(ws: seq<World<K>>, cs: seq<Call<K>>, frames: nat, brk: nat, k: nat)
    requires IsRun(ws, cs) && k <= |cs| && UserPages(cs, k) <= 1 && PAGES <= frames && brk <= KSTACK_START
    requires Booting(ws[0], frames, brk, 0) && forall i :: 0 <= i < k ==> BootCall(ws[i].mem, cs[i])
    ensures Booting(ws[k], frames, brk, UserPages(cs, k))
  {
    if k > 0 {
      BootOrder(ws, cs, frames, brk, k - 1);
      match cs[k - 1]
      case Create(t) => CreateBoots(ws[k - 1], t, ws[k], frames, brk, UserPages(cs, k));
      case Grow(t, i, n) => UserBoots(ws[k - 1], t, i, ws[k], frames, brk);
      case Brk(addr) => BrkBoots(ws[k - 1], addr, ws[k], frames, brk, UserPages(cs, k));
    }
  }

  /** However the boot code interleaves page tables, heap growth and at most one user page, the idle stack then
      leaves a sound memory exactly when the break at boot and the user page come to at most 126. */
  lemma BootIdleIff<K>(ws: seq<World<K>>, cs: seq<Call<K>>, k: K, zero: K, frames: nat, text: nat, data: nat,
                       orig: nat, brk: nat)
    requires Bootable(frames, text, data, orig, brk) && orig <= brk
    requires IsRun(ws, cs) && ws[0] == World(Booted(zero, frames, text, data, orig, brk), None)
    requires UserPages(cs, |cs|) <= 1 && forall i :: 0 <= i < |cs| ==> BootCall(ws[i].mem, cs[i])
    requires k !in ws[|cs|].mem.maps
    ensures Inv(ws[|cs|]) && Enabled(ws[|cs|], Idle(k))
    ensures Inv(Apply(ws[|cs|], Idle(k))) <==> brk + UserPages(cs, |cs|) <= KSTACK_START
  {
    BootInv(zero, frames, text, data, orig, brk);
    BootOrder(ws, cs, frames, brk, |cs|);
    var w := ws[|cs|];
    CallInvIff(w, Idle(k));
    if w.mem.brk + UserPages(cs, |cs|) <= KSTACK_START { IdleFramesFree(w.mem, frames - w.mem.free); }
  }
}
