/** Runs of the calls that touch frames and page tables, from boot on. */
module MemoryRuns {
  import opened Common
  import opened Frames
  import opened PageTables
  import opened Paging
  import opened Regions
  import opened Boot

  /** The memory and the kernel stack of the current process; at boot there is none yet. */
  datatype World<K> = World(mem: Mem<K>, cur: Option<K>)

  datatype Call<K> =
    | Create(table: K) // allocNewPCB's empty region 1 table
    | Copy(src: K, dst: K) // CopyPT
    | Grow(table: K, from: nat, pages: nat) // growStack
    | Brk(addr: nat) // SetKernelBrk
    | Load(table: K, layout: Layout) // LoadProgram
    | Idle(stack: K) // InitializeKernelStackIdle
    | Stack(stack: K) // InitializeKernelStackProcess
    | Inherit(stack: K) // KCCopy: the current kernel stack is copied
    | Switch(stack: K) // KCSwitch
    | Discard(table: K) // deletePCB frees a page table or kernel stack, but not its frames
    | Store(write: Write<K>) // a process writes a byte

  function NoPages(): seq<Pte> { seq(PAGES, _ => Unmapped(0, 0)) }

  /** Both kernel stacks are there, with frames that exist. */
  predicate Stacks<K(==)>(m: Mem<K>, k: K, c: K) {
    && Regions.Stack(m, k) && Regions.Stack(m, c) && k != c
    && forall i :: 0 <= i < KSTACK_PAGES ==> m.maps[k][i].pfn < |m.pages| && m.maps[c][i].pfn < |m.pages|
  }

  /** The call makes sense: its tables exist, and what the machine would halt on does not happen. */
  predicate Enabled<K(==)>(w: World<K>, c: Call<K>) {
    var m := w.mem;
    match c
    case Create(t) => t !in m.maps
    case Copy(s, d) => Copying(m, s, d)
    case Grow(t, from, n) => Table(m, t) && t != m.zero && from + n <= PAGES
    case Brk(_) => true
    case Load(t, l) => Table(m, t) && t != m.zero && Loadable(l)
    case Idle(k) => k !in m.maps && w.cur.None? && PAGES <= |m.usage|
    case Stack(k) => k !in m.maps && m.free >= KSTACK_PAGES
    case Inherit(k) => w.cur.Some? && Stacks(m, w.cur.value, k)
    case Switch(k) => k in m.maps && k != m.zero && |m.maps[k]| == KSTACK_PAGES
    case Discard(t) => t in m.maps && t != m.zero && w.cur != Some(t)
    case Store(s) => s.table in m.maps
  }

  function Apply<K>(w: World<K>, c: Call<K>): World<K>
    requires Table(w.mem, w.mem.zero) && w.mem.brk <= KSTACK_START && |w.mem.pages| == |w.mem.usage| && Enabled(w, c)
  {
    var m := w.mem;
    match c
    case Create(t) => w.(mem := m.(maps := m.maps[t := NoPages()]))
    case Copy(s, d) => w.(mem := CopyUpTo(m, s, d, PAGES).mem)
    case Grow(t, from, n) => w.(mem := GrowStack(m, t, from, n))
    case Brk(addr) => w.(mem := SetKernelBrk(m, addr).mem)
    case Load(t, l) => w.(mem := Rebuild(m, t, l))
    case Idle(k) => World(IdleStack(m, k), Some(k))
    case Stack(k) => w.(mem := AddStack(m, k))
    case Inherit(k) => w.(mem := CopyStack(m, w.cur.value, k))
    case Switch(k) => World(SwitchTo(m, k), Some(k))
    case Discard(t) => w.(mem := m.(maps := m.maps - {t}))
    case Store(s) => w.(mem := WriteAt(m, s))
  }

  /** A loaded program finds the frames it needs, and the boot stack its own. */
  ghost predicate Enough<K>(m: Mem<K>, c: Call<K>)
    requires c.Load? ==> Table(m, c.table)
  {
    match c
    case Load(t, l) => l.textPages + l.dataPages + l.stackPages <= m.free + Count(m.maps[t], IsValid, 0, PAGES)
    case Idle(_) => Unnamed(m, KSTACK_START) && Unnamed(m, KSTACK_START + 1)
    case _ => true
  }

  // ---------------------------------------------------------------- the window

  /** Region 0's top pages are the kernel stack of the current process; at boot, the boot stack. */
  ghost predicate Window<K>(w: World<K>) {
    && Table(w.mem, w.mem.zero) && w.cur != Some(w.mem.zero)
    && match w.cur
       case None => w.mem.maps[w.mem.zero][KSTACK_START..] == IdleEntries()
       case Some(k) => Shows(w.mem, k)
  }

  ghost predicate Inv<K>(w: World<K>) { Sound(w.mem) && w.mem.brk <= KSTACK_START && Window(w) }

  /** The window and the stack it shows are left alone. */
  ghost predicate Aside<K>(m: Mem<K>, r: Mem<K>, cur: Option<K>) {
    && Table(m, m.zero) && Table(r, r.zero) && r.zero == m.zero
    && (forall v :: KSTACK_START <= v < PAGES ==> r.maps[m.zero][v] == m.maps[m.zero][v])
    && (cur.Some? && cur.value in m.maps ==> cur.value in r.maps && r.maps[cur.value] == m.maps[cur.value])
  }

  lemma WindowAside<K>(m: Mem<K>, r: Mem<K>, cur: Option<K>)
    requires Window(World(m, cur)) && Aside(m, r, cur)
    ensures Window(World(r, cur))
  {
    assert r.maps[m.zero][KSTACK_START..] == m.maps[m.zero][KSTACK_START..];
  }

  // ---------------------------------------------------------------- each call

  lemma GrowInv<K>(w: World<K>, t: K, from: nat, n: nat)
    requires Inv(w) && Table(w.mem, t) && t != w.mem.zero && from + n <= PAGES
    ensures Inv(w.(mem := GrowStack(w.mem, t, from, n)))
  {
    var m := w.mem;
    if n <= m.free { GrowStackGrows(m, t, from, n); } else { GrowStackGivesBack(m, t, from, n); }
    WindowAside(m, GrowStack(m, t, from, n), w.cur);
  }

  lemma CopyInv<K>(w: World<K>, s: K, d: K)
    requires Inv(w) && Copying(w.mem, s, d)
    ensures Inv(w.(mem := CopyUpTo(w.mem, s, d, PAGES).mem))
  {
    CopyUpToSound(w.mem, s, d, PAGES);
    CopyUpToIs(w.mem, s, d, PAGES);
    WindowAside(w.mem, CopyUpTo(w.mem, s, d, PAGES).mem, w.cur);
  }

  lemma BrkInv<K>(w: World<K>, addr: nat)
    requires Inv(w)
    ensures Inv(w.(mem := SetKernelBrk(w.mem, addr).mem))
  {
    BrkSound(w.mem, addr);
    BrkIs(w.mem, addr);
    WindowAside(w.mem, SetKernelBrk(w.mem, addr).mem, w.cur);
  }

  lemma StackInv<K>(w: World<K>, k: K)
    requires Inv(w) && k !in w.mem.maps && w.mem.free >= KSTACK_PAGES
    ensures Inv(w.(mem := AddStack(w.mem, k)))
  {
    var m := w.mem;
    var n := m.(maps := m.maps[k := [Unmapped(0, 0), Unmapped(0, 0)]]);
    NewTableSound(m, k, [Unmapped(0, 0), Unmapped(0, 0)]);
    MapRangeSound(n, k, 0, KSTACK_PAGES, Kernel, READ_WRITE, AddStack(m, k));
    MapRangeIs(n, k, 0, KSTACK_PAGES, Kernel, READ_WRITE, AddStack(m, k));
    WindowAside(m, AddStack(m, k), w.cur);
  }

  lemma InheritInv<K>(w: World<K>, c: K)
    requires Inv(w) && w.cur.Some? && Stacks(w.mem, w.cur.value, c)
    ensures Inv(w.(mem := CopyStack(w.mem, w.cur.value, c)))
  {
    CopyStackIs(w.mem, w.cur.value, c);
    WindowAside(w.mem, CopyStack(w.mem, w.cur.value, c), w.cur);
  }

  lemma DiscardInv<K>(w: World<K>, t: K)
    requires Inv(w) && t in w.mem.maps && t != w.mem.zero && w.cur != Some(t)
    ensures Inv(w.(mem := w.mem.(maps := w.mem.maps - {t})))
  {
    var m := w.mem;
    var r := m.(maps := m.maps - {t});
    forall v, i | v in r.maps && Owns(r, v, i) ensures Owns(m, v, i) && r.maps[v][i] == m.maps[v][i] {}
    WindowAside(m, r, w.cur);
  }

  lemma StoreInv<K>(w: World<K>, s: Write<K>)
    requires Inv(w) && s.table in w.mem.maps
    ensures Inv(w.(mem := WriteAt(w.mem, s)))
  {
    var m, r := w.mem, WriteAt(w.mem, s);
    forall t, i | t in r.maps && Owns(r, t, i) ensures Owns(m, t, i) && r.maps[t][i] == m.maps[t][i] {}
    FewerSound(m, r);
    WindowAside(m, r, w.cur);
  }

  lemma LoadInvIff<K>(w: World<K>, t: K, l: Layout)
    requires Inv(w) && Table(w.mem, t) && t != w.mem.zero && Loadable(l)
    ensures Inv(w.(mem := Rebuild(w.mem, t, l))) <==> Enough(w.mem, Load(t, l))
  {
    RebuildIff(w.mem, t, l);
    if Enough(w.mem, Load(t, l)) {
      RebuildLaid(w.mem, t, l, Rebuild(w.mem, t, l));
      WindowAside(w.mem, Rebuild(w.mem, t, l), w.cur);
    }
  }

  lemma IdleInvIff<K>(w: World<K>, k: K)
    requires Inv(w) && k !in w.mem.maps && w.cur.None? && PAGES <= |w.mem.usage|
    ensures Inv(World(IdleStack(w.mem, k), Some(k))) <==> Enough(w.mem, Idle(k))
  {
    IdleStackIff(w.mem, k);
  }

  /** A call keeps the memory sound, and the window on the current kernel stack, exactly when it is
      neither a program loaded without frames enough nor a boot stack whose frames are in use. */
  lemma CallInvIff<K>(w: World<K>, c: Call<K>)
    requires Inv(w) && Enabled(w, c)
    ensures Inv(Apply(w, c)) <==> Enough(w.mem, c)
  {
    match c
    case Create(t) =>
      NewTableSound(w.mem, t, NoPages());
      WindowAside(w.mem, Apply(w, c).mem, w.cur);
    case Copy(s, d) => CopyInv(w, s, d);
    case Grow(t, from, n) => GrowInv(w, t, from, n);
    case Brk(addr) => BrkInv(w, addr);
    case Load(t, l) => LoadInvIff(w, t, l);
    case Idle(k) => IdleInvIff(w, k);
    case Stack(k) => StackInv(w, k);
    case Inherit(k) => InheritInv(w, k);
    case Switch(k) => SwitchToIs(w.mem, k);
    case Discard(t) => DiscardInv(w, t);
    case Store(s) => StoreInv(w, s);
  }

  // ---------------------------------------------------------------- runs

  /** ws[i + 1] is what call i makes of ws[i]. */
  ghost predicate IsRun<K>(ws: seq<World<K>>, cs: seq<Call<K>>) {
    && |ws| == |cs| + 1
    && forall i :: 0 <= i < |cs| ==>
         && Table(ws[i].mem, ws[i].mem.zero) && ws[i].mem.brk <= KSTACK_START && |ws[i].mem.pages| == |ws[i].mem.usage|
         && Enabled(ws[i], cs[i]) && ws[i + 1] == Apply(ws[i], cs[i])
  }

  /** Every state up to k is sound and shows the current stack. */
  ghost predicate SoundUpTo<K>(ws: seq<World<K>>, k: nat)
    requires k < |ws|
  {
    Inv(ws[k]) && (k > 0 ==> SoundUpTo(ws, k - 1))
  }

  /** Every program loaded and boot stack set up by the first k calls found its frames. */
  ghost predicate EnoughUpTo<K>(ws: seq<World<K>>, cs: seq<Call<K>>, k: nat)
    requires IsRun(ws, cs) && k <= |cs|
  {
    k > 0 ==> Enough(ws[k - 1].mem, cs[k - 1]) && EnoughUpTo(ws, cs, k - 1)
  }

  /** In every run from a sound memory, all states are sound exactly when every program loaded, and the
      boot stack, found its frames. */
  lemma {:induction false} RunIff<K>(ws: seq<World<K>>, cs: seq<Call<K>>, k: nat)
    requires IsRun(ws, cs) && Inv(ws[0]) && k <= |cs|
    ensures SoundUpTo(ws, k) <==> EnoughUpTo(ws, cs, k)
  {
    if k > 0 {
      RunIff(ws, cs, k - 1);
      if SoundUpTo(ws, k - 1) { CallInvIff(ws[k - 1], cs[k - 1]); }
    }
  }
}
