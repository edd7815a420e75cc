/** The memory the boot code leaves, and the kernel stack of the idle process. */
module Boot {
  import opened Frames
  import opened PageTables
  import opened Regions

  function BootEntry(text: nat, data: nat, orig: nat, v: nat): Pte {
    if text <= v < data then Pte(true, PROT_READ + PROT_EXEC, v)
    else if data <= v < orig || KSTACK_START <= v then Pte(true, READ_WRITE, v)
    else Unmapped(0, 0)
  }

  /** InitializeFreeFrameList and InitializeVM: frames up to the kernel break are taken; text, data and heap
      up to the original break are mapped where they were loaded; and there is a window on the boot stack,
      whose frames are not taken yet. */
  function Booted<K>(zero: K, frames: nat, text: nat, data: nat, orig: nat, brk: nat): Mem<K>
    requires brk <= frames
  {
    Mem(seq(frames, f => if f < brk then Kernel else Free), frames - brk, seq(frames, _ => seq(PAGESIZE, _ => 0)),
        zero, map[zero := seq(PAGES, v requires 0 <= v => BootEntry(text, data, orig, v))], brk)
  }

  /** Exactly the first k frames are taken. */
  predicate Taken(us: seq<Usage>, k: nat) {
    k <= |us| && forall f :: 0 <= f < |us| ==> (us[f] != Free <==> f < k)
  }

  lemma {:induction false} TakenCount(us: seq<Usage>, k: nat, n: nat)
    requires Taken(us, k) && n <= |us|
    ensures Count(us, IsFree, 0, n) == if n <= k then 0 else n - k
  {
    if n > 0 { TakenCount(us, k, n - 1); }
  }

  /** Where the parts of the kernel lie, in pages, and how many frames there are. */
  predicate Bootable(frames: nat, text: nat, data: nat, orig: nat, brk: nat) {
    text <= data <= orig <= KSTACK_START && brk <= KSTACK_START && PAGES <= frames < NO_FRAME
  }

  lemma BootTaken<K>(zero: K, frames: nat, text: nat, data: nat, orig: nat, brk: nat)
    requires Bootable(frames, text, data, orig, brk)
    ensures var m := Booted(zero, frames, text, data, orig, brk); Taken(m.usage, brk) && Counted(m)
  {
    TakenCount(Booted(zero, frames, text, data, orig, brk).usage, brk, frames);
  }

  /** That memory is sound exactly when the break has not gone below the pages mapped at boot. */
  lemma BootSoundIff<K>(zero: K, frames: nat, text: nat, data: nat, orig: nat, brk: nat)
    requires Bootable(frames, text, data, orig, brk)
    ensures Sound(Booted(zero, frames, text, data, orig, brk)) <==> orig <= brk || text == orig
  {
    var m := Booted(zero, frames, text, data, orig, brk);
    BootTaken(zero, frames, text, data, orig, brk);
    if orig <= brk || text == orig {
      forall t, i | t in m.maps && Owns(m, t, i) ensures t == zero && m.maps[t][i].pfn == i < brk {}
    } else {
      assert Owns(m, zero, orig - 1);
    }
  }

  lemma BootedIs<K>(m: Mem<K>, frames: nat, text: nat, data: nat, orig: nat, brk: nat)
    requires Bootable(frames, text, data, orig, brk)
    requires |m.usage| == |m.pages| == frames && m.free == frames - brk && m.brk == brk
    requires forall f :: 0 <= f < frames ==> m.usage[f] == if f < brk then Kernel else Free
    requires forall f :: 0 <= f < frames ==> m.pages[f] == seq(PAGESIZE, _ => 0)
    requires m.maps.Keys == {m.zero} && |m.maps[m.zero]| == PAGES
    requires forall v :: 0 <= v < PAGES ==> m.maps[m.zero][v] == BootEntry(text, data, orig, v)
    ensures m == Booted(m.zero, frames, text, data, orig, brk)
  {
    var b := Booted(m.zero, frames, text, data, orig, brk);
    assert m.usage == b.usage && m.pages == b.pages;
    assert m.maps[m.zero] == b.maps[m.zero];
    assert m.maps == b.maps;
  }

  // ---------------------------------------------------------------- the idle stack

  /** allocSpecificFrame, its answer ignored. */
  function TryTake<K>(m: Mem<K>, f: nat, u: Usage): Mem<K> {
    if f < |m.usage| && m.usage[f] == Free then Take(m, f, u) else m
  }

  function IdleEntries(): seq<Pte> { [Pte(true, READ_WRITE, KSTACK_START), Pte(true, READ_WRITE, KSTACK_START + 1)] }

  /** InitializeKernelStackIdle at address k. */
  function IdleStack<K>(m: Mem<K>, k: K): Mem<K> {
    var r := TryTake(TryTake(m, KSTACK_START, Kernel), KSTACK_START + 1, Kernel);
    r.(maps := r.maps[k := IdleEntries()])
  }

  lemma TryTakeSound<K>(m: Mem<K>, f: nat, u: Usage)
    requires Sound(m) && f < |m.usage| && u != Free
    ensures var r := TryTake(m, f, u);
            Sound(r) && r.usage[f] != Free && r.maps == m.maps && forall g :: Unnamed(r, g) <==> Unnamed(m, g)
  {
    if m.usage[f] == Free { TakeSound(m, f, u); }
    var r := TryTake(m, f, u);
    assert forall t, i :: t in m.maps ==> Owns(r, t, i) == Owns(m, t, i);
  }

  lemma NewTableFewer<K>(m: Mem<K>, k: K, e: seq<Pte>)
    requires k !in m.maps && forall i :: 0 <= i < |e| ==> !e[i].valid
    ensures Fewer(m, m.(maps := m.maps[k := e]))
  {
    var r := m.(maps := m.maps[k := e]);
    forall t, i | t in r.maps && Owns(r, t, i) ensures Owns(m, t, i) && r.maps[t][i] == m.maps[t][i] {}
  }

  lemma MapUnnamed<K>(m: Mem<K>, t: K, i: nat, e: Pte, f: nat)
    requires Unnamed(m, f) && t in m.maps && i < |m.maps[t]| && e.pfn != f
    ensures Unnamed(Put(m, t, i, e), f)
  {
    var r := Put(m, t, i, e);
    forall v, j | v in r.maps && Owns(r, v, j) ensures (v == t && j == i) || Owns(m, v, j) {}
  }

  lemma IdleEntriesSound<K>(m: Mem<K>, k: K, r: Mem<K>)
    requires Sound(m) && k !in m.maps && PAGES <= |m.usage| && r == m.(maps := m.maps[k := IdleEntries()])
    requires m.usage[KSTACK_START] != Free && m.usage[KSTACK_START + 1] != Free
    requires Unnamed(m, KSTACK_START) && Unnamed(m, KSTACK_START + 1)
    ensures Sound(r)
  {
    var blank := [Unmapped(0, 0), Unmapped(0, 0)];
    var a := m.(maps := m.maps[k := blank]);
    var b := Put(a, k, 0, IdleEntries()[0]);
    NewTableSound(m, k, blank);
    NewTableFewer(m, k, blank);
    FewerUnnamed(m, a, KSTACK_START);
    FewerUnnamed(m, a, KSTACK_START + 1);
    MapSound(a, k, 0, IdleEntries()[0]);
    MapUnnamed(a, k, 0, IdleEntries()[0], KSTACK_START + 1);
    MapSound(b, k, 1, IdleEntries()[1]);
    assert Put(b, k, 1, IdleEntries()[1]).maps[k] == IdleEntries();
  }

  lemma IdleEntriesNamed<K>(m: Mem<K>, k: K, r: Mem<K>, f: nat)
    requires Sound(r) && k !in m.maps && k != m.zero && r.maps == m.maps[k := IdleEntries()] && r.zero == m.zero
    requires f == KSTACK_START || f == KSTACK_START + 1
    ensures Unnamed(m, f)
  {
    assert Owns(r, k, 0) && Owns(r, k, 1);
    forall t, i | t in m.maps && Owns(m, t, i) ensures m.maps[t][i].pfn != f { assert Owns(r, t, i); }
  }

  /** The idle stack's entries are right exactly when no entry names those frames yet. */
  lemma IdleStackIff<K>(m: Mem<K>, k: K)
    requires Sound(m) && k !in m.maps && PAGES <= |m.usage|
    ensures Sound(IdleStack(m, k)) <==> Unnamed(m, KSTACK_START) && Unnamed(m, KSTACK_START + 1)
  {
    var a := TryTake(m, KSTACK_START, Kernel);
    var b := TryTake(a, KSTACK_START + 1, Kernel);
    TryTakeSound(m, KSTACK_START, Kernel);
    TryTakeSound(a, KSTACK_START + 1, Kernel);
    if Unnamed(m, KSTACK_START) && Unnamed(m, KSTACK_START + 1) { IdleEntriesSound(b, k, IdleStack(m, k)); }
    if Sound(IdleStack(m, k)) {
      IdleEntriesNamed(b, k, IdleStack(m, k), KSTACK_START);
      IdleEntriesNamed(b, k, IdleStack(m, k), KSTACK_START + 1);
    }
  }

  /** While nothing was freed yet, both are still free exactly when at most 126 frames were taken; no
      entry names a free frame. */
  lemma IdleFramesFree<K>(m: Mem<K>, k: nat)
    requires Sound(m) && Taken(m.usage, k) && PAGES <= |m.usage|
    ensures m.usage[KSTACK_START] == Free && m.usage[KSTACK_START + 1] == Free <==> k <= KSTACK_START
    ensures k <= KSTACK_START ==> Unnamed(m, KSTACK_START) && Unnamed(m, KSTACK_START + 1)
  {
  }

  /** Frames are handed out lowest first, so mapping n pages takes the next n frames. */
  lemma MapNextTakes<K>(m: Mem<K>, t: K, i: nat, u: Usage, prot: nat, k: nat)
    requires t in m.maps && i < |m.maps[t]| && Taken(m.usage, k) && k < |m.usage| && u != Free
    ensures Taken(MapNext(m, t, i, u, prot).usage, k + 1) && MapNext(m, t, i, u, prot).maps[t][i].pfn == k
  {
    FirstFreeFromIs(m.usage, 0, k);
  }

  lemma {:induction false} MapRangeTakes<K>(m: Mem<K>, t: K, from: nat, n: nat, u: Usage, prot: nat, k: nat)
    requires t in m.maps && from + n <= |m.maps[t]| && Taken(m.usage, k) && k + n <= |m.usage| && u != Free
    ensures Taken(MapRange(m, t, from, n, u, prot).usage, k + n)
    ensures |MapRange(m, t, from, n, u, prot).usage| == |m.usage|
  {
    if n > 0 {
      MapRangeTakes(m, t, from, n - 1, u, prot, k);
      MapNextTakes(MapRange(m, t, from, n - 1, u, prot), t, from + (n - 1), u, prot, k + (n - 1));
    }
  }
}
