/** The kernel heap, the address space of a new program, and kernel stacks. */
module Regions {
  import opened Frames
  import opened PageTables

  datatype Answer<K> = Answer(mem: Mem<K>, ok: bool)

  // ---------------------------------------------------------------- SetKernelBrk

  /** The page of an address rounded up, in 32 bits. */
  function BrkPage(addr: nat): nat { (addr + PAGESIZE - 1) % 0x1_0000_0000 / PAGESIZE }

  /** UnmapRegion0 and freeFrame of a mapped page; one that is not mapped is passed over. */
  function UnmapPage<K>(m: Mem<K>, v: nat): Mem<K>
    requires Table(m, m.zero) && v < PAGES
  {
    var e := m.maps[m.zero][v];
    if !e.valid then m
    else
      var r := Put(m, m.zero, v, Pte(false, 0, 0));
      if e.pfn < |m.usage| then Release(r, e.pfn) else r
  }

  /** The top n pages below the break, downwards. */
  function Shrink<K>(m: Mem<K>, n: nat): (r: Mem<K>)
    requires Table(m, m.zero) && n <= m.brk <= PAGES
    ensures Table(r, r.zero) && r.zero == m.zero
  {
    if n == 0 then m else UnmapPage(Shrink(m, n - 1), m.brk - n)
  }

  function SetKernelBrk<K>(m: Mem<K>, addr: nat): Answer<K>
    requires Table(m, m.zero) && m.brk <= KSTACK_START
  {
    var target := BrkPage(addr);
    if addr == 0 || target >= KSTACK_START then Answer(m, false)
    else if target < m.brk then Answer(Shrink(m, m.brk - target).(brk := target), true)
    else if target - m.brk <= m.free then
      Answer(MapRange(m, m.zero, m.brk, target - m.brk, Kernel, READ_WRITE).(brk := target), true)
    else Answer(MapRange(m, m.zero, m.brk, m.free, Kernel, READ_WRITE), false)
  }

  /** Only region 0's pages from `from` to `to` may differ, and they are unmapped. */
  ghost predicate Unmapped0<K>(m: Mem<K>, r: Mem<K>, from: nat, to: nat) {
    && Table(m, m.zero) && SameShape(m, r) && r.pages == m.pages
    && (forall t :: t in m.maps && t != m.zero ==> r.maps[t] == m.maps[t])
    && forall v :: 0 <= v < PAGES ==>
         if from <= v < to then !r.maps[m.zero][v].valid else r.maps[m.zero][v] == m.maps[m.zero][v]
  }

  lemma UnmapPageSound<K>(m: Mem<K>, v: nat)
    requires Sound(m) && v < KSTACK_START
    ensures Sound(UnmapPage(m, v))
    ensures m.maps[m.zero][v].valid ==> UnmapPage(m, v).free == m.free + 1
  {
    var e := m.maps[m.zero][v];
    if e.valid {
      assert Owns(m, m.zero, v);
      DropSound(m, m.zero, v, Pte(false, 0, 0));
      ReleaseSound(Put(m, m.zero, v, Pte(false, 0, 0)), e.pfn);
    }
  }

  lemma {:induction false} ShrinkSound<K>(m: Mem<K>, n: nat)
    requires Sound(m) && n <= m.brk <= KSTACK_START
    ensures Sound(Shrink(m, n))
  {
    if n > 0 {
      ShrinkSound(m, n - 1);
      UnmapPageSound(Shrink(m, n - 1), m.brk - n);
    }
  }

  lemma UnmapPageMore<K>(m: Mem<K>, o: Mem<K>, v: nat, to: nat)
    requires Unmapped0(m, o, v + 1, to) && v < to <= PAGES
    ensures Unmapped0(m, UnmapPage(o, v), v, to)
  {
  }

  /** Shrinking unmaps exactly the pages above the new break. */
  lemma {:induction false} ShrinkIs<K>(m: Mem<K>, n: nat)
    requires Table(m, m.zero) && n <= m.brk <= KSTACK_START
    ensures Unmapped0(m, Shrink(m, n), m.brk - n, m.brk) && Shrink(m, n).brk == m.brk
  {
    if n > 0 {
      ShrinkIs(m, n - 1);
      UnmapPageMore(m, Shrink(m, n - 1), m.brk - n, m.brk);
    }
  }

  lemma ShrinkFreesMore<K>(m: Mem<K>, n: nat, o: Mem<K>)
    requires Table(m, m.zero) && n < m.brk <= KSTACK_START && Sound(o) && Unmapped0(m, o, m.brk - n, m.brk)
    ensures UnmapPage(o, m.brk - (n + 1)).free == o.free + if m.maps[m.zero][m.brk - (n + 1)].valid then 1 else 0
  {
    UnmapPageSound(o, m.brk - (n + 1));
  }

  lemma ShrinkFreesAt<K>(m: Mem<K>, n: nat)
    requires Sound(m) && n < m.brk <= KSTACK_START
    ensures Shrink(m, n + 1).free == Shrink(m, n).free + if m.maps[m.zero][m.brk - (n + 1)].valid then 1 else 0
  {
    ShrinkIs(m, n);
    ShrinkSound(m, n);
    ShrinkFreesMore(m, n, Shrink(m, n));
  }

  /** It frees as many frames as were mapped there. */
  lemma {:induction false} ShrinkFrees<K>(m: Mem<K>, n: nat)
    requires Sound(m) && n <= m.brk <= KSTACK_START
    ensures Shrink(m, n).free == m.free + Count(m.maps[m.zero], IsValid, m.brk - n, n)
  {
    if n > 0 {
      ShrinkFrees(m, n - 1);
      ShrinkFreesAt(m, n - 1);
      CountFront(m.maps[m.zero], m.brk - n, n);
    }
  }

  lemma {:induction false} CountFront(e: seq<Pte>, from: nat, n: nat)
    requires from + n <= |e| && n > 0
    ensures Count(e, IsValid, from, n) == Count(e, IsValid, from + 1, n - 1) + if e[from].valid then 1 else 0
  {
    if n > 1 { CountFront(e, from, n - 1); }
  }

  /** Every outcome leaves the memory sound. */
  lemma BrkSound<K>(m: Mem<K>, addr: nat)
    requires Sound(m) && m.brk <= KSTACK_START
    ensures Sound(SetKernelBrk(m, addr).mem) && SetKernelBrk(m, addr).mem.brk <= KSTACK_START
  {
    var target := BrkPage(addr);
    if addr != 0 && target < m.brk {
      ShrinkSound(m, m.brk - target);
      BrkAside(Shrink(m, m.brk - target), target);
    } else if addr != 0 && target < KSTACK_START {
      var n := if target - m.brk <= m.free then target - m.brk else m.free;
      var r := MapRange(m, m.zero, m.brk, n, Kernel, READ_WRITE);
      MapRangeSound(m, m.zero, m.brk, n, Kernel, READ_WRITE, r);
      MapRangeIs(m, m.zero, m.brk, n, Kernel, READ_WRITE, r);
      BrkAside(r, target);
    }
  }

  /** Soundness does not depend on the break. */
  lemma BrkAside<K>(m: Mem<K>, brk: nat)
    requires Sound(m)
    ensures Sound(m.(brk := brk))
  {
    var r := m.(brk := brk);
    assert forall t, i :: t in m.maps ==> Owns(r, t, i) == Owns(m, t, i);
    FewerSound(m, r);
  }

  /** What a call does: nothing if it refuses the address, unmap above the new break, map up to it, or, out of
      frames, map what there is and fail with the break where it was. */
  lemma BrkIs<K>(m: Mem<K>, addr: nat)
    requires Sound(m) && m.brk <= KSTACK_START
    ensures var a, target := SetKernelBrk(m, addr), BrkPage(addr);
            && (a.ok <==> addr != 0 && target < KSTACK_START && target <= m.brk + m.free)
            && a.mem.brk == (if a.ok then target else m.brk)
            && (a.ok && target < m.brk ==>
                  && Unmapped0(m, a.mem, target, m.brk)
                  && a.mem.free == m.free + Count(m.maps[m.zero], IsValid, target, m.brk - target))
            && (a.ok && target >= m.brk ==>
                  Mapped(m, a.mem.(brk := m.brk), m.zero, m.brk, target - m.brk, Kernel, READ_WRITE))
            && (addr == 0 || target >= KSTACK_START ==> a.mem == m)
            && (!a.ok && addr != 0 && target < KSTACK_START ==>
                  Mapped(m, a.mem, m.zero, m.brk, m.free, Kernel, READ_WRITE))
  {
    var target := BrkPage(addr);
    if target < m.brk {
      ShrinkIs(m, m.brk - target);
      ShrinkFrees(m, m.brk - target);
    } else if target < KSTACK_START {
      var n := if target - m.brk <= m.free then target - m.brk else m.free;
      MapRangeIs(m, m.zero, m.brk, n, Kernel, READ_WRITE, MapRange(m, m.zero, m.brk, n, Kernel, READ_WRITE));
    }
  }

  /** A call that fails changes nothing exactly when the address is refused or there is no frame at all;
      otherwise it keeps what it mapped, above the break. */
  lemma FailedBrkIff<K>(m: Mem<K>, addr: nat)
    requires Sound(m) && m.brk <= KSTACK_START && !SetKernelBrk(m, addr).ok
    ensures SetKernelBrk(m, addr).mem == m <==> addr == 0 || BrkPage(addr) >= KSTACK_START || m.free == 0
  {
    if addr != 0 && BrkPage(addr) < KSTACK_START {
      MapRangeIs(m, m.zero, m.brk, m.free, Kernel, READ_WRITE, SetKernelBrk(m, addr).mem);
    }
  }

  /** Growing over a page that an earlier call left mapped above the break leaks its frame. */
  lemma BrkLeaks<K>(m: Mem<K>, addr: nat, i: nat)
    requires Sound(m) && m.brk <= KSTACK_START && SetKernelBrk(m, addr).ok
    requires m.brk <= i < BrkPage(addr) && m.maps[m.zero][i].valid
    ensures Leaked(SetKernelBrk(m, addr).mem, m.maps[m.zero][i].pfn)
  {
    var target, r := BrkPage(addr), SetKernelBrk(m, addr).mem;
    var o := MapRange(m, m.zero, m.brk, target - m.brk, Kernel, READ_WRITE);
    MapRangeLeaks(m, m.zero, m.brk, target - m.brk, Kernel, READ_WRITE, i, o);
    assert forall t, j :: t in o.maps ==> Owns(r, t, j) == Owns(o, t, j);
  }

  /** A call that grows the heap keeps every page of region 0 exactly when none above the break was mapped. */
  lemma BrkKeepsIff<K>(m: Mem<K>, addr: nat)
    requires Sound(m) && m.brk <= KSTACK_START && SetKernelBrk(m, addr).ok && m.brk <= BrkPage(addr)
    ensures Kept(m, SetKernelBrk(m, addr).mem, m.zero)
            <==> forall i :: m.brk <= i < BrkPage(addr) ==> !m.maps[m.zero][i].valid
  {
    var n := BrkPage(addr) - m.brk;
    MapRangeKeepsIff(m, m.zero, m.brk, n, Kernel, READ_WRITE, MapRange(m, m.zero, m.brk, n, Kernel, READ_WRITE));
  }

  /** A copied page goes through the scratch pages, so a kernel heap mapped up to the break survives
      CloneFrame exactly when the break is no higher than the source scratch page. */
  lemma HeapSurvivesClone<K>(m: Mem<K>, lo: nat, src: nat, dst: nat)
    requires Table(m, m.zero) && src < |m.pages| && dst < |m.pages| && lo <= SCRATCH_SRC && m.brk <= KSTACK_START
    requires forall v :: lo <= v < m.brk ==> m.maps[m.zero][v].valid
    ensures var r := Clone(m, src, dst);
            (forall v :: lo <= v < m.brk ==> r.maps[m.zero][v] == m.maps[m.zero][v]) <==> m.brk <= SCRATCH_SRC
  {
    var r := Clone(m, src, dst);
    assert !r.maps[m.zero][SCRATCH_SRC].valid;
  }

  /** SetKernelBrk does let the break get there: the highest it allows is one page too high. */
  lemma HighestBreak<K>(m: Mem<K>)
    requires Sound(m) && m.brk <= SCRATCH_SRC && m.free >= SCRATCH_DST - m.brk
    ensures var a := SetKernelBrk(m, SCRATCH_DST * PAGESIZE); a.ok && a.mem.brk == SCRATCH_DST > SCRATCH_SRC
  {
    assert BrkPage(SCRATCH_DST * PAGESIZE) == SCRATCH_DST;
  }

  // ---------------------------------------------------------------- LoadProgram's region 1

  function SetProt<K>(m: Mem<K>, t: K, from: nat, n: nat, prot: nat): (r: Mem<K>)
    requires t in m.maps && from + n <= |m.maps[t]|
    ensures t in r.maps && |r.maps[t]| == |m.maps[t]|
  {
    if n == 0 then m
    else
      var o := SetProt(m, t, from, n - 1, prot);
      Put(o, t, from + (n - 1), o.maps[t][from + (n - 1)].(prot := prot))
  }

  /** Where the sections of a program go, in pages: text, data with bss, and the stack at the top. */
  datatype Layout = Layout(text: nat, textPages: nat, data: nat, dataPages: nat, stackPages: nat)

  /** LoadProgram's check of the gap, and that the text lies in the region at all.  That the text ends
      before the data starts is not checked. */
  predicate Loadable(l: Layout) { l.text + l.textPages <= PAGES && l.stackPages + l.data + l.dataPages < PAGES }

  /** Throw the old region away, then map text, data and stack without a look at allocFrame's result. */
  function Rebuild<K>(m: Mem<K>, t: K, l: Layout): Mem<K>
    requires Table(m, t) && Loadable(l)
  {
    var d := DropRange(m, t, 0, PAGES);
    var a := MapRange(d, t, l.text, l.textPages, User, READ_WRITE);
    var b := MapRange(a, t, l.data, l.dataPages, User, READ_WRITE);
    var c := MapRange(b, t, PAGES - l.stackPages, l.stackPages, User, READ_WRITE);
    SetProt(c, t, l.text, l.textPages, PROT_READ + PROT_EXEC)
  }

  /** Only protections in the range changed. */
  ghost predicate Reprotected<K>(m: Mem<K>, r: Mem<K>, t: K, from: nat, n: nat, prot: nat) {
    && SameShape(m, r) && t in m.maps && from + n <= |m.maps[t]| && r == m.(maps := r.maps)
    && (forall v :: v in m.maps && v != t ==> r.maps[v] == m.maps[v])
    && forall i :: 0 <= i < |m.maps[t]| ==>
         r.maps[t][i] == if from <= i < from + n then m.maps[t][i].(prot := prot) else m.maps[t][i]
  }

  lemma {:induction false} SetProtIs<K>(m: Mem<K>, t: K, from: nat, n: nat, prot: nat)
    requires t in m.maps && from + n <= |m.maps[t]|
    ensures Reprotected(m, SetProt(m, t, from, n, prot), t, from, n, prot)
  {
    if n > 0 { SetProtIs(m, t, from, n - 1, prot); }
  }

  lemma ReprotectedSound<K>(m: Mem<K>, r: Mem<K>, t: K, from: nat, n: nat, prot: nat)
    requires Sound(m) && Reprotected(m, r, t, from, n, prot)
    ensures Sound(r)
  {
    forall v, i | v in r.maps && Owns(r, v, i) ensures Owns(m, v, i) && r.maps[v][i].pfn == m.maps[v][i].pfn {}
  }

  /** Even out of frames: the count stays right, nothing outside the range changes, and a range that
      does not get its frames ends in an entry that names none. */
  ghost predicate Strung<K>(m: Mem<K>, r: Mem<K>, t: K, from: nat, n: nat) {
    && Apart(m, r, t, from, n) && from + n <= |m.maps[t]| && Counted(r)
       && r.free == (if n <= m.free then m.free - n else 0)
    && (n > m.free ==> r.maps[t][from + (n - 1)].valid && r.maps[t][from + (n - 1)].pfn == NO_FRAME)
  }

  lemma StrungMore<K>(m: Mem<K>, o: Mem<K>, t: K, from: nat, n: nat)
    requires Strung(m, o, t, from, n) && from + n < |m.maps[t]|
    ensures Strung(m, MapNext(o, t, from + n, User, READ_WRITE), t, from, n + 1)
  {
    var f := FirstFree(o.usage);
    FirstFreeSome(o.usage);
    if f < |o.usage| { CountUpdate(o.usage, IsFree, |o.usage|, f, User); }
    var r := MapNext(o, t, from + n, User, READ_WRITE);
    ApartMore(m, o, t, from, n, r.maps[t][from + n], r);
  }

  lemma StrungNone<K>(m: Mem<K>, t: K, from: nat)
    requires Counted(m) && t in m.maps && from <= |m.maps[t]|
    ensures Strung(m, m, t, from, 0)
  {
  }

  lemma MapRangeStrungMore<K>(m: Mem<K>, t: K, from: nat, n: nat, o: Mem<K>, r: Mem<K>)
    requires t in m.maps && from + n < |m.maps[t]| && Strung(m, o, t, from, n)
    requires o == MapRange(m, t, from, n, User, READ_WRITE) && r == MapRange(m, t, from, n + 1, User, READ_WRITE)
    ensures Strung(m, r, t, from, n + 1)
  {
    MapRangeUnroll(m, t, from, n, User, READ_WRITE, o);
    StrungMore(m, o, t, from, n);
  }

  lemma {:induction false} MapRangeStrung<K>(m: Mem<K>, t: K, from: nat, n: nat, r: Mem<K>)
    requires Counted(m) && t in m.maps && from + n <= |m.maps[t]| && r == MapRange(m, t, from, n, User, READ_WRITE)
    ensures Strung(m, r, t, from, n)
    decreases n
  {
    if n == 0 {
      StrungNone(m, t, from);
    } else {
      var o := MapRange(m, t, from, n - 1, User, READ_WRITE);
      MapRangeStrung(m, t, from, n - 1, o);
      MapRangeStrungMore(m, t, from, n - 1, o, r);
    }
  }

  lemma NoFrameUnsound<K>(m: Mem<K>, t: K, i: nat)
    requires t in m.maps && t != m.zero && i < |m.maps[t]| && m.maps[t][i].valid && m.maps[t][i].pfn == NO_FRAME
    ensures !Sound(m)
  {
    assert Owns(m, t, i);
  }

  /** Once the frames run out, an entry of the last section that has pages has no frame behind it. */
  lemma ShortStays<K>(d: Mem<K>, a: Mem<K>, b: Mem<K>, c: Mem<K>, r: Mem<K>, t: K, l: Layout)
    requires Table(d, t) && t != d.zero && Loadable(l) && l.textPages + l.dataPages + l.stackPages > d.free
    requires Strung(d, a, t, l.text, l.textPages) && Strung(a, b, t, l.data, l.dataPages)
    requires Strung(b, c, t, PAGES - l.stackPages, l.stackPages)
             && Reprotected(c, r, t, l.text, l.textPages, PROT_READ + PROT_EXEC)
    ensures !Sound(r)
  {
    var i := if l.stackPages > b.free then PAGES - l.stackPages + (l.stackPages - 1)
             else if l.dataPages > a.free then l.data + (l.dataPages - 1)
             else l.text + (l.textPages - 1);
    NoFrameUnsound(r, t, i);
  }

  /** A program that does not get its frames leaves a valid entry with no frame behind it. */
  lemma RebuildShort<K>(m: Mem<K>, t: K, l: Layout)
    requires Sound(m) && Table(m, t) && t != m.zero && Loadable(l)
    requires l.textPages + l.dataPages + l.stackPages > m.free + Count(m.maps[t], IsValid, 0, PAGES)
    ensures !Sound(Rebuild(m, t, l))
  {
    var d := DropRange(m, t, 0, PAGES);
    var a := MapRange(d, t, l.text, l.textPages, User, READ_WRITE);
    var b := MapRange(a, t, l.data, l.dataPages, User, READ_WRITE);
    var c := MapRange(b, t, PAGES - l.stackPages, l.stackPages, User, READ_WRITE);
    SoundExist(m, t);
    DropRangeIs(m, t, 0, PAGES, d);
    DropRangeSound(m, t, 0, PAGES);
    MapRangeStrung(d, t, l.text, l.textPages, a);
    MapRangeStrung(a, t, l.data, l.dataPages, b);
    MapRangeStrung(b, t, PAGES - l.stackPages, l.stackPages, c);
    SetProtIs(c, t, l.text, l.textPages, PROT_READ + PROT_EXEC);
    ShortStays(d, a, b, c, Rebuild(m, t, l), t, l);
  }

  predicate InText(l: Layout, v: int) { l.text <= v < l.text + l.textPages }

  predicate InData(l: Layout, v: int) { l.data <= v < l.data + l.dataPages }

  predicate InStack(l: Layout, v: int) { PAGES - l.stackPages <= v < PAGES }

  /** The table maps the sections and nothing else. */
  predicate Laid(e: seq<Pte>, l: Layout) {
    && |e| == PAGES
    && (forall v :: 0 <= v < PAGES ==> (e[v].valid <==> InText(l, v) || InData(l, v) || InStack(l, v)))
    && forall v :: 0 <= v < PAGES && e[v].valid ==>
       e[v].prot == if InText(l, v) then PROT_READ + PROT_EXEC else READ_WRITE
  }

  lemma SectionsLaid<K>(d: Mem<K>, a: Mem<K>, b: Mem<K>, c: Mem<K>, r: Mem<K>, t: K, l: Layout)
    requires Table(d, t) && Loadable(l) && forall v :: 0 <= v < PAGES ==> !d.maps[t][v].valid
    requires Mapped(d, a, t, l.text, l.textPages, User, READ_WRITE)
             && Mapped(a, b, t, l.data, l.dataPages, User, READ_WRITE)
    requires Mapped(b, c, t, PAGES - l.stackPages, l.stackPages, User, READ_WRITE)
    requires Reprotected(c, r, t, l.text, l.textPages, PROT_READ + PROT_EXEC)
    ensures Laid(r.maps[t], l) && d.free == r.free + l.textPages + l.dataPages + l.stackPages
    ensures r.pages == d.pages && r.brk == d.brk && r.zero == d.zero
    ensures forall v :: v in d.maps && v != t ==> r.maps[v] == d.maps[v]
  {
    assert l.stackPages <= PAGES;
  }

  /** Mapping elsewhere leaves a page its frame, and that its mark. */
  lemma UserKept<K>(m: Mem<K>, r: Mem<K>, t: K, from: nat, n: nat, v: nat)
    requires Mapped(m, r, t, from, n, User, READ_WRITE) && v < |m.maps[t]| && !(from <= v < from + n)
    requires m.maps[t][v].pfn < |m.usage| && m.usage[m.maps[t][v].pfn] == User
    ensures r.maps[t][v].pfn < |r.usage| && r.usage[r.maps[t][v].pfn] == User
  {
    MarksAt(m.usage, r.maps[t], from, n, User, r.maps[t][v].pfn);
  }

  lemma RebuiltUser<K>(d: Mem<K>, a: Mem<K>, b: Mem<K>, c: Mem<K>, t: K, l: Layout, v: nat)
    requires Table(d, t) && Loadable(l) && v < PAGES && (InText(l, v) || InData(l, v) || InStack(l, v))
    requires Mapped(d, a, t, l.text, l.textPages, User, READ_WRITE)
             && Mapped(a, b, t, l.data, l.dataPages, User, READ_WRITE)
    requires Mapped(b, c, t, PAGES - l.stackPages, l.stackPages, User, READ_WRITE)
    ensures c.maps[t][v].pfn < |c.usage| && c.usage[c.maps[t][v].pfn] == User
  {
    if InStack(l, v) {
      MappedUsed(b, c, t, PAGES - l.stackPages, l.stackPages, User, READ_WRITE, v);
    } else {
      if InData(l, v) {
        MappedUsed(a, b, t, l.data, l.dataPages, User, READ_WRITE, v);
      } else {
        MappedUsed(d, a, t, l.text, l.textPages, User, READ_WRITE, v);
        UserKept(a, b, t, l.data, l.dataPages, v);
      }
      UserKept(b, c, t, PAGES - l.stackPages, l.stackPages, v);
    }
  }

  lemma RebuiltUsers<K>(d: Mem<K>, a: Mem<K>, b: Mem<K>, c: Mem<K>, r: Mem<K>, t: K, l: Layout)
    requires Table(d, t) && Loadable(l) && forall v :: 0 <= v < PAGES ==> !d.maps[t][v].valid
    requires Mapped(d, a, t, l.text, l.textPages, User, READ_WRITE)
             && Mapped(a, b, t, l.data, l.dataPages, User, READ_WRITE)
    requires Mapped(b, c, t, PAGES - l.stackPages, l.stackPages, User, READ_WRITE)
    requires Reprotected(c, r, t, l.text, l.textPages, PROT_READ + PROT_EXEC)
    ensures |r.maps[t]| == PAGES
    ensures forall v :: 0 <= v < PAGES && r.maps[t][v].valid ==>
              r.maps[t][v].pfn < |r.usage| && r.usage[r.maps[t][v].pfn] == User
  {
    SectionsLaid(d, a, b, c, r, t, l);
    forall v | 0 <= v < PAGES && r.maps[t][v].valid
      ensures r.maps[t][v].pfn < |r.usage| && r.usage[r.maps[t][v].pfn] == User
    {
      RebuiltUser(d, a, b, c, t, l, v);
    }
  }

  /** The memories between the steps of Rebuild, when the frames suffice. */
  lemma {:induction false} RebuildSteps<K>(m: Mem<K>, t: K, l: Layout)
    returns (d: Mem<K>, a: Mem<K>, b: Mem<K>, c: Mem<K>)
    requires Sound(m) && Table(m, t) && t != m.zero && Loadable(l)
    requires l.textPages + l.dataPages + l.stackPages <= m.free + Count(m.maps[t], IsValid, 0, PAGES)
    ensures Dropped(m, d, t, 0, PAGES) && Sound(c)
    ensures Mapped(d, a, t, l.text, l.textPages, User, READ_WRITE)
            && Mapped(a, b, t, l.data, l.dataPages, User, READ_WRITE)
    ensures Mapped(b, c, t, PAGES - l.stackPages, l.stackPages, User, READ_WRITE)
    ensures Reprotected(c, Rebuild(m, t, l), t, l.text, l.textPages, PROT_READ + PROT_EXEC)
  {
    d := DropRange(m, t, 0, PAGES);
    a := MapRange(d, t, l.text, l.textPages, User, READ_WRITE);
    b := MapRange(a, t, l.data, l.dataPages, User, READ_WRITE);
    c := MapRange(b, t, PAGES - l.stackPages, l.stackPages, User, READ_WRITE);
    SoundExist(m, t);
    DropRangeIs(m, t, 0, PAGES, d);
    DropRangeSound(m, t, 0, PAGES);
    SectionMapped(d, t, l.text, l.textPages, a);
    SectionMapped(a, t, l.data, l.dataPages, b);
    SectionMapped(b, t, PAGES - l.stackPages, l.stackPages, c);
    SetProtIs(c, t, l.text, l.textPages, PROT_READ + PROT_EXEC);
  }

  /** With frames enough, the new address space is the layout, and no other table and no byte changed. */
  lemma RebuildLaid<K>(m: Mem<K>, t: K, l: Layout, r: Mem<K>)
    requires Sound(m) && Table(m, t) && t != m.zero && Loadable(l) && r == Rebuild(m, t, l)
    requires l.textPages + l.dataPages + l.stackPages <= m.free + Count(m.maps[t], IsValid, 0, PAGES)
    ensures Sound(r) && t in r.maps && Laid(r.maps[t], l) && r.maps.Keys == m.maps.Keys
    ensures m.free + Count(m.maps[t], IsValid, 0, PAGES) == r.free + l.textPages + l.dataPages + l.stackPages
    ensures r.pages == m.pages && r.brk == m.brk && r.zero == m.zero
    ensures forall v :: v in m.maps && v != t ==> r.maps[v] == m.maps[v]
    ensures forall v :: 0 <= v < PAGES && r.maps[t][v].valid ==>
              r.maps[t][v].pfn < |r.usage| && r.usage[r.maps[t][v].pfn] == User
  {
    var d, a, b, c := RebuildSteps(m, t, l);
    RebuiltUsers(d, a, b, c, r, t, l);
    ReprotectedSound(c, r, t, l.text, l.textPages, PROT_READ + PROT_EXEC);
    SectionsLaid(d, a, b, c, r, t, l);
  }

  lemma SectionMapped<K>(m: Mem<K>, t: K, from: nat, n: nat, r: Mem<K>)
    requires Sound(m) && t in m.maps && from + n <= |m.maps[t]| && n <= m.free
             && r == MapRange(m, t, from, n, User, READ_WRITE)
    ensures Sound(r) && Mapped(m, r, t, from, n, User, READ_WRITE)
  {
    MapRangeSound(m, t, from, n, User, READ_WRITE, r);
    MapRangeIs(m, t, from, n, User, READ_WRITE, r);
  }

  /** LoadProgram, which never looks at what allocFrame returns, leaves a sound memory exactly when
      the free frames and those of the old address space cover the new one. */
  lemma RebuildIff<K>(m: Mem<K>, t: K, l: Layout)
    requires Sound(m) && Table(m, t) && t != m.zero && Loadable(l)
    ensures Sound(Rebuild(m, t, l)) <==>
            l.textPages + l.dataPages + l.stackPages <= m.free + Count(m.maps[t], IsValid, 0, PAGES)
  {
    if l.textPages + l.dataPages + l.stackPages <= m.free + Count(m.maps[t], IsValid, 0, PAGES) {
      RebuildLaid(m, t, l, Rebuild(m, t, l));
    } else {
      RebuildShort(m, t, l);
    }
  }

  /** At least one page lies between data and stack, and is unmapped unless the text reaches there. */
  lemma Gap(e: seq<Pte>, l: Layout)
    requires Loadable(l) && Laid(e, l)
    ensures l.data + l.dataPages < PAGES - l.stackPages
    ensures forall v :: l.data + l.dataPages <= v < PAGES - l.stackPages ==> (e[v].valid <==> InText(l, v))
  {
  }

  // ---------------------------------------------------------------- kernel stacks

  /** InitializeKernelStackProcess at address k; the caller halts when it has no frames. */
  function AddStack<K>(m: Mem<K>, k: K): (r: Mem<K>)
    ensures k in r.maps && |r.maps[k]| == KSTACK_PAGES
  {
    MapRange(m.(maps := m.maps[k := [Unmapped(0, 0), Unmapped(0, 0)]]), k, 0, KSTACK_PAGES, Kernel, READ_WRITE)
  }

  /** The window that KCSwitch moves to the stack of the next process. */
  function SwitchTo<K>(m: Mem<K>, k: K): Mem<K>
    requires Table(m, m.zero) && k in m.maps
  {
    m.(maps := m.maps[m.zero := m.maps[m.zero][..KSTACK_START] + m.maps[k]])
  }

  lemma NewTableSound<K>(m: Mem<K>, k: K, e: seq<Pte>)
    requires Sound(m) && k !in m.maps && forall i :: 0 <= i < |e| ==> !e[i].valid
    ensures Sound(m.(maps := m.maps[k := e]))
  {
    var r := m.(maps := m.maps[k := e]);
    forall t, i | t in r.maps && Owns(r, t, i) ensures Owns(m, t, i) && r.maps[t][i] == m.maps[t][i] {}
  }

  /** A new kernel stack has two frames of its own, and the window does not move. */
  lemma AddStackIs<K>(m: Mem<K>, k: K, cur: K)
    requires Sound(m) && k !in m.maps && m.free >= KSTACK_PAGES && Shows(m, cur)
    ensures var r := AddStack(m, k);
            && Sound(r) && Shows(r, cur) && r.brk == m.brk
            && Fresh(m.usage, r.maps[k], 0, KSTACK_PAGES, READ_WRITE)
  {
    var n := m.(maps := m.maps[k := [Unmapped(0, 0), Unmapped(0, 0)]]);
    NewTableSound(m, k, [Unmapped(0, 0), Unmapped(0, 0)]);
    MapRangeSound(n, k, 0, KSTACK_PAGES, Kernel, READ_WRITE, AddStack(m, k));
    MapRangeIs(n, k, 0, KSTACK_PAGES, Kernel, READ_WRITE, AddStack(m, k));
  }

  lemma SwitchToIs<K>(m: Mem<K>, k: K)
    requires Sound(m) && k in m.maps && k != m.zero && |m.maps[k]| == KSTACK_PAGES
    ensures var r := SwitchTo(m, k); Sound(r) && Shows(r, k) && r.usage == m.usage
  {
    var r := SwitchTo(m, k);
    forall t, i | t in r.maps && Owns(r, t, i) ensures Owns(m, t, i) && r.maps[t][i] == m.maps[t][i] {}
    FewerSound(m, r);
  }

  /** k is a kernel stack with both its pages mapped. */
  predicate Stack<K(==)>(m: Mem<K>, k: K) {
    k in m.maps && k != m.zero && |m.maps[k]| == KSTACK_PAGES && m.maps[k][0].valid && m.maps[k][1].valid
  }

  /** KCCopy's copy of the running process's kernel stack k into the child's stack c. */
  function CopyStack<K>(m: Mem<K>, k: K, c: K): Mem<K>
    requires Table(m, m.zero) && Stack(m, k) && Stack(m, c)
    requires forall i :: 0 <= i < KSTACK_PAGES ==> m.maps[k][i].pfn < |m.pages| && m.maps[c][i].pfn < |m.pages|
  {
    Clone(Clone(m, m.maps[k][0].pfn, m.maps[c][0].pfn), m.maps[k][1].pfn, m.maps[c][1].pfn)
  }

  lemma StackExists<K>(m: Mem<K>, k: K)
    requires Sound(m) && Stack(m, k)
    ensures m.maps[k][0].pfn < |m.pages| && m.maps[k][1].pfn < |m.pages|
  {
    assert Owns(m, k, 0) && Owns(m, k, 1);
  }

  /** The child's stack then holds the parent's bytes, and no other frame changed. */
  lemma CopyStackIs<K>(m: Mem<K>, k: K, c: K)
    requires Sound(m) && Stack(m, k) && Stack(m, c) && k != c
    ensures forall i :: 0 <= i < KSTACK_PAGES ==> m.maps[k][i].pfn < |m.pages| && m.maps[c][i].pfn < |m.pages|
    ensures var r := CopyStack(m, k, c);
            && Sound(r) && r.maps[k] == m.maps[k] && r.maps[c] == m.maps[c]
            && r.pages == m.pages[m.maps[c][0].pfn := m.pages[m.maps[k][0].pfn]]
                                 [m.maps[c][1].pfn := m.pages[m.maps[k][1].pfn]]
            && r.pages[m.maps[c][0].pfn] == m.pages[m.maps[k][0].pfn]
  {
    StackExists(m, k);
    StackExists(m, c);
    assert Owns(m, k, 1) && Owns(m, c, 0) && Owns(m, c, 1);
    var n := Clone(m, m.maps[k][0].pfn, m.maps[c][0].pfn);
    CloneSound(m, m.maps[k][0].pfn, m.maps[c][0].pfn);
    CloneSound(n, m.maps[k][1].pfn, m.maps[c][1].pfn);
  }
}
