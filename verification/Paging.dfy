/** What the kernel does with frames and page tables, as functions on its memory. */
module Paging {
  import opened Common
  import opened Frames

  // ---------------------------------------------------------------- reading and writing through a table

  /** The byte at address a of the region that table t maps. */
  function ReadAt(p: seq<seq<Byte>>, t: seq<Pte>, a: nat): Option<Byte> {
    var v, off := a / PAGESIZE, a % PAGESIZE;
    if v < |t| && t[v].valid && t[v].pfn < |p| && off < |p[t[v].pfn]| then Some(p[t[v].pfn][off]) else None
  }

  datatype Write<K> = Write(table: K, addr: nat, value: Byte)

  function WriteAt<K>(m: Mem<K>, w: Write<K>): Mem<K>
    requires w.table in m.maps
  {
    var v, off := w.addr / PAGESIZE, w.addr % PAGESIZE;
    var t := m.maps[w.table];
    if v < |t| && t[v].valid && t[v].pfn < |m.pages| && off < |m.pages[t[v].pfn]| then
      var page: seq<Byte> := m.pages[t[v].pfn][off := w.value];
      m.(pages := m.pages[t[v].pfn := page])
    else m
  }

  function WriteAll<K>(m: Mem<K>, ws: seq<Write<K>>): (r: Mem<K>)
    requires forall i :: 0 <= i < |ws| ==> ws[i].table in m.maps
    ensures r.maps == m.maps && r.usage == m.usage && r.zero == m.zero && r.free == m.free && |r.pages| == |m.pages|
  {
    if ws == [] then m else WriteAt(WriteAll(m, ws[..|ws| - 1]), ws[|ws| - 1])
  }

  // ---------------------------------------------------------------- the window

  /** An address of the region that a table maps. */
  datatype Place<K> = Place(table: K, addr: nat)

  const WINDOW := KSTACK_START * PAGESIZE

  /** Region 0's window is the current kernel stack k: an address in it is an address of k. */
  function Resolve<K(==)>(zero: K, k: K, p: Place<K>): Place<K> {
    if p.table == zero && WINDOW <= p.addr then Place(k, p.addr - WINDOW) else p
  }

  /** A place in the window is only looked at when the window shows k. */
  predicate Clear<K(==)>(m: Mem<K>, k: K, p: Place<K>) {
    p.table in m.maps && (p.table == m.zero && WINDOW <= p.addr ==> Shows(m, k) && k != m.zero)
  }

  lemma ResolveReads<K>(m: Mem<K>, k: K, p: Place<K>)
    requires Clear(m, k, p)
    ensures var q := Resolve(m.zero, k, p);
            && q.table in m.maps && (q.table == m.zero ==> q.addr < WINDOW)
            && ReadAt(m.pages, m.maps[q.table], q.addr) == ReadAt(m.pages, m.maps[p.table], p.addr)
  {
    var q := Resolve(m.zero, k, p);
    if q != p { WindowEntry(m, k, p.addr); }
  }

  lemma ResolveWrites<K>(m: Mem<K>, k: K, p: Place<K>, x: Byte)
    requires Clear(m, k, p)
    ensures var q := Resolve(m.zero, k, p);
            q.table in m.maps && WriteAt(m, Write(q.table, q.addr, x)) == WriteAt(m, Write(p.table, p.addr, x))
  {
    if Resolve(m.zero, k, p) != p { WindowEntry(m, k, p.addr); }
  }

  lemma WindowEntry<K>(m: Mem<K>, k: K, a: nat)
    requires Shows(m, k) && WINDOW <= a
    ensures var b := a - WINDOW;
            && b % PAGESIZE == a % PAGESIZE && b / PAGESIZE + KSTACK_START == a / PAGESIZE
            && (a / PAGESIZE < PAGES <==> b / PAGESIZE < KSTACK_PAGES)
            && (a / PAGESIZE < PAGES ==> m.maps[k][b / PAGESIZE] == m.maps[m.zero][a / PAGESIZE])
  {
    var b := a - WINDOW;
    if a / PAGESIZE < PAGES {
      assert m.maps[m.zero][KSTACK_START..][b / PAGESIZE] == m.maps[m.zero][a / PAGESIZE];
    }
  }

  // ---------------------------------------------------------------- writes stay apart

  /** What place p would hold if every place had a byte of its own: the last value written there. */
  function Alone<K(==)>(x: Option<Byte>, zero: K, k: K, p: Place<K>, ws: seq<Write<K>>): Option<Byte> {
    if x.None? || ws == [] then x
    else
      var w := ws[|ws| - 1];
      if Resolve(zero, k, Place(w.table, w.addr)) == p then Some(w.value)
      else Alone(x, zero, k, p, ws[..|ws| - 1])
  }

  lemma {:induction false} AloneNone<K>(x: Option<Byte>, zero: K, k: K, p: Place<K>, ws: seq<Write<K>>)
    ensures Alone(x, zero, k, p, ws).None? <==> x.None?
  {
    if ws != [] { AloneNone(x, zero, k, p, ws[..|ws| - 1]); }
  }

  /** A write outside the window is seen at that place and nowhere else outside the window. */
  lemma OwnWriteSeen<K>(m: Mem<K>, w: Write<K>, p: Place<K>)
    requires Once(m) && Table(m, m.zero) && w.table in m.maps && p.table in m.maps
    requires (w.table == m.zero ==> w.addr < WINDOW) && (p.table == m.zero ==> p.addr < WINDOW)
    ensures var x := ReadAt(m.pages, m.maps[p.table], p.addr);
            ReadAt(WriteAt(m, w).pages, m.maps[p.table], p.addr)
            == if x.Some? && w.table == p.table && w.addr == p.addr then Some(w.value) else x
  {
    var v, u := w.addr / PAGESIZE, p.addr / PAGESIZE;
    assert ReadAt(m.pages, m.maps[w.table], w.addr).Some? ==> Owns(m, w.table, v);
    assert ReadAt(m.pages, m.maps[p.table], p.addr).Some? ==> Owns(m, p.table, u);
  }

  /** A write is seen exactly at the place it resolves to. */
  lemma WriteSeen<K>(m: Mem<K>, k: K, w: Write<K>, p: Place<K>)
    requires Once(m) && Table(m, m.zero) && Clear(m, k, Place(w.table, w.addr)) && Clear(m, k, p)
    ensures var x := ReadAt(m.pages, m.maps[p.table], p.addr);
            ReadAt(WriteAt(m, w).pages, m.maps[p.table], p.addr)
            == if x.Some? && Resolve(m.zero, k, Place(w.table, w.addr)) == Resolve(m.zero, k, p) then Some(w.value)
               else x
  {
    var q, a := Resolve(m.zero, k, p), Resolve(m.zero, k, Place(w.table, w.addr));
    var r := WriteAt(m, w);
    ResolveReads(m, k, p);
    ResolveReads(m, k, Place(w.table, w.addr));
    ResolveReads(r, k, p);
    ResolveWrites(m, k, Place(w.table, w.addr), w.value);
    OwnWriteSeen(m, Write(a.table, a.addr, w.value), q);
  }

  /** However many writes go through however many tables, region 0 among them, every place reads as if it
      were alone. */
  lemma {:induction false} WritesStayApart<K>(m: Mem<K>, k: K, ws: seq<Write<K>>, p: Place<K>)
    requires Once(m) && Table(m, m.zero) && Clear(m, k, p)
    requires forall i :: 0 <= i < |ws| ==> Clear(m, k, Place(ws[i].table, ws[i].addr))
    requires forall i :: 0 <= i < |ws| ==> ws[i].table in m.maps
    ensures ReadAt(WriteAll(m, ws).pages, m.maps[p.table], p.addr)
            == Alone(ReadAt(m.pages, m.maps[p.table], p.addr), m.zero, k, Resolve(m.zero, k, p), ws)
  {
    if ws != [] {
      var init, w := ws[..|ws| - 1], ws[|ws| - 1];
      var n := WriteAll(m, init);
      WritesStayApart(m, k, init, p);
      assert forall t, i :: t in n.maps ==> Owns(n, t, i) == Owns(m, t, i);
      WriteSeen(n, k, w, p);
      AloneNone(ReadAt(m.pages, m.maps[p.table], p.addr), m.zero, k, Resolve(m.zero, k, p), init);
    }
  }

  // ---------------------------------------------------------------- CopyPT

  /** How far a copy got. */
  datatype Outcome<K> = Outcome(mem: Mem<K>, ok: bool, done: nat)

  predicate Copying<K(==)>(m: Mem<K>, s: K, d: K) {
    Table(m, m.zero) && Table(m, s) && Table(m, d) && s != d && s != m.zero && d != m.zero && |m.pages| == |m.usage|
  }

  /** Entry i of s copied into entry i of d. */
  function CopyEntry<K>(m: Mem<K>, s: K, d: K, i: nat): Mem<K>
    requires Copying(m, s, d) && i < PAGES && m.maps[s][i].pfn < |m.pages| && FirstFree(m.usage) < |m.usage|
  {
    var f := FirstFree(m.usage);
    Put(Clone(Take(m, f, User), m.maps[s][i].pfn, f), d, i, Pte(true, m.maps[s][i].prot, f))
  }

  lemma CopyEntrySound<K>(m: Mem<K>, s: K, d: K, i: nat)
    requires Sound(m) && Copying(m, s, d) && i < PAGES && m.maps[s][i].valid && FirstFree(m.usage) < |m.usage|
    ensures m.maps[s][i].pfn < |m.pages| && m.usage[m.maps[s][i].pfn] != Free
    ensures var r := CopyEntry(m, s, d, i);
            Sound(r) && SameShape(m, r) && m.free == r.free + 1 && Unnamed(m, FirstFree(m.usage))
  {
    var f := FirstFree(m.usage);
    var n := Take(m, f, User);
    assert Owns(m, s, i);
    FirstFreeSome(m.usage);
    TakeSound(m, f, User);
    CloneSound(n, m.maps[s][i].pfn, f);
    var c := Clone(n, m.maps[s][i].pfn, f);
    FewerUnnamed(n, c, f);
    MapSound(c, d, i, Pte(true, m.maps[s][i].prot, f));
  }

  /** One round of CopyPT.  (In a sound memory every valid entry names a frame that exists.) */
  function CopyRound<K>(o: Outcome<K>, s: K, d: K, i: nat): (p: Outcome<K>)
    requires Copying(o.mem, s, d) && i < PAGES
    ensures Copying(p.mem, s, d)
  {
    var m := o.mem;
    if !o.ok then o
    else if !m.maps[s][i].valid then o.(done := i + 1)
    else if FirstFree(m.usage) == |m.usage| || m.maps[s][i].pfn >= |m.pages| then o.(ok := false)
    else Outcome(CopyEntry(m, s, d, i), true, i + 1)
  }

  /** The first n rounds of CopyPT. */
  function CopyUpTo<K>(m: Mem<K>, s: K, d: K, n: nat): (o: Outcome<K>)
    requires Copying(m, s, d) && n <= PAGES
    ensures Copying(o.mem, s, d)
  {
    if n == 0 then Outcome(m, true, 0) else CopyRound(CopyUpTo(m, s, d, n - 1), s, d, n - 1)
  }

  /** After a failure the later rounds do nothing. */
  lemma {:induction false} CopyStopped<K>(m: Mem<K>, s: K, d: K, i: nat)
    requires Copying(m, s, d) && i <= PAGES && (i < PAGES ==> !CopyUpTo(m, s, d, i).ok)
    ensures CopyUpTo(m, s, d, PAGES) == CopyUpTo(m, s, d, i)
    decreases PAGES - i
  {
    if i < PAGES { CopyStopped(m, s, d, i + 1); }
  }

  lemma CopyRoundSound<K>(o: Outcome<K>, s: K, d: K, i: nat)
    requires Sound(o.mem) && Copying(o.mem, s, d) && i < PAGES
    ensures Sound(CopyRound(o, s, d, i).mem)
  {
    if o.ok && o.mem.maps[s][i].valid && FirstFree(o.mem.usage) < |o.mem.usage| { CopyEntrySound(o.mem, s, d, i); }
  }

  /** CopyPT keeps the memory sound, whether it succeeds or not. */
  lemma {:induction false} CopyUpToSound<K>(m: Mem<K>, s: K, d: K, n: nat)
    requires Sound(m) && Copying(m, s, d) && n <= PAGES
    ensures Sound(CopyUpTo(m, s, d, n).mem)
  {
    if n > 0 {
      CopyUpToSound(m, s, d, n - 1);
      CopyRoundSound(CopyUpTo(m, s, d, n - 1), s, d, n - 1);
    }
  }

  /** The valid ones among the first n entries of s were copied to d: fresh frames, the same bytes
      and protection.  No frame in use changed, nor any other table but the scratch pages. */
  ghost predicate Copied<K>(m: Mem<K>, r: Mem<K>, s: K, d: K, n: nat) {
    && Copying(m, s, d) && SameShape(m, r) && r.brk == m.brk && n <= PAGES
    && CopiedEntries(m, r, s, d, n) && CopiedBeside(m, r, d)
    && m.free == r.free + Count(m.maps[s], IsValid, 0, n)
  }

  ghost predicate CopiedEntries<K>(m: Mem<K>, r: Mem<K>, s: K, d: K, n: nat)
    requires Copying(m, s, d) && SameShape(m, r)
  {
    forall i :: 0 <= i < PAGES ==>
      if i < n && m.maps[s][i].valid then CopiedEntry(m, r, m.maps[s][i], r.maps[d][i])
      else r.maps[d][i] == m.maps[d][i]
  }

  ghost predicate CopiedBeside<K>(m: Mem<K>, r: Mem<K>, d: K)
    requires Table(m, m.zero) && |m.pages| == |m.usage| && SameShape(m, r)
  {
    && (forall f :: 0 <= f < |m.usage| && m.usage[f] != Free ==> r.usage[f] == m.usage[f] && r.pages[f] == m.pages[f])
    && (forall f :: 0 <= f < |m.usage| && r.usage[f] == Free ==> r.pages[f] == m.pages[f])
    && (forall t :: t in m.maps && t != d && t != m.zero ==> r.maps[t] == m.maps[t])
    && (forall i :: 0 <= i < PAGES && i != SCRATCH_SRC && i != SCRATCH_DST ==> r.maps[m.zero][i] == m.maps[m.zero][i])
  }

  predicate CopiedEntry<K>(m: Mem<K>, r: Mem<K>, e: Pte, c: Pte) {
    && c.valid && c.prot == e.prot && e.pfn < |m.pages| && c.pfn < |m.usage| && c.pfn < |r.pages| && c.pfn < |r.usage|
    && m.usage[c.pfn] == Free && r.usage[c.pfn] == User && r.pages[c.pfn] == m.pages[e.pfn]
  }

  /** What one more entry changes: the frame f, the scratch pages and entry n of d. */
  ghost predicate OneMore<K>(o: Mem<K>, r: Mem<K>, s: K, d: K, n: nat, f: nat) {
    && Copying(o, s, d) && n < PAGES && SameShape(o, r) && f < |o.usage| && o.maps[s][n].pfn < |o.pages|
    && o.usage[f] == Free && r.usage == o.usage[f := User] && r.pages == o.pages[f := o.pages[o.maps[s][n].pfn]]
    && r.maps[d] == o.maps[d][n := Pte(true, o.maps[s][n].prot, f)]
    && (forall t :: t in o.maps && t != d && t != o.zero ==> r.maps[t] == o.maps[t])
    && (forall i :: 0 <= i < PAGES && i != SCRATCH_SRC && i != SCRATCH_DST ==> r.maps[o.zero][i] == o.maps[o.zero][i])
  }

  lemma CopyEntryOneMore<K>(o: Mem<K>, s: K, d: K, n: nat, f: nat)
    requires Sound(o) && Copying(o, s, d) && n < PAGES && o.maps[s][n].valid && f == FirstFree(o.usage) < |o.usage|
    ensures o.maps[s][n].pfn < |o.pages| && OneMore(o, CopyEntry(o, s, d, n), s, d, n, f)
    ensures CopyEntry(o, s, d, n).brk == o.brk && o.free == CopyEntry(o, s, d, n).free + 1
  {
    FirstFreeSome(o.usage);
    CopyEntrySound(o, s, d, n);
  }

  lemma BesideMore<K>(m: Mem<K>, o: Mem<K>, r: Mem<K>, s: K, d: K, n: nat, f: nat)
    requires Copying(m, s, d) && SameShape(m, o) && CopiedBeside(m, o, d) && OneMore(o, r, s, d, n, f)
    ensures SameShape(m, r) && CopiedBeside(m, r, d)
  {
  }

  lemma EntriesMore<K>(m: Mem<K>, o: Mem<K>, r: Mem<K>, s: K, d: K, n: nat, f: nat)
    requires Copying(m, s, d) && SameShape(m, o) && CopiedEntries(m, o, s, d, n) && CopiedBeside(m, o, d)
    requires OneMore(o, r, s, d, n, f) && SameShape(m, r)
    requires m.maps[s][n].valid && m.maps[s][n].pfn < |m.usage| && m.usage[m.maps[s][n].pfn] != Free
    ensures CopiedEntries(m, r, s, d, n + 1)
  {
    assert CopiedEntry(m, r, m.maps[s][n], r.maps[d][n]);
    forall i | 0 <= i < n && m.maps[s][i].valid ensures CopiedEntry(m, r, m.maps[s][i], r.maps[d][i]) {
      assert CopiedEntry(m, o, m.maps[s][i], o.maps[d][i]) && o.maps[d][i].pfn != f;
    }
  }

  lemma CopiedMore<K>(m: Mem<K>, o: Mem<K>, s: K, d: K, n: nat)
    requires Sound(m) && Sound(o) && Copied(m, o, s, d, n) && Copying(o, s, d) && n < PAGES && m.maps[s][n].valid
    requires FirstFree(o.usage) < |o.usage|
    ensures o.maps[s][n].pfn < |o.pages| && Copied(m, CopyEntry(o, s, d, n), s, d, n + 1)
  {
    var f := FirstFree(o.usage);
    CopyEntryOneMore(o, s, d, n, f);
    var r := CopyEntry(o, s, d, n);
    assert Owns(m, s, n);
    BesideMore(m, o, r, s, d, n, f);
    EntriesMore(m, o, r, s, d, n, f);
  }

  lemma CopiedSkip<K>(m: Mem<K>, o: Mem<K>, s: K, d: K, n: nat)
    requires Copied(m, o, s, d, n) && n < PAGES && !m.maps[s][n].valid
    ensures Copied(m, o, s, d, n + 1)
  {
  }

  /** What n rounds achieved: they fail exactly when the frames do not suffice. */
  ghost predicate CopyDone<K>(m: Mem<K>, o: Outcome<K>, s: K, d: K, n: nat) {
    && Copied(m, o.mem, s, d, o.done) && n <= PAGES && s in m.maps && n <= |m.maps[s]|
       && (o.ok <==> Count(m.maps[s], IsValid, 0, n) <= m.free)
    && if o.ok then o.done == n else o.mem.free == 0 && o.done < n && m.maps[s][o.done].valid
  }

  lemma CopyRoundDone<K>(m: Mem<K>, o: Outcome<K>, s: K, d: K, n: nat, r: Outcome<K>)
    requires Sound(m) && Sound(o.mem) && Copying(o.mem, s, d)
    requires CopyDone(m, o, s, d, n) && n < PAGES && r == CopyRound(o, s, d, n)
    ensures CopyDone(m, r, s, d, n + 1)
  {
    FirstFreeSome(o.mem.usage);
    assert m.maps[s][n].valid ==> Owns(o.mem, s, n);
    if o.ok && !m.maps[s][n].valid {
      CopiedSkip(m, o.mem, s, d, n);
    } else if o.ok && FirstFree(o.mem.usage) < |o.mem.usage| {
      CopiedMore(m, o.mem, s, d, n);
    }
  }

  lemma CopyNoneDone<K>(m: Mem<K>, s: K, d: K)
    requires Copying(m, s, d)
    ensures CopyDone(m, Outcome(m, true, 0), s, d, 0)
  {
  }

  /** The rounds up to the n-th went as CopyDone says. */
  ghost predicate CopyFine<K>(m: Mem<K>, s: K, d: K, n: nat)
    requires Copying(m, s, d)
  {
    n <= PAGES && CopyDone(m, CopyUpTo(m, s, d, n), s, d, n)
  }

  lemma CopyFineMore<K>(m: Mem<K>, s: K, d: K, n: nat)
    requires Sound(m) && Copying(m, s, d) && n < PAGES && CopyFine(m, s, d, n)
    ensures CopyFine(m, s, d, n + 1)
  {
    var o := CopyUpTo(m, s, d, n);
    CopyUpToSound(m, s, d, n);
    CopyRoundDone(m, o, s, d, n, CopyUpTo(m, s, d, n + 1));
  }

  /** CopyPT succeeds exactly when there are frames enough; otherwise it keeps what it copied. */
  lemma {:induction false} CopyUpToIs<K>(m: Mem<K>, s: K, d: K, n: nat)
    requires Sound(m) && Copying(m, s, d) && n <= PAGES
    ensures CopyFine(m, s, d, n)
  {
    if n == 0 {
      CopyNoneDone(m, s, d);
    } else {
      CopyUpToIs(m, s, d, n - 1);
      CopyFineMore(m, s, d, n - 1);
    }
  }

  ghost predicate Empty<K>(m: Mem<K>, d: K) { d in m.maps && forall i :: 0 <= i < |m.maps[d]| ==> !m.maps[d][i].valid }

  /** After a fork, parent and child read what the parent read before, at every address. */
  lemma ForkReads<K>(m: Mem<K>, r: Mem<K>, s: K, d: K, a: nat)
    requires Sound(m) && Copied(m, r, s, d, PAGES) && Empty(m, d)
    ensures ReadAt(r.pages, r.maps[d], a) == ReadAt(m.pages, m.maps[s], a) == ReadAt(r.pages, r.maps[s], a)
  {
    var v := a / PAGESIZE;
    if v < PAGES && m.maps[s][v].valid {
      assert Owns(m, s, v);
      assert CopiedEntry(m, r, m.maps[s][v], r.maps[d][v]);
    }
  }

  /** From a fork on, whatever is written through any tables, each of the two reads the parent's old
      bytes overwritten by its own writes only.  k is the current kernel stack. */
  lemma {:induction false} ForkIsolates<K>(m: Mem<K>, s: K, d: K, k: K, ws: seq<Write<K>>, l: K, a: nat)
    requires Sound(m) && Copying(m, s, d) && Empty(m, d) && Count(m.maps[s], IsValid, 0, PAGES) <= m.free
    requires l == s || l == d
    requires forall i :: 0 <= i < |ws| ==> ws[i].table in m.maps && Clear(m, k, Place(ws[i].table, ws[i].addr))
    ensures var o := CopyUpTo(m, s, d, PAGES);
            && o.ok && (forall i :: 0 <= i < |ws| ==> ws[i].table in o.mem.maps)
            && ReadAt(WriteAll(o.mem, ws).pages, o.mem.maps[l], a)
               == Alone(ReadAt(m.pages, m.maps[s], a), m.zero, k, Place(l, a), ws)
  {
    var o := CopyUpTo(m, s, d, PAGES);
    CopyUpToIs(m, s, d, PAGES);
    CopyUpToSound(m, s, d, PAGES);
    ForkReads(m, o.mem, s, d, a);
    forall i | 0 <= i < |ws| ensures Clear(o.mem, k, Place(ws[i].table, ws[i].addr)) {
      StillShown(m, o.mem, s, d, k, Place(ws[i].table, ws[i].addr));
    }
    WritesStayApart(o.mem, k, ws, Place(l, a));
  }

  lemma StillShown<K>(m: Mem<K>, r: Mem<K>, s: K, d: K, k: K, p: Place<K>)
    requires Copied(m, r, s, d, PAGES) && Clear(m, k, p)
    ensures Clear(r, k, p)
  {
    if p.table == m.zero && WINDOW <= p.addr {
      assert r.maps[m.zero][KSTACK_START..] == m.maps[m.zero][KSTACK_START..];
    }
  }
}
