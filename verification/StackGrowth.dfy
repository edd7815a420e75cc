/** When growStack keeps the pages a process has, and what it does to a forked child. */
module StackGrowth {
  import opened Common
  import opened Frames
  import opened PageTables
  import opened Paging

  /** Growing over a mapped page takes its frame out of the table and leaks it. */
  lemma GrowStackLeaks<K>(m: Mem<K>, t: K, from: nat, n: nat, i: nat)
    requires Sound(m) && t in m.maps && t != m.zero && from + n <= |m.maps[t]| && n <= m.free
    requires from <= i < from + n && m.maps[t][i].valid
    ensures Leaked(GrowStack(m, t, from, n), m.maps[t][i].pfn)
  {
    MapRangeLeaks(m, t, from, n, User, READ_WRITE, i, GrowStack(m, t, from, n));
  }

  /** With frames enough, a process keeps what it had exactly when none of the pages grown over was mapped. */
  lemma GrowStackKeepsIff<K>(m: Mem<K>, t: K, from: nat, n: nat)
    requires Sound(m) && t in m.maps && t != m.zero && from + n <= |m.maps[t]| && n <= m.free
    ensures Kept(m, GrowStack(m, t, from, n), t) <==> forall i :: from <= i < from + n ==> !m.maps[t][i].valid
  {
    MapRangeKeepsIff(m, t, from, n, User, READ_WRITE, GrowStack(m, t, from, n));
  }

  /** A copied page that is grown over: its frame and the bytes copied into it are out of reach. */
  predicate Lost<K>(m: Mem<K>, o: Mem<K>, s: K, d: K, i: nat, bytes: seq<seq<Byte>>)
    requires Table(m, s) && Table(o, d) && i < PAGES
  {
    && o.maps[d][i].valid && o.maps[d][i].pfn < |bytes| && m.maps[s][i].pfn < |m.pages|
    && bytes[o.maps[d][i].pfn] == m.pages[m.maps[s][i].pfn]
  }

  lemma CopiedPageLost<K>(m: Mem<K>, o: Mem<K>, s: K, d: K, from: nat, i: nat, r: Mem<K>)
    requires Copied(m, o, s, d, PAGES) && Sound(o) && Table(o, d) && o.zero != d && from <= i < PAGES
    requires PAGES - from <= o.free && r == GrowStack(o, d, from, PAGES - from) && m.maps[s][i].valid
    ensures Lost(m, o, s, d, i, r.pages) && Leaked(r, o.maps[d][i].pfn)
  {
    assert CopiedEntry(m, o, m.maps[s][i], o.maps[d][i]);
    GrowStackGrows(o, d, from, PAGES - from);
    GrowStackLeaks(o, d, from, PAGES - from, i);
  }

  lemma CopiedKeptIff<K>(m: Mem<K>, o: Mem<K>, s: K, d: K, from: nat, r: Mem<K>)
    requires Copied(m, o, s, d, PAGES) && Sound(o) && Table(o, d) && o.zero != d && Empty(m, d) && from <= PAGES
    requires PAGES - from <= o.free && r == GrowStack(o, d, from, PAGES - from)
    ensures Kept(o, r, d) <==> forall i :: from <= i < PAGES ==> !m.maps[s][i].valid
  {
    GrowStackKeepsIff(o, d, from, PAGES - from);
    forall i | 0 <= i < PAGES ensures o.maps[d][i].valid <==> m.maps[s][i].valid {
      if m.maps[s][i].valid { assert CopiedEntry(m, o, m.maps[s][i], o.maps[d][i]); }
    }
  }

  /** What a copy turned into by growing from page v to the end of the region. */
  ghost predicate GrownOver<K>(m: Mem<K>, o: Mem<K>, r: Mem<K>, s: K, d: K, v: nat) {
    && Table(m, s) && Table(o, d)
    && (Kept(o, r, d) <==> forall i :: v <= i < PAGES ==> !m.maps[s][i].valid)
    && forall i :: v <= i < PAGES && m.maps[s][i].valid ==>
         Lost(m, o, s, d, i, r.pages) && Leaked(r, o.maps[d][i].pfn)
  }

  lemma CopyGrownOver<K>(m: Mem<K>, o: Mem<K>, s: K, d: K, v: nat, r: Mem<K>)
    requires Copied(m, o, s, d, PAGES) && Sound(o) && Table(o, d) && o.zero != d && Empty(m, d) && v <= PAGES
    requires PAGES - v <= o.free && r == GrowStack(o, d, v, PAGES - v)
    ensures GrownOver(m, o, r, s, d, v)
  {
    CopiedKeptIff(m, o, s, d, v, r);
    forall i | v <= i < PAGES && m.maps[s][i].valid
      ensures Lost(m, o, s, d, i, r.pages) && Leaked(r, o.maps[d][i].pfn)
    {
      CopiedPageLost(m, o, s, d, v, i, r);
    }
  }

  /** Fork does not copy the stack base, so the first stack growth of a child reaches up to the end of
      the region.  It keeps the copied pages exactly when the parent had none from the fault page on;
      otherwise every one of them is lost, its frame and bytes still taken but out of reach. */
  lemma ForkedChildGrows<K>(m: Mem<K>, s: K, d: K, addr: nat, o: Outcome<K>)
    requires Sound(m) && Copying(m, s, d) && Empty(m, d) && REGION_1 <= addr < REGION_1_LIMIT
    requires Count(m.maps[s], IsValid, 0, PAGES) + Requested(addr, USER_STACK_BASE) <= m.free
    requires o == CopyUpTo(m, s, d, PAGES)
    ensures o.ok && Sound(o.mem)
    ensures GrownOver(m, o.mem, GrowStack(o.mem, d, PageOf(addr), Requested(addr, USER_STACK_BASE)), s, d, PageOf(addr))
  {
    CopyUpToIs(m, s, d, PAGES);
    CopyUpToSound(m, s, d, PAGES);
    ChildRequests(addr);
    CopyGrownOver(m, o.mem, s, d, PageOf(addr), GrowStack(o.mem, d, PageOf(addr), Requested(addr, USER_STACK_BASE)));
  }

  lemma ChildRequests(addr: nat)
    requires REGION_1 <= addr < REGION_1_LIMIT
    ensures PageOf(addr) < PAGES && Requested(addr, USER_STACK_BASE) == PAGES - PageOf(addr)
  {
  }
}
