/** The argument block LoadProgram builds on the new stack. */
module ArgBlock {
  import opened Common
  import opened Frames
  import opened Words

  type CString = s: seq<Byte> | forall i :: 0 <= i < |s| ==> s[i] != 0

  const POST_ARGV_NULL_SPACE := 0x20

  // ---------------------------------------------------------------- where things go

  /** The bytes that hold the first i arguments, each with its NUL. */
  function Off(args: seq<CString>, i: nat): nat
    requires i <= |args|
  {
    if i == 0 then 0 else Off(args, i - 1) + |args[i - 1]| + 1
  }

  function Size(args: seq<CString>): nat { Off(args, |args|) }

  function Down(a: int, unit: nat): int
    requires unit > 0
  {
    a - a % unit
  }

  /** cp: where the strings start. */
  function Strings(args: seq<CString>): int { REGION_1_LIMIT - Size(args) }

  /** cpp, and with no initial frame the stack pointer: argc, argv, two NULLs and some space, rounded
      down to a double word. */
  function StackPointer(args: seq<CString>): int {
    Down(Strings(args) - (|args| + 3 + POST_ARGV_NULL_SPACE) * 4, 8)
  }

  /** stack_npg. */
  function StackPages(args: seq<CString>): int { (REGION_1_LIMIT - Down(StackPointer(args), PAGESIZE)) / PAGESIZE }

  /** The check LoadProgram makes before it throws the old program away. */
  predicate Fits(args: seq<CString>, dataEnd: nat) { StackPages(args) + dataEnd < PAGES }

  /** A block that passes the check lies in the stack pages, which are as few as can be; the pointers end
      before the strings; and a page is left between data and stack. */
  lemma Geometry(args: seq<CString>, dataEnd: nat)
    requires Fits(args, dataEnd)
    ensures var sp, base := StackPointer(args), REGION_1_LIMIT - StackPages(args) * PAGESIZE;
            && base <= sp < base + PAGESIZE && sp % 8 == 0
            && sp + 4 * (|args| + 3) <= Strings(args) <= REGION_1_LIMIT
            && REGION_1 + (dataEnd + 1) * PAGESIZE <= base && StackPages(args) > 0
  {
    var sp := StackPointer(args);
    var x := Strings(args) - (|args| + 3 + POST_ARGV_NULL_SPACE) * 4;
    assert x - 8 < sp <= x;
    assert (REGION_1_LIMIT - Down(sp, PAGESIZE)) % PAGESIZE == 0;
  }

  /** The arguments, one after the other, each with its NUL. */
  function Blob(args: seq<CString>): (r: seq<Byte>)
    ensures |r| == Size(args)
  {
    if args == [] then []
    else
      OffPrefix(args, |args| - 1);
      Blob(args[..|args| - 1]) + args[|args| - 1] + [0]
  }

  lemma {:induction false} OffPrefix(args: seq<CString>, i: nat)
    requires i <= |args|
    ensures Off(args[..i], i) == Off(args, i)
    decreases i
  {
    if i > 0 {
      OffPrefix(args, i - 1);
      OffPrefix(args[..i], i - 1);
      assert args[..i][..i - 1] == args[..i - 1];
    }
  }

  /** A block at double word a with argc, the pointers, two NULLs and the space, and then the strings, stays above
      the data and a page. */
  predicate Room(args: seq<CString>, dataEnd: nat, a: int) {
    && a % 8 == 0 && a >= REGION_1 + (dataEnd + 1) * PAGESIZE
    && a + 4 * (|args| + 3 + POST_ARGV_NULL_SPACE) + |Blob(args)| <= REGION_1_LIMIT
  }

  /** The stack pointer is the highest such place, so LoadProgram takes an argument list exactly when there is one. */
  lemma FitsIff(args: seq<CString>, dataEnd: nat)
    ensures Fits(args, dataEnd) <==> Room(args, dataEnd, StackPointer(args))
    ensures forall a: int :: Room(args, dataEnd, a) ==> a <= StackPointer(args) && Fits(args, dataEnd)
  {
    var sp := StackPointer(args);
    HighestDouble(Strings(args) - (|args| + 3 + POST_ARGV_NULL_SPACE) * 4, sp);
    AbovePages(sp, dataEnd);
    forall a: int | Room(args, dataEnd, a) ensures a <= sp {
      LowerDouble(a, Strings(args) - (|args| + 3 + POST_ARGV_NULL_SPACE) * 4);
    }
  }

  lemma HighestDouble(x: int, sp: int)
    requires sp == Down(x, 8)
    ensures sp % 8 == 0 && sp <= x
  {
  }

  lemma LowerDouble(a: int, x: int)
    requires a % 8 == 0 && a <= x
    ensures a <= Down(x, 8)
  {
  }

  lemma AbovePages(sp: int, dataEnd: nat)
    ensures (REGION_1_LIMIT - Down(sp, PAGESIZE)) / PAGESIZE + dataEnd < PAGES
            <==> sp >= REGION_1 + (dataEnd + 1) * PAGESIZE
  {
  }

  // ---------------------------------------------------------------- reading the block back

  /** The string at a. */
  function ReadString(m: seq<Byte>, a: nat): seq<Byte>
    decreases |m| - a
  {
    if a >= |m| || m[a] == 0 then [] else [m[a]] + ReadString(m, a + 1)
  }

  /** The first n strings of the argv that starts at a. */
  function ReadStrings(m: seq<Byte>, a: nat, n: nat): seq<seq<Byte>>
    requires a + 4 * n <= |m|
  {
    if n == 0 then [] else ReadStrings(m, a, n - 1) + [ReadString(m, Load(m, a + 4 * (n - 1)))]
  }

  /** s and its NUL are at a. */
  predicate StringAt(m: seq<Byte>, a: nat, s: CString) {
    a + |s| < |m| && m[a + |s|] == 0 && forall k :: 0 <= k < |s| ==> m[a + k] == s[k]
  }

  lemma {:induction false} ReadStringIs(m: seq<Byte>, a: nat, s: CString, k: nat)
    requires StringAt(m, a, s) && k <= |s|
    ensures ReadString(m, a + k) == s[k..]
    decreases |s| - k
  {
    if k < |s| {
      ReadStringIs(m, a, s, k + 1);
      assert m[a + k] == s[k] && s[k..] == [s[k]] + s[k + 1..];
    }
  }

  // ---------------------------------------------------------------- the block

  predicate Zeros(m: seq<Byte>, lo: nat, hi: nat) { forall k :: lo <= k < hi && k < |m| ==> m[k] == 0 }

  /** argv[j] holds the address of string j. */
  predicate Pointer(m: seq<Byte>, sp: nat, cp: nat, args: seq<CString>, j: nat) {
    j < |args| && sp + 8 + 4 * j <= |m| && Load(m, sp + 4 + 4 * j) == cp + Off(args, j)
  }

  predicate Pointers(m: seq<Byte>, sp: nat, cp: nat, args: seq<CString>, i: nat) {
    forall j :: 0 <= j < i ==> Pointer(m, sp, cp, args, j)
  }

  /** String j is at its place. */
  predicate Text(m: seq<Byte>, cp: nat, args: seq<CString>, j: nat) {
    j < |args| && StringAt(m, cp + Off(args, j), args[j])
  }

  predicate Texts(m: seq<Byte>, cp: nat, args: seq<CString>, i: nat) {
    forall j :: 0 <= j < i ==> Text(m, cp, args, j)
  }

  /** What i arguments leave free: m0 below sp, zeros after the i pointers and after the i strings. */
  predicate Rest(m0: seq<Byte>, m: seq<Byte>, sp: nat, cp: nat, args: seq<CString>, i: nat) {
    && i <= |args| && sp + 4 * (|args| + 3) <= cp && cp + Size(args) == |m| && Agree(m0, m, 0, sp)
    && Zeros(m, sp + 4 + 4 * i, cp) && Zeros(m, cp + Off(args, i), |m|)
  }

  /** The block with i arguments in place. */
  predicate Placed(m0: seq<Byte>, m: seq<Byte>, sp: nat, cp: nat, args: seq<CString>, i: nat) {
    && Rest(m0, m, sp, cp, args, i) && Pointers(m, sp, cp, args, i) && Texts(m, cp, args, i) && Load(m, sp) == |args|
  }

  lemma {:induction false} OffMonotone(args: seq<CString>, i: nat, j: nat)
    requires i <= j <= |args|
    ensures Off(args, i) <= Off(args, j)
  {
    if i < j { OffMonotone(args, i, j - 1); }
  }

  lemma {:induction false} StringsRead(m: seq<Byte>, sp: nat, cp: nat, args: seq<CString>, n: nat)
    requires n <= |args| && sp + 4 + 4 * n <= |m| && Pointers(m, sp, cp, args, n) && Texts(m, cp, args, n)
    ensures ReadStrings(m, sp + 4, n) == args[..n]
  {
    if n > 0 {
      StringsRead(m, sp, cp, args, n - 1);
      StringRead(m, sp, cp, args, n - 1);
      assert args[..n] == args[..n - 1] + [args[n - 1]];
    }
  }

  lemma StringRead(m: seq<Byte>, sp: nat, cp: nat, args: seq<CString>, i: nat)
    requires Pointer(m, sp, cp, args, i) && Text(m, cp, args, i)
    ensures ReadString(m, Load(m, sp + 4 + 4 * i)) == args[i]
  {
    ReadStringIs(m, cp + Off(args, i), args[i], 0);
  }

  /** The finished block reads back as exactly argc and the arguments. */
  lemma BlockReads(m0: seq<Byte>, m: seq<Byte>, sp: nat, cp: nat, args: seq<CString>)
    requires Placed(m0, m, sp, cp, args, |args|)
    ensures Load(m, sp) == |args| && ReadStrings(m, sp + 4, |args|) == args
  {
    StringsRead(m, sp, cp, args, |args|);
    assert args[..|args|] == args;
  }

  /** The strings lie behind one another up to the end of the region. */
  lemma {:induction false} BlobLies(m: seq<Byte>, cp: nat, args: seq<CString>, i: nat)
    requires i <= |args| && cp + Size(args) <= |m| && Texts(m, cp, args, i)
    ensures Off(args, i) <= Size(args) && m[cp..cp + Off(args, i)] == Blob(args[..i])
  {
    OffMonotone(args, i, |args|);
    if i > 0 {
      BlobLies(m, cp, args, i - 1);
      assert Text(m, cp, args, i - 1);
      BlobNext(m, cp, args, i - 1);
    }
  }

  lemma BlobNext(m: seq<Byte>, cp: nat, args: seq<CString>, i: nat)
    requires i < |args| && cp + Off(args, i + 1) <= |m| && Text(m, cp, args, i)
    requires m[cp..cp + Off(args, i)] == Blob(args[..i])
    ensures m[cp..cp + Off(args, i + 1)] == Blob(args[..i + 1])
  {
    var s, at := args[i], cp + Off(args, i);
    assert args[..i + 1][..i] == args[..i];
    assert m[at..at + |s|] == s;
    assert m[cp..cp + Off(args, i + 1)] == m[cp..at] + m[at..at + |s|] + [m[at + |s|]];
  }

  /** The finished block holds the strings behind one another up to the end of the region. */
  lemma BlockStrings(m0: seq<Byte>, m: seq<Byte>, sp: nat, cp: nat, args: seq<CString>)
    requires Placed(m0, m, sp, cp, args, |args|)
    ensures m[cp..] == Blob(args)
  {
    BlobLies(m, cp, args, |args|);
    assert args[..|args|] == args && m[cp..] == m[cp..cp + Size(args)];
  }

  lemma ZeroWord(m: seq<Byte>, lo: nat, hi: nat, a: nat)
    requires Zeros(m, lo, hi) && lo <= a && a + 4 <= hi <= |m|
    ensures Load(m, a) == 0
  {
  }

  /** A NULL pointer ends argv, and another the empty envp behind it. */
  lemma BlockEnds(m0: seq<Byte>, m: seq<Byte>, sp: nat, cp: nat, args: seq<CString>, end: nat)
    requires Rest(m0, m, sp, cp, args, |args|) && (end == sp + 4 + 4 * |args| || end == sp + 8 + 4 * |args|)
    ensures end + 4 <= |m| && Load(m, end) == 0
  {
    ZeroWord(m, sp + 4 + 4 * |args|, cp, end);
  }

  // ---------------------------------------------------------------- one argument more

  /** From m to r only the word at cpp and n bytes from cp on changed. */
  predicate Beside(m: seq<Byte>, r: seq<Byte>, cpp: nat, cp: nat, n: nat) {
    |m| == |r| && forall k :: 0 <= k < |m| && !(cpp <= k < cpp + 4) && !(cp <= k < cp + n) ==> r[k] == m[k]
  }

  lemma RestMore(m0: seq<Byte>, m: seq<Byte>, r: seq<Byte>, sp: nat, cp: nat, args: seq<CString>, i: nat)
    requires Rest(m0, m, sp, cp, args, i) && i < |args|
    requires Beside(m, r, sp + 4 + 4 * i, cp + Off(args, i), |args[i]| + 1)
    ensures Rest(m0, r, sp, cp, args, i + 1)
  {
  }

  lemma WordKept(m: seq<Byte>, r: seq<Byte>, a: nat, cpp: nat, cp: nat, n: nat)
    requires Beside(m, r, cpp, cp, n) && a + 4 <= cpp < cp && a + 4 <= |m|
    ensures Load(r, a) == Load(m, a)
  {
  }

  lemma PointersMore(m: seq<Byte>, r: seq<Byte>, sp: nat, cp: nat, args: seq<CString>, i: nat, to: nat, n: nat)
    requires Pointers(m, sp, cp, args, i) && Beside(m, r, sp + 4 + 4 * i, to, n) && sp + 4 + 4 * i < to
    requires Pointer(r, sp, cp, args, i)
    ensures Pointers(r, sp, cp, args, i + 1)
  {
    forall j | 0 <= j < i ensures Pointer(r, sp, cp, args, j) {
      assert Pointer(m, sp, cp, args, j);
      WordKept(m, r, sp + 4 + 4 * j, sp + 4 + 4 * i, to, n);
    }
  }

  lemma TextKept(m: seq<Byte>, r: seq<Byte>, cp: nat, args: seq<CString>, i: nat, j: nat, cpp: nat, to: nat, n: nat)
    requires j < i <= |args| && to == cp + Off(args, i) && Text(m, cp, args, j) && cpp + 4 <= cp
             && Beside(m, r, cpp, to, n)
    ensures Text(r, cp, args, j)
  {
    OffMonotone(args, j + 1, i);
  }

  lemma TextsMore(m: seq<Byte>, r: seq<Byte>, cp: nat, args: seq<CString>, i: nat, cpp: nat, to: nat, n: nat)
    requires i < |args| && to == cp + Off(args, i) && Texts(m, cp, args, i) && cpp + 4 <= cp && Beside(m, r, cpp, to, n)
    requires Text(r, cp, args, i)
    ensures Texts(r, cp, args, i + 1)
  {
    forall j | 0 <= j < i ensures Text(r, cp, args, j) { TextKept(m, r, cp, args, i, j, cpp, to, n); }
  }

  lemma PlacedMore(m0: seq<Byte>, m: seq<Byte>, r: seq<Byte>, sp: nat, cp: nat, args: seq<CString>, i: nat)
    requires Placed(m0, m, sp, cp, args, i) && i < |args|
    requires Beside(m, r, sp + 4 + 4 * i, cp + Off(args, i), |args[i]| + 1)
    requires Pointer(r, sp, cp, args, i) && Text(r, cp, args, i)
    ensures Placed(m0, r, sp, cp, args, i + 1)
  {
    RestMore(m0, m, r, sp, cp, args, i);
    PointersMore(m, r, sp, cp, args, i, cp + Off(args, i), |args[i]| + 1);
    TextsMore(m, r, cp, args, i, sp + 4 + 4 * i, cp + Off(args, i), |args[i]| + 1);
    WordKept(m, r, sp, sp + 4 + 4 * i, cp + Off(args, i), |args[i]| + 1);
  }

  // ---------------------------------------------------------------- building it

  /** strcpy(dst + at, s). */
  method CopyString(dst: array<Byte>, at: nat, s: CString)
    requires at + |s| < dst.Length
    modifies dst
    ensures StringAt(dst[..], at, s)
    ensures forall k :: 0 <= k < dst.Length && !(at <= k <= at + |s|) ==> dst[k] == old(dst[k])
  {
    for i := 0 to |s|
      invariant forall k :: 0 <= k < i ==> dst[at + k] == s[k]
      invariant forall k :: 0 <= k < dst.Length && !(at <= k < at + i) ==> dst[k] == old(dst[k])
    {
      dst[at + i] := s[i];
    }
    dst[at + |s|] := 0;
  }

  /** The copy in the kernel that outlives region 1. */
  method SaveArgs(args: seq<CString>) returns (buf: array<Byte>)
    ensures fresh(buf) && buf.Length == Size(args) && Texts(buf[..], 0, args, |args|)
  {
    buf := new Byte[Size(args)];
    var cp2 := 0;
    for i := 0 to |args|
      invariant cp2 == Off(args, i) && Texts(buf[..], 0, args, i)
    {
      OffMonotone(args, i + 1, |args|);
      ghost var m := buf[..];
      CopyString(buf, cp2, args[i]);
      forall j | 0 <= j < i ensures Text(buf[..], 0, args, j) {
        assert Text(m, 0, args, j);
        OffMonotone(args, j + 1, i);
      }
      assert Text(buf[..], 0, args, i);
      cp2 := cp2 + |args[i]| + 1;
    }
  }

  /** strcpy(dst + d, src + s), and its length. */
  method CopyUntilNul(dst: array<Byte>, d: nat, src: array<Byte>, s: nat, ghost str: CString) returns (n: nat)
    requires dst != src && StringAt(src[..], s, str) && d + |str| < dst.Length
    modifies dst
    ensures n == |str| && StringAt(dst[..], d, str)
    ensures forall k :: 0 <= k < dst.Length && !(d <= k <= d + |str|) ==> dst[k] == old(dst[k])
  {
    assert forall k :: 0 <= k < |str| ==> src[s + k] == str[k];
    assert src[..][s + |str|] == 0;
    n := 0;
    while src[s + n] != 0
      invariant n <= |str| && (n < |str| ==> src[s + n] == str[n]) && forall k :: 0 <= k < n ==> dst[d + k] == str[k]
      invariant forall k :: 0 <= k < dst.Length && !(d <= k < d + n) ==> dst[k] == old(dst[k])
      decreases |str| - n
    {
      dst[d + n] := src[s + n];
      n := n + 1;
    }
    dst[d + n] := 0;
  }

  method Clear(mem: array<Byte>, from: nat)
    requires from <= mem.Length
    modifies mem
    ensures Agree(old(mem[..]), mem[..], 0, from) && Zeros(mem[..], from, mem.Length)
  {
    for a := from to mem.Length
      invariant forall k :: 0 <= k < from ==> mem[k] == old(mem[k])
      invariant forall k :: from <= k < a ==> mem[k] == 0
    {
      mem[a] := 0;
    }
  }

  /** One turn of the loop: a pointer and the string behind it. */
  method PlaceArg(mem: array<Byte>, buf: array<Byte>, cpp: nat, cp: nat, cp2: nat, ghost str: CString) returns (n: nat)
    requires mem != buf && cpp + 4 <= cp < WORD_LIMIT && cp + |str| < mem.Length && StringAt(buf[..], cp2, str)
    modifies mem
    ensures n == |str| && Beside(old(mem[..]), mem[..], cpp, cp, |str| + 1)
    ensures Load(mem[..], cpp) == cp && StringAt(mem[..], cp, str)
  {
    StoreWord(mem, cpp, cp);
    ghost var m := mem[..];
    n := CopyUntilNul(mem, cp, buf, cp2, str);
    WordSame(m, mem[..], cpp);
  }

  lemma WordSame(m: seq<Byte>, r: seq<Byte>, a: nat)
    requires a + 4 <= |m| == |r| && forall k :: a <= k < a + 4 ==> r[k] == m[k]
    ensures Load(r, a) == Load(m, a)
  {
  }

  lemma StartPlaced(m0: seq<Byte>, c: seq<Byte>, r: seq<Byte>, sp: nat, cp: nat, args: seq<CString>)
    requires Agree(m0, c, 0, sp) && Zeros(c, sp, |c|) && Stored(c, r, sp, |args|)
    requires sp + 4 * (|args| + 3) <= cp && cp + Size(args) == |r|
    ensures Placed(m0, r, sp, cp, args, 0)
  {
  }

  method StartBlock(mem: array<Byte>, sp: nat, argc: nat, ghost cp: nat, ghost args: seq<CString>)
    requires argc == |args| < WORD_LIMIT && sp + 4 * (argc + 3) <= cp && cp + Size(args) == mem.Length
    modifies mem
    ensures Placed(old(mem[..]), mem[..], sp, cp, args, 0)
  {
    Clear(mem, sp);
    ghost var c := mem[..];
    StoreWord(mem, sp, argc);
    StartPlaced(old(mem[..]), c, mem[..], sp, cp, args);
  }

  method PlaceNext(mem: array<Byte>, buf: array<Byte>, cpp: nat, cp: nat, cp2: nat,
                   ghost m0: seq<Byte>, ghost sp: nat, ghost top: nat, ghost args: seq<CString>, ghost i: nat)
                     returns (n: nat)
    requires mem != buf && i < |args| && mem.Length <= WORD_LIMIT && Text(buf[..], 0, args, i)
    requires cp == top + Off(args, i) && cpp == sp + 4 + 4 * i && cp2 == Off(args, i)
    requires Placed(m0, mem[..], sp, top, args, i)
    modifies mem
    ensures n == |args[i]| && Placed(m0, mem[..], sp, top, args, i + 1)
  {
    ghost var m := mem[..];
    OffMonotone(args, i + 1, |args|);
    n := PlaceArg(mem, buf, cpp, cp, cp2, args[i]);
    PlacedMore(m0, m, mem[..], sp, top, args, i);
  }

  /** *cpp = NULL, four zero bytes, where the memset has left zeros. */
  method StoreNull(mem: array<Byte>, cpp: nat, ghost end: nat)
    requires end == cpp + 4 <= mem.Length && Zeros(mem[..], cpp, end)
    modifies mem
    ensures mem[..] == old(mem[..])
  {
    for a := cpp to cpp + 4
      invariant mem[..] == old(mem[..])
    {
      assert mem[..][a] == 0;
      mem[a] := 0;
    }
  }

  /** The loop over the arguments. */
  method PlaceArgs(mem: array<Byte>, buf: array<Byte>, sp: nat, strings: nat, argc: nat, ghost m0: seq<Byte>,
                   ghost args: seq<CString>)
    returns (cpp: nat)
    requires mem != buf && mem.Length <= WORD_LIMIT && argc == |args| && Texts(buf[..], 0, args, |args|)
    requires Placed(m0, mem[..], sp, strings, args, 0)
    modifies mem
    ensures cpp == sp + 4 + 4 * argc && Placed(m0, mem[..], sp, strings, args, |args|)
  {
    var cp, cp2 := strings, 0;
    cpp := sp + 4;
    for i := 0 to argc
      invariant cp == strings + Off(args, i) && cpp == sp + 4 + 4 * i && cp2 == Off(args, i)
      invariant Placed(m0, mem[..], sp, strings, args, i)
    {
      var n := PlaceNext(mem, buf, cpp, cp, cp2, m0, sp, strings, args, i);
      cp, cpp, cp2 := cp + n + 1, cpp + 4, cp2 + n + 1;
    }
  }

  lemma RoomForNulls(m0: seq<Byte>, m: seq<Byte>, sp: nat, cp: nat, args: seq<CString>, end: nat)
    requires Rest(m0, m, sp, cp, args, |args|) && (end == sp + 4 + 4 * |args| || end == sp + 8 + 4 * |args|)
    ensures end + 4 <= |m| && Zeros(m, end, end + 4)
  {
  }

  /** memset, argc, for each argument its pointer and its string, and two NULLs. */
  method BuildBlock(mem: array<Byte>, buf: array<Byte>, sp: nat, strings: nat, argc: nat, ghost args: seq<CString>)
    requires mem != buf && mem.Length <= WORD_LIMIT && argc == |args| < WORD_LIMIT && strings + Size(args) == mem.Length
    requires sp + 4 * (argc + 3) <= strings && Texts(buf[..], 0, args, |args|)
    modifies mem
    ensures Placed(old(mem[..]), mem[..], sp, strings, args, |args|)
  {
    StartBlock(mem, sp, argc, strings, args);
    var cpp := PlaceArgs(mem, buf, sp, strings, argc, old(mem[..]), args);
    var envp := cpp + 4;
    RoomForNulls(old(mem[..]), mem[..], sp, strings, args, cpp);
    RoomForNulls(old(mem[..]), mem[..], sp, strings, args, envp);
    StoreNull(mem, cpp, cpp + 4);
    StoreNull(mem, envp, envp + 4);
  }

  // ---------------------------------------------------------------- LoadProgram's part in it

  datatype Loaded = Error | Kill | Running(sp: nat, stackPages: nat)

  /** Where the strings and the block start, and how many pages that makes. */
  method LayOut(args: seq<CString>) returns (cp: int, cpp: int, pages: int)
    ensures cp == Strings(args) && cpp == StackPointer(args) && pages == StackPages(args)
  {
    var size := 0;
    for i := 0 to |args|
      invariant size == Off(args, i)
    {
      size := size + |args[i]| + 1;
    }
    cp := REGION_1_LIMIT - size;
    cpp := Down(cp - (|args| + 3 + POST_ARGV_NULL_SPACE) * 4, 8);
    pages := (REGION_1_LIMIT - Down(cpp, PAGESIZE)) / PAGESIZE;
  }

  /** Lay the block out, check that it fits above dataEnd pages of program, save the arguments, and build
      the block in the new region 1.  `room` is whether malloc found room for the saved copy. */
  method LoadArgs(mem: array<Byte>, args: seq<CString>, dataEnd: nat, room: bool) returns (r: Loaded)
    requires mem.Length == REGION_1_LIMIT
    modifies mem
    ensures r.Error? <==> !Fits(args, dataEnd)
    ensures r.Kill? <==> Fits(args, dataEnd) && !room
    ensures !r.Running? ==> mem[..] == old(mem[..])
    ensures r.Running? ==>
              && r.sp == StackPointer(args) && r.stackPages == StackPages(args)
              && Placed(old(mem[..]), mem[..], r.sp, Strings(args), args, |args|)
  {
    var cp, cpp, pages := LayOut(args);
    if pages + dataEnd >= PAGES { return Error; }
    if !room { return Kill; }
    Geometry(args, dataEnd);
    var buf := SaveArgs(args);
    BuildBlock(mem, buf, cpp, cp, |args|, args);
    return Running(cpp, pages);
  }

  /** For every list of arguments that passes the check, main gets exactly them: argc, the strings in
      order, and nothing below the stack pointer has changed, which lies in the stack pages. */
  lemma ArgumentsArrive(m0: seq<Byte>, m: seq<Byte>, args: seq<CString>, dataEnd: nat, sp: nat)
    requires Fits(args, dataEnd) && sp == StackPointer(args) && 0 <= Strings(args)
             && Placed(m0, m, sp, Strings(args), args, |args|)
    ensures Load(m, sp) == |args| && ReadStrings(m, sp + 4, |args|) == args
    ensures Agree(m0, m, 0, REGION_1_LIMIT - StackPages(args) * PAGESIZE)
  {
    BlockReads(m0, m, sp, Strings(args), args);
    Geometry(args, dataEnd);
  }
}
