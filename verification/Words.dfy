/** Byte memory holding 32-bit little-endian words. */
module Words {
  import opened Common

  const WORD_LIMIT: nat := 0x1_0000_0000

  function Word(b0: nat, b1: nat, b2: nat, b3: nat): nat {
    b0 + 0x100 * b1 + 0x1_0000 * b2 + 0x100_0000 * b3
  }

  function Load(m: seq<Byte>, a: nat): nat
    requires a + 4 <= |m|
  {
    Word(m[a], m[a + 1], m[a + 2], m[a + 3])
  }

  function Encode(v: nat): (e: seq<Byte>)
    requires v < WORD_LIMIT
    ensures |e| == 4 && Word(e[0], e[1], e[2], e[3]) == v
  {
    assert v / 0x1_0000 == v / 0x100 / 0x100 && v / 0x100_0000 == v / 0x100 / 0x100 / 0x100;
    [v % 0x100, v / 0x100 % 0x100, v / 0x1_0000 % 0x100, v / 0x100_0000]
  }

  /** r is m with the word v written at a. */
  predicate Stored(m: seq<Byte>, r: seq<Byte>, a: nat, v: nat) {
    && |r| == |m| && a + 4 <= |m| && Load(r, a) == v
    && forall k :: 0 <= k < |m| && !(a <= k < a + 4) ==> r[k] == m[k]
  }

  /** Words beside a written one are not disturbed. */
  lemma LoadBeside(m: seq<Byte>, r: seq<Byte>, a: nat, v: nat, b: nat)
    requires Stored(m, r, a, v) && b + 4 <= |m| && (a + 4 <= b || b + 4 <= a)
    ensures Load(r, b) == Load(m, b)
  {
  }

  predicate Agree(m: seq<Byte>, r: seq<Byte>, a: nat, n: nat) {
    |m| == |r| && forall k :: a <= k < a + n && k < |m| ==> r[k] == m[k]
  }

  method StoreWord(mem: array<Byte>, a: nat, v: nat)
    requires a + 4 <= mem.Length && v < WORD_LIMIT
    modifies mem
    ensures Stored(old(mem[..]), mem[..], a, v)
  {
    var e := Encode(v);
    mem[a], mem[a + 1], mem[a + 2], mem[a + 3] := e[0], e[1], e[2], e[3];
  }

  method LoadWord(mem: array<Byte>, a: nat) returns (v: nat)
    requires a + 4 <= mem.Length
    ensures v == Load(mem[..], a)
  {
    v := Word(mem[a], mem[a + 1], mem[a + 2], mem[a + 3]);
  }

  /** memcpy between ranges that do not overlap, or are the same. */
  method CopyBytes(mem: array<Byte>, dst: nat, src: nat, n: nat)
    requires dst + n <= mem.Length && src + n <= mem.Length
    requires dst == src || dst + n <= src || src + n <= dst
    modifies mem
    ensures forall k :: dst <= k < dst + n ==> mem[k] == old(mem[k - dst + src])
    ensures forall k :: 0 <= k < mem.Length && !(dst <= k < dst + n) ==> mem[k] == old(mem[k])
  {
    var i := 0;
    while i < n
      invariant 0 <= i <= n
      invariant forall k :: dst <= k < dst + i ==> mem[k] == old(mem[k - dst + src])
      invariant forall k :: 0 <= k < mem.Length && !(dst <= k < dst + i) ==> mem[k] == old(mem[k])
    {
      mem[dst + i] := mem[src + i];
      i := i + 1;
    }
  }
}
