/** memlib.c: one array of bytes, a break that only grows, and the 32-bit words mm.c reads and
    writes in it.  Addresses count from the start of the array, which is 8-aligned. */
module Memlib {

  type byte = x: int | 0 <= x < 256

  const WORD := 0x1_0000_0000

  // GET: a size_t in little-endian order.
  function Word(m: seq<byte>, p: nat): (w: nat)
    requires p + 4 <= |m|
    ensures w < WORD
  {
    var a: nat, b: nat, c: nat, d: nat := m[p], m[p + 1], m[p + 2], m[p + 3];
    a + 256 * b + 65536 * c + 16777216 * d
  }

  function Byte(v: nat, i: nat): byte {
    if i == 0 then v % 256 else if i == 1 then v / 256 % 256 else if i == 2 then v / 65536 % 256 else v / 16777216 % 256
  }

  lemma BytesOfWord(v: nat)
    requires v < WORD
    ensures Byte(v, 0) + 256 * Byte(v, 1) + 65536 * Byte(v, 2) + 16777216 * Byte(v, 3) == v
  {
    assert v / 65536 == v / 256 / 256 && v / 16777216 == v / 65536 / 256;
  }

  // n has the bytes of m except in [lo, hi).
  ghost predicate Same(m: seq<byte>, n: seq<byte>, lo: int, hi: int) {
    |n| == |m| && forall a :: 0 <= a < |m| && !(lo <= a < hi) ==> n[a] == m[a]
  }

  lemma SameWord(m: seq<byte>, n: seq<byte>, lo: int, hi: int, p: nat)
    requires Same(m, n, lo, hi) && p + 4 <= |m| && (p + 4 <= lo || hi <= p)
    ensures Word(n, p) == Word(m, p)
  {
  }

  class Memory {
    const bytes: array<byte>
    var brk: nat                    // mem_brk - mem_start_brk

    ghost predicate Valid()
      reads this
    {
      brk <= bytes.Length
    }

    constructor (maxHeap: nat)
      ensures Valid() && brk == 0 && bytes.Length == maxHeap && fresh(bytes)
    {
      bytes := new byte[maxHeap];
      brk := 0;
    }

    /** mem_reset_brk */
    method ResetBrk()
      modifies this`brk
      ensures Valid() && brk == 0
    {
      brk := 0;
    }

    /** mem_sbrk: the old break, or -1 and no change when incr is negative or the array is used up. */
    method Sbrk(incr: int) returns (p: int)
      requires Valid()
      modifies this`brk
      ensures Valid()
      ensures if incr < 0 || old(brk) + incr > bytes.Length then p == -1 && brk == old(brk)
              else p == old(brk) && brk == p + incr
    {
      if incr < 0 || brk + incr > bytes.Length {
        return -1;
      }
      p := brk;
      brk := brk + incr;
    }

    function Get(p: nat): nat
      requires p + 4 <= bytes.Length
      reads bytes
    {
      Word(bytes[..], p)
    }

    /** PUT */
    method Put(p: nat, v: nat)
      requires p + 4 <= bytes.Length && v < WORD
      modifies bytes
      ensures Get(p) == v && Same(old(bytes[..]), bytes[..], p, p + 4)
    {
      bytes[p] := Byte(v, 0);
      bytes[p + 1] := Byte(v, 1);
      bytes[p + 2] := Byte(v, 2);
      bytes[p + 3] := Byte(v, 3);
      BytesOfWord(v);
    }

    /** memcpy of n bytes between areas that do not overlap. */
    method Copy(dst: nat, src: nat, n: nat)
      requires dst + n <= bytes.Length && src + n <= bytes.Length && (dst + n <= src || src + n <= dst)
      modifies bytes
      ensures Same(old(bytes[..]), bytes[..], dst, dst + n)
      ensures bytes[..][dst..dst + n] == old(bytes[..])[src..src + n]
    {
      var i := 0;
      while i < n
        invariant 0 <= i <= n
        invariant Same(old(bytes[..]), bytes[..], dst, dst + n)
        invariant bytes[dst..dst + i] == old(bytes[src..src + i])
      {
        bytes[dst + i] := bytes[src + i];
        i := i + 1;
      }
      assert bytes[..][dst..dst + n] == bytes[dst..dst + n];
    }
  }
}
