/** Bytes, bits and the two bit orders of RFC 1951 section 3.1.1: data elements are packed
    least significant bit first, Huffman codes most significant bit first. */
module Bits {
  import opened Basics

  type byte = x: int | 0 <= x < 256
  type bit = x: int | 0 <= x < 2
  type uint32 = x: int | 0 <= x < 0x1_0000_0000

  function Pow2(n: nat): (r: nat)
    ensures r >= 1
  {
    if n == 0 then 1 else 2 * Pow2(n - 1)
  }

  lemma {:induction false} Pow2Add(a: nat, b: nat)
    ensures Pow2(a + b) == Pow2(a) * Pow2(b)
  {
    if a != 0 {
      Pow2Add(a - 1, b);
    }
  }

  lemma {:induction false} Pow2Monotone(a: nat, b: nat)
    requires a <= b
    ensures Pow2(a) <= Pow2(b)
  {
    if a != 0 {
      Pow2Monotone(a - 1, b - 1);
    }
  }

  /** The n low bits of v, least significant first. */
  function LsbBits(v: nat, n: nat): (r: seq<bit>)
    ensures |r| == n
  {
    if n == 0 then [] else [v % 2] + LsbBits(v / 2, n - 1)
  }

  /** The n low bits of v, most significant first. */
  function MsbBits(v: nat, n: nat): (r: seq<bit>)
    ensures |r| == n
  {
    if n == 0 then [] else MsbBits(v / 2, n - 1) + [v % 2]
  }

  function LsbValue(bits: seq<bit>): nat {
    if bits == [] then 0 else bits[0] + 2 * LsbValue(bits[1..])
  }

  function MsbValue(bits: seq<bit>): nat {
    if bits == [] then 0 else 2 * MsbValue(bits[..|bits| - 1]) + bits[|bits| - 1]
  }

  const BYTE_BITS: nat := 8

  function BytesBits(bytes: seq<byte>): (r: seq<bit>)
    ensures |r| == BYTE_BITS * |bytes|
  {
    if bytes == [] then [] else LsbBits(bytes[0], BYTE_BITS) + BytesBits(bytes[1..])
  }

  lemma {:induction false} LsbValueOfBits(v: nat, n: nat)
    requires v < Pow2(n)
    ensures LsbValue(LsbBits(v, n)) == v
  {
    if n != 0 {
      LsbValueOfBits(v / 2, n - 1);
      assert LsbBits(v, n)[1..] == LsbBits(v / 2, n - 1);
    }
  }

  lemma {:induction false} MsbValueOfBits(v: nat, n: nat)
    requires v < Pow2(n)
    ensures MsbValue(MsbBits(v, n)) == v
  {
    if n != 0 {
      MsbValueOfBits(v / 2, n - 1);
      assert MsbBits(v, n)[..n - 1] == MsbBits(v / 2, n - 1) && MsbBits(v, n)[n - 1] == v % 2;
    }
  }

  /** Packing a b-bit number above an a-bit number concatenates their bits. */
  lemma {:induction false} LsbConcat(lo: nat, a: nat, hi: nat, b: nat)
    requires lo < Pow2(a)
    ensures LsbBits(lo + hi * Pow2(a), a + b) == LsbBits(lo, a) + LsbBits(hi, b)
  {
    if a != 0 {
      var v := lo + hi * Pow2(a);
      assert hi * Pow2(a) == 2 * (hi * Pow2(a - 1));
      assert v % 2 == lo % 2 && v / 2 == lo / 2 + hi * Pow2(a - 1);
      LsbConcat(lo / 2, a - 1, hi, b);
      assert LsbBits(v, a + b) == [v % 2] + LsbBits(v / 2, a - 1 + b);
    }
  }

  lemma {:induction false} BytesBitsConcat(a: seq<byte>, b: seq<byte>)
    ensures BytesBits(a + b) == BytesBits(a) + BytesBits(b)
  {
    if a == [] {
      assert a + b == b;
    } else {
      var first, rest := LsbBits(a[0], BYTE_BITS), BytesBits(a[1..]);
      BytesBitsConcat(a[1..], b);
      assert (a + b)[1..] == a[1..] + b && (a + b)[0] == a[0];
      assert BytesBits(a + b) == first + (rest + BytesBits(b));
      assert BytesBits(a) == first + rest;
      ConcatAssoc(first, rest, BytesBits(b));
    }
  }

  /** Bitwise operators of C on nonnegative operands. */
  function BitOr(a: nat, b: nat): nat {
    if a == 0 then b else if b == 0 then a
    else (if a % 2 == 1 || b % 2 == 1 then 1 else 0) + 2 * BitOr(a / 2, b / 2)
  }

  function BitXor(a: nat, b: nat): nat {
    if a == 0 then b else if b == 0 then a
    else (a % 2 + b % 2) % 2 + 2 * BitXor(a / 2, b / 2)
  }

  function Shl(v: nat, n: nat): nat { v * Pow2(n) }

  /** OR-ing a shifted value into bits below the shift adds it. */
  lemma {:induction false} OrIsAdd(lo: nat, hi: nat, n: nat)
    requires lo < Pow2(n)
    ensures BitOr(lo, Shl(hi, n)) == lo + Shl(hi, n)
  {
    if lo != 0 && hi != 0 {
      var s := hi * Pow2(n - 1);
      assert Shl(hi, n) == 2 * s && s == Shl(hi, n - 1);
      OrIsAdd(lo / 2, hi, n - 1);
      assert s >= 1;
      assert (2 * s) % 2 == 0 && (2 * s) / 2 == s;
    }
  }
}
