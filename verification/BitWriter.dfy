/** The compressor's output side: the stretchy byte buffer and the bit accumulator in front of it. */
module BitWriter {
  import opened Basics
  import opened Bits

  /** Splitting off the low byte of an accumulator. */
  lemma LsbFlushByte(v: nat, n: nat)
    requires n >= 8
    ensures LsbBits(v, n) == LsbBits(v % 256, 8) + LsbBits(v / 256, n - 8)
  {
    assert Pow2(8) == 256;
    assert v == v % 256 + v / 256 * 256;
    LsbConcat(v % 256, 8, v / 256, n - 8);
  }

  lemma {:induction false} ShiftedBelow(v: nat, n: nat)
    requires n >= 8 && v < Pow2(n)
    ensures v / 256 < Pow2(n - 8)
  {
    Pow2Add(n - 8, 8);
    assert Pow2(8) == 256;
  }

  lemma OrBelow(lo: nat, hi: nat, a: nat, b: nat)
    requires lo < Pow2(a) && hi < Pow2(b)
    ensures BitOr(lo, Shl(hi, a)) == lo + hi * Pow2(a) < Pow2(a + b)
  {
    OrIsAdd(lo, hi, a);
    Pow2Add(b, a);
    MulMono(hi + 1, Pow2(b), Pow2(a));
    Distribute(hi, Pow2(a));
  }

  /** What one stbiw__zlib_add does to the accumulator, and that it stays below 32 bits. */
  lemma AddedBits(out: seq<byte>, buf: nat, k: nat, code: nat, n: nat)
    requires buf < Pow2(k) && code < Pow2(n) && k < 8 && n <= 13
    ensures BitOr(buf, Shl(code, k)) < Pow2(k + n) <= 0x10_0000
    ensures BytesBits(out) + LsbBits(BitOr(buf, Shl(code, k)), k + n)
         == BytesBits(out) + LsbBits(buf, k) + LsbBits(code, n)
  {
    OrBelow(buf, code, k, n);
    LsbConcat(buf, k, code, n);
    ConcatAssoc(BytesBits(out), LsbBits(buf, k), LsbBits(code, n));
    TwentyBits(k + n);
  }

  lemma TwentyBits(n: nat)
    requires n <= 20
    ensures Pow2(n) <= 0x10_0000
  {
    Pow2Monotone(n, 20);
    Pow2Add(10, 10);
    assert Pow2(10) == 1024;
  }

  /** Appending bytes behind an empty accumulator, or bits behind a full one. */
  lemma StreamPush(out: seq<byte>, v: byte)
    ensures BytesBits(out + [v]) == BytesBits(out) + LsbBits(v, BYTE_BITS)
  {
    BytesBitsConcat(out, [v]);
    assert BytesBits([v]) == LsbBits(v, BYTE_BITS) + BytesBits([]);
  }

  /** Moving the accumulator's low byte to the buffer leaves the stream as it was. */
  lemma FlushStep(out: seq<byte>, v: nat, n: nat)
    requires n >= 8 && v < Pow2(n)
    ensures BytesBits(out + [v % 256]) + LsbBits(v / 256, n - 8) == BytesBits(out) + LsbBits(v, n)
    ensures v / 256 < Pow2(n - 8)
  {
    LsbFlushByte(v, n);
    StreamPush(out, v % 256);
    ConcatAssoc(BytesBits(out), LsbBits(v % 256, BYTE_BITS), LsbBits(v / 256, n - 8));
    ShiftedBelow(v, n);
  }

  /** One step of the reversal: all is split into the bits still in c and, reversed, those in res. */
  lemma NextBit(c: nat, left: nat, res: nat, k: nat, all: seq<bit>)
    requires left > 0 && |all| == left + k && res < Pow2(k)
    requires MsbBits(c, left) == all[..left] && LsbBits(res, k) == all[left..]
    ensures var next := BitOr(Shl(res, 1), c % 2);
            next < Pow2(k + 1) && LsbBits(next, k + 1) == all[left - 1..] && MsbBits(c / 2, left - 1) == all[..left - 1]
  {
    ShiftIn(res, c % 2);
    assert MsbBits(c, left)[left - 1] == c % 2 && MsbBits(c, left)[..left - 1] == MsbBits(c / 2, left - 1);
    assert all[left - 1..] == [all[left - 1]] + all[left..];
  }

  lemma ShiftIn(res: nat, b: bit)
    ensures BitOr(Shl(res, 1), b) == 2 * res + b
  {
    assert Pow2(1) == 2;
  }

  /** stbiw__zlib_bitrev: reading the result least significant bit first gives the bits of code
      most significant bit first. */
  method BitRev(code: nat, codebits: nat) returns (res: nat)
    requires code < Pow2(codebits)
    ensures res < Pow2(codebits) && LsbBits(res, codebits) == MsbBits(code, codebits)
  {
    res := 0;
    var c, left := code, codebits;
    while left > 0
      invariant 0 <= left <= codebits && res < Pow2(codebits - left)
      invariant MsbBits(c, left) == MsbBits(code, codebits)[..left]
      invariant LsbBits(res, codebits - left) == MsbBits(code, codebits)[left..]
    {
      NextBit(c, left, res, codebits - left, MsbBits(code, codebits));
      res := BitOr(Shl(res, 1), c % 2);
      c, left := c / 2, left - 1;
    }
  }

  class BitWriter {
    var out: seq<byte>      // the buffer's contents; |out| is its count field
    var cap: nat            // the buffer's capacity field, 0 before the first allocation
    var bitbuf: uint32
    var bitcount: nat

    ghost predicate Valid()
      reads this
    {
      bitcount < 8 && bitbuf < Pow2(bitcount) && |out| <= cap
    }

    /** Every bit written so far, in stream order. */
    ghost function Stream(): seq<bit>
      reads this
    {
      BytesBits(out) + LsbBits(bitbuf, bitcount)
    }

    constructor ()
      ensures Valid() && Stream() == [] && out == [] && cap == 0 && bitcount == 0
    {
      out, cap, bitbuf, bitcount := [], 0, 0, 0;
    }

    /** stbiw__sbpush: grow when the count would reach the capacity, then store. */
    method Push(v: byte)
      requires |out| <= cap
      modifies this`out, this`cap
      ensures out == old(out) + [v] && |out| <= cap && old(cap) <= cap
      ensures old(|out| + 1 < cap) ==> cap == old(cap)
    {
      if |out| + 1 >= cap {
        cap := if cap == 0 then 2 else 2 * cap + 1;
      }
      out := out + [v];
    }

    /** memcpy past the count, then advancing it: legal only inside the capacity, and never grows. */
    method CopyRaw(src: seq<byte>)
      requires |out| + |src| <= cap
      modifies this`out
      ensures out == old(out) + src && |out| <= cap
    {
      out := out + src;
    }

    /** stbiw__zlib_flushf: move whole bytes from the accumulator to the buffer. */
    method Flush()
      requires bitbuf < Pow2(bitcount) && |out| <= cap
      modifies this
      ensures Valid() && Stream() == old(Stream()) && bitcount == old(bitcount) % 8
    {
      while bitcount >= 8
        invariant bitbuf < Pow2(bitcount) && |out| <= cap
        invariant Stream() == old(Stream()) && bitcount % 8 == old(bitcount) % 8
      {
        FlushByte();
      }
    }

    /** The loop's body. */
    method FlushByte()
      requires bitcount >= 8 && bitbuf < Pow2(bitcount) && |out| <= cap
      modifies this
      ensures bitcount == old(bitcount) - 8 && bitbuf < Pow2(bitcount) && |out| <= cap
      ensures Stream() == old(Stream())
    {
      FlushStep(out, bitbuf, bitcount);
      Push(bitbuf % 256);
      bitbuf := bitbuf / 256;
      bitcount := bitcount - 8;
    }

    /** stbiw__zlib_add: append the low codebits bits of code, least significant first. The type
        of bitbuf shows that the shifted code never leaves the 32-bit accumulator. */
    method Add(code: nat, codebits: nat)
      requires Valid() && code < Pow2(codebits) && codebits <= 13
      modifies this
      ensures Valid() && Stream() == old(Stream()) + LsbBits(code, codebits)
      ensures bitcount == (old(bitcount) + codebits) % 8
    {
      AddedBits(out, bitbuf, bitcount, code, codebits);
      bitbuf := BitOr(bitbuf, Shl(code, bitcount));
      bitcount := bitcount + codebits;
      Flush();
    }

    /** stbiw__zlib_huffa: append a codeword, most significant bit first. */
    method AddCode(code: nat, codebits: nat)
      requires Valid() && code < Pow2(codebits) && codebits <= 13
      modifies this
      ensures Valid() && Stream() == old(Stream()) + MsbBits(code, codebits)
    {
      var rev := BitRev(code, codebits);
      Add(rev, codebits);
    }
  }
}
