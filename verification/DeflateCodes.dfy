/** What the compressor's codewords mean to the decoder: each emitted symbol, wherever it stands in
    a stream, appends exactly the bytes it was emitted for. */
module DeflateCodes {
  import opened Basics
  import opened Bits
  import opened Inflate

  /** The macros stbiw__zlib_huff1..huff4: codeword and its length, by symbol range. */
  function CodeOf(sym: nat): nat
    requires sym < 288
  {
    if sym <= 143 then 0x30 + sym
    else if sym <= 255 then 0x190 + sym - 144
    else if sym <= 279 then sym - 256
    else 0xc0 + sym - 280
  }

  function CodeLength(sym: nat): nat {
    if sym <= 143 then 8 else if sym <= 255 then 9 else if sym <= 279 then 7 else 8
  }

  lemma CodeFits(sym: nat)
    requires sym < 288
    ensures CodeOf(sym) < Pow2(CodeLength(sym))
  {
    assert Pow2(7) == 128 && Pow2(8) == 256 && Pow2(9) == 512;
  }

  function Halved(code: nat, times: nat): nat {
    if times == 0 then code else Halved(code / 2, times - 1)
  }

  /** Reading the first k bits of an n-bit codeword yields its k high bits. */
  lemma {:induction false} MsbPrefix(code: nat, n: nat, k: nat, rest: seq<bit>)
    requires code < Pow2(n) && k <= n
    ensures MsbValue((MsbBits(code, n) + rest)[..k]) == Halved(code, n - k)
  {
    if k == n {
      MsbWhole(code, n, rest);
    } else {
      MsbPrefix(code / 2, n - 1, k, [code % 2] + rest);
      ConcatAssoc(MsbBits(code / 2, n - 1), [code % 2], rest);
    }
  }

  lemma MsbWhole(code: nat, n: nat, rest: seq<bit>)
    requires code < Pow2(n)
    ensures (MsbBits(code, n) + rest)[..n] == MsbBits(code, n) && MsbValue(MsbBits(code, n)) == code
  {
    MsbValueOfBits(code, n);
  }

  /** The codes of 7, 8 and 9 bits, read back. */
  lemma DecodeSeven(code: nat, rest: seq<bit>)
    requires code < 24
    ensures DecodeSymbol(MsbBits(code, 7) + rest) == Some((256 + code, rest))
  {
    SmallPowers();
    MsbPrefix(code, 7, 7, rest);
    assert (MsbBits(code, 7) + rest)[7..] == rest;
  }

  lemma DecodeEight(code: nat, rest: seq<bit>)
    requires 48 <= code < 200
    ensures DecodeSymbol(MsbBits(code, 8) + rest) == Some((if code < 192 then code - 48 else 88 + code, rest))
  {
    SmallPowers();
    MsbPrefix(code, 8, 7, rest);
    MsbPrefix(code, 8, 8, rest);
    assert (MsbBits(code, 8) + rest)[8..] == rest;
  }

  lemma DecodeNine(code: nat, rest: seq<bit>)
    requires 400 <= code < 512
    ensures DecodeSymbol(MsbBits(code, 9) + rest) == Some((code - 256, rest))
  {
    SmallPowers();
    MsbPrefix(code, 9, 7, rest);
    MsbPrefix(code, 9, 8, rest);
    MsbPrefix(code, 9, 9, rest);
    assert Halved(code, 2) == Halved(code / 2, 1) == code / 2 / 2;
    assert (MsbBits(code, 9) + rest)[9..] == rest;
  }

  lemma SmallPowers()
    ensures Pow2(7) == 128 && Pow2(8) == 256 && Pow2(9) == 512
  {
  }

  lemma DecodeEmittedSymbol(sym: nat, rest: seq<bit>)
    requires sym < 288
    ensures DecodeSymbol(MsbBits(CodeOf(sym), CodeLength(sym)) + rest) == Some((sym, rest))
  {
    if sym <= 143 {
      DecodeEight(48 + sym, rest);
    } else if sym <= 255 {
      DecodeNine(256 + sym, rest);
    } else if sym <= 279 {
      DecodeSeven(sym - 256, rest);
    } else {
      DecodeEight(sym - 88, rest);
    }
  }

  /** The source's tables, sentinel entries included. */
  const LENGTHC: seq<nat> := [3, 4, 5, 6, 7, 8, 9, 10, 11, 13, 15, 17, 19, 23, 27, 31, 35, 43, 51, 59, 67, 83, 99, 115,
                              131, 163, 195, 227, 258, 259]
  const LENGTHEB: seq<nat> := [0, 0, 0, 0, 0, 0, 0, 0, 1, 1, 1, 1, 2, 2, 2, 2, 3, 3, 3, 3, 4, 4, 4, 4, 5, 5, 5, 5, 0]
  const DISTC: seq<nat> := [1, 2, 3, 4, 5, 7, 9, 13, 17, 25, 33, 49, 65, 97, 129, 193, 257, 385, 513, 769, 1025, 1537,
                            2049, 3073, 4097, 6145, 8193, 12289, 16385, 24577, 32768]
  const DISTEB: seq<nat> := [0, 0, 0, 0, 1, 1, 2, 2, 3, 3, 4, 4, 5, 5, 6, 6, 7, 7, 8, 8, 9, 9, 10, 10, 11, 11, 12, 12,
                             13, 13]

  /** The source's length table is the one of RFC 1951 section 3.2.5, and each length between two
      entries fits its extra bits. */
  lemma LengthTable(j: nat, length: nat)
    requires j < 29 && LENGTHC[j] <= length < LENGTHC[j + 1]
    ensures LENGTHC[j] == LengthBase(257 + j) && LENGTHEB[j] == LengthExtra(257 + j) <= 5
    ensures length - LENGTHC[j] < Pow2(LENGTHEB[j])
  {
    LengthEntry(j);
    LengthGap(j);
  }

  lemma LengthEntry(j: nat)
    requires j < 29
    ensures LENGTHC[j] == LengthBase(257 + j) && LENGTHEB[j] == LengthExtra(257 + j) <= 5
  {
    FirstPowers();
  }

  lemma LengthGap(j: nat)
    requires j < 29
    ensures LENGTHC[j + 1] - LENGTHC[j] <= Pow2(LENGTHEB[j])
  {
    FirstPowers();
  }

  lemma FirstPowers()
    ensures Pow2(0) == 1 && Pow2(1) == 2 && Pow2(2) == 4 && Pow2(3) == 8 && Pow2(4) == 16 && Pow2(5) == 32
  {
  }

  lemma DistanceTable(j: nat, distance: nat)
    requires j < 30 && DISTC[j] <= distance < DISTC[j + 1]
    ensures DISTC[j] == DistanceBase(j) && DISTEB[j] == DistanceExtra(j) <= 13
    ensures distance - DISTC[j] < Pow2(DISTEB[j])
  {
    DistanceEntry(j);
  }

  lemma DistanceEntry(j: nat)
    requires j < 30
    ensures DISTC[j] == DistanceBase(j) && DISTEB[j] == DistanceExtra(j) <= 13
    ensures DISTC[j + 1] - DISTC[j] <= Pow2(DISTEB[j])
  {
    if j < 4 {
      PowersTable(0);
    } else {
      var e := (j - 2) / 2;
      DistancePair(e);
      PowersTable(e);
      assert j == 2 * e + 2 || j == 2 * e + 3;
    }
  }

  const POWERS: seq<nat> := [1, 2, 4, 8, 16, 32, 64, 128, 256, 512, 1024, 2048, 4096, 8192]

  lemma {:induction false} PowersTable(e: nat)
    requires e <= 13
    ensures Pow2(e) == POWERS[e]
  {
    if e != 0 {
      PowersTable(e - 1);
    }
  }

  lemma DistancePair(e: nat)
    requires 1 <= e <= 13
    ensures DISTC[2 * e + 2] == 1 + 2 * POWERS[e] && DISTC[2 * e + 3] == 1 + 3 * POWERS[e]
    ensures DISTC[2 * e + 4] <= 1 + 4 * POWERS[e] && DISTEB[2 * e + 2] == e == DISTEB[2 * e + 3]
  {
  }

  /** The bits w, in front of anything, take the decoder from output a to output b. */
  ghost predicate Emits(w: seq<bit>, a: seq<byte>, b: seq<byte>) {
    forall rest: seq<bit> {:trigger DecodeSymbols(w + rest, a)} :: DecodeSymbols(w + rest, a) == DecodeSymbols(rest, b)
  }

  lemma EmitsNothing(a: seq<byte>)
    ensures Emits([], a, a)
  {
    forall rest: seq<bit>
      ensures DecodeSymbols([] + rest, a) == DecodeSymbols(rest, a)
    {
      assert [] + rest == rest;
    }
  }

  lemma EmitsSequence(w1: seq<bit>, w2: seq<bit>, a: seq<byte>, b: seq<byte>, c: seq<byte>)
    requires Emits(w1, a, b) && Emits(w2, b, c)
    ensures Emits(w1 + w2, a, c)
  {
    forall rest: seq<bit>
      ensures DecodeSymbols((w1 + w2) + rest, a) == DecodeSymbols(rest, c)
    {
      ConcatAssoc(w1, w2, rest);
      assert DecodeSymbols(w1 + (w2 + rest), a) == DecodeSymbols(w2 + rest, b);
    }
  }

  lemma LiteralEmits(v: byte, a: seq<byte>)
    ensures Emits(MsbBits(CodeOf(v), CodeLength(v)), a, a + [v])
  {
    var w := MsbBits(CodeOf(v), CodeLength(v));
    forall rest: seq<bit>
      ensures DecodeSymbols(w + rest, a) == DecodeSymbols(rest, a + [v])
    {
      DecodeEmittedSymbol(v, rest);
    }
  }

  lemma EndOfBlockEmits(a: seq<byte>, rest: seq<bit>)
    ensures DecodeSymbols(MsbBits(CodeOf(256), CodeLength(256)) + rest, a) == Some((a, rest))
  {
    DecodeEmittedSymbol(256, rest);
  }

  /** Extra bits, or none when the source skips the call. */
  lemma DecodeExtra(v: nat, e: nat, rest: seq<bit>)
    requires v < Pow2(e)
    ensures (LsbBits(v, e) + rest)[..e] == LsbBits(v, e) && (LsbBits(v, e) + rest)[e..] == rest
    ensures LsbValue((LsbBits(v, e) + rest)[..e]) == v
  {
    assert (LsbBits(v, e) + rest)[..e] == LsbBits(v, e);
    LsbValueOfBits(v, e);
  }

  lemma DecodeEmittedLength(j: nat, length: nat, rest: seq<bit>)
    requires j < 29 && LENGTHC[j] <= length < LENGTHC[j + 1]
    ensures DecodeLength(257 + j, LsbBits(length - LENGTHC[j], LENGTHEB[j]) + rest) == Some((length, rest))
  {
    LengthTable(j, length);
    DecodeExtra(length - LENGTHC[j], LENGTHEB[j], rest);
  }

  lemma DecodeEmittedDistance(j: nat, distance: nat, rest: seq<bit>)
    requires j < 30 && DISTC[j] <= distance < DISTC[j + 1]
    ensures DecodeDistance(MsbBits(j, 5) + (LsbBits(distance - DISTC[j], DISTEB[j]) + rest)) == Some((distance, rest))
  {
    DistanceTable(j, distance);
    ExtraDecodes(j, DISTC[j], DISTEB[j], distance, rest);
    DecodeDistanceCode(j, LsbBits(distance - DISTC[j], DISTEB[j]) + rest);
  }

  lemma ExtraDecodes(j: nat, base: nat, e: nat, distance: nat, rest: seq<bit>)
    requires base == DistanceBase(j) <= distance && e == DistanceExtra(j) && distance - base < Pow2(e)
    ensures DistanceFor(j, LsbBits(distance - base, e) + rest) == Some((distance, rest))
  {
    DecodeExtra(distance - base, e, rest);
  }

  lemma DecodeDistanceCode(j: nat, tail: seq<bit>)
    requires j < 30
    ensures DecodeDistance(MsbBits(j, 5) + tail) == DistanceFor(j, tail)
  {
    var bits := MsbBits(j, 5) + tail;
    PowersTable(5);
    MsbValueOfBits(j, 5);
    assert bits[..5] == MsbBits(j, 5) && bits[5..] == tail;
  }

  /** Length symbol, length extra bits, distance code, distance extra bits: one LZ77 copy. */
  function MatchBits(j: nat, length: nat, k: nat, distance: nat): seq<bit>
    requires j < 29 && LENGTHC[j] <= length && k < 30 && DISTC[k] <= distance
  {
    MsbBits(CodeOf(257 + j), CodeLength(257 + j)) + LsbBits(length - LENGTHC[j], LENGTHEB[j])
    + MsbBits(k, 5) + LsbBits(distance - DISTC[k], DISTEB[k])
  }

  lemma MatchEmits(j: nat, length: nat, k: nat, distance: nat, a: seq<byte>)
    requires j < 29 && LENGTHC[j] <= length < LENGTHC[j + 1]
    requires k < 30 && DISTC[k] <= distance < DISTC[k + 1] && 0 < distance <= |a|
    ensures Emits(MatchBits(j, length, k, distance), a, LzCopy(a, distance, length))
  {
    var w := MatchBits(j, length, k, distance);
    forall rest: seq<bit>
      ensures DecodeSymbols(w + rest, a) == DecodeSymbols(rest, LzCopy(a, distance, length))
    {
      var s, e := MsbBits(CodeOf(257 + j), CodeLength(257 + j)), LsbBits(length - LENGTHC[j], LENGTHEB[j]);
      var d, x := MsbBits(k, 5), LsbBits(distance - DISTC[k], DISTEB[k]);
      var afterLength := d + (x + rest);
      ConcatAssoc(s + e + d, x, rest);
      ConcatFour(s, e, d, x + rest);
      DecodeEmittedSymbol(257 + j, e + afterLength);
      DecodeEmittedLength(j, length, afterLength);
      DecodeEmittedDistance(k, distance, rest);
      DistanceBelowWindow(k, distance);
      DecodeSymbolsOfMatch(w + rest, a, 257 + j, e + afterLength, length, afterLength, distance, rest);
    }
  }

  /** One unfolding of the decoder on a length/distance pair. */
  lemma DecodeSymbolsOfMatch(bits: seq<bit>, a: seq<byte>, sym: nat, r1: seq<bit>, length: nat, r2: seq<bit>,
                             distance: nat, r3: seq<bit>)
    requires DecodeSymbol(bits) == Some((sym, r1)) && 257 <= sym <= 285
    requires DecodeLength(sym, r1) == Some((length, r2))
    requires DecodeDistance(r2) == Some((distance, r3))
    requires 0 < distance <= |a| && distance <= WINDOW
    ensures DecodeSymbols(bits, a) == DecodeSymbols(r3, LzCopy(a, distance, length))
  {
  }

  lemma DistanceBelowWindow(k: nat, distance: nat)
    requires k < 30 && distance < DISTC[k + 1]
    ensures distance <= WINDOW
  {
  }

  /** Copying from the start of an earlier occurrence reproduces the data. */
  lemma {:induction false} CopyReproduces(data: seq<byte>, p: nat, i: nat, length: nat)
    requires p < i && i + length <= |data|
    requires data[p..p + length] == data[i..i + length]
    ensures LzCopy(data[..i], i - p, length) == data[..i + length]
    decreases length
  {
    if length != 0 {
      assert data[p] == data[p..p + length][0] == data[i..i + length][0] == data[i];
      assert data[..i] + [data[i]] == data[..i + 1];
      assert data[p + 1..p + length] == data[p..p + length][1..] == data[i..i + length][1..] == data[i + 1..i + length];
      CopyReproduces(data, p + 1, i + 1, length - 1);
    }
  }
}
