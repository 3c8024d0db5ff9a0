/** stbi_zlib_compress: greedy LZ77 with one-step lazy matching over a hash of recent positions,
    one fixed-Huffman block, stored blocks when that came out larger, and the Adler-32 trailer.
    The theorem is the contract of Compress: its output decodes, by the RFCs, to its input. */
module ZlibCompress {
  import opened Basics
  import opened Bits
  import opened DeflateCodes
  import opened StoredBlocks
  import BW = BitWriter
  import opened Inflate
  import Adler

  const ZHASH: nat := 16384
  const MAX_MATCH: nat := 258

  function U32(v: nat): uint32 { v % 0x1_0000_0000 }

  /** stbiw__zhash on three bytes, in 32-bit unsigned arithmetic. */
  function ZHash(d0: byte, d1: byte, d2: byte): uint32 {
    var h0 := d0 + d1 * 256 + d2 * 65536;
    var h1 := U32(BitXor(h0, U32(h0 * 8)));
    var h2 := U32(h1 + h1 / 32);
    var h3 := U32(BitXor(h2, U32(h2 * 16)));
    var h4 := U32(h3 + h3 / 131072);
    var h5 := U32(BitXor(h4, U32(h4 * 33554432)));
    U32(h5 + h5 / 64)
  }

  function HashIndex(data: seq<byte>, i: nat): (h: nat)
    requires i + 2 < |data|
    ensures h < ZHASH
  {
    ZHash(data[i], data[i + 1], data[i + 2]) % ZHASH
  }

  /** Number of equal bytes at a and b, at most cap. */
  function MatchLength(data: seq<byte>, a: nat, b: nat, cap: nat): (n: nat)
    requires a <= b && b + cap <= |data|
    ensures n <= cap
    decreases cap
  {
    if cap == 0 || data[a] != data[b] then 0 else 1 + MatchLength(data, a + 1, b + 1, cap - 1)
  }

  lemma {:induction false} MatchAgrees(data: seq<byte>, a: nat, b: nat, cap: nat)
    requires a <= b && b + cap <= |data|
    ensures var n := MatchLength(data, a, b, cap); data[a..a + n] == data[b..b + n]
    decreases cap
  {
    if cap != 0 && data[a] == data[b] {
      MatchAgrees(data, a + 1, b + 1, cap - 1);
      var n := MatchLength(data, a + 1, b + 1, cap - 1);
      assert data[a..a + 1 + n] == [data[a]] + data[a + 1..a + 1 + n];
      assert data[b..b + 1 + n] == [data[b]] + data[b + 1..b + 1 + n];
    }
  }

  function MatchCap(data: seq<byte>, b: nat): nat
    requires b <= |data|
  {
    if |data| - b < MAX_MATCH then |data| - b else MAX_MATCH
  }

  /** One byte of the comparison. */
  lemma MatchNext(data: seq<byte>, a: nat, b: nat, cap: nat, n: nat)
    requires a <= b && b + cap <= |data| && n < cap
    ensures MatchLength(data, a + n, b + n, cap - n)
         == if data[a + n] == data[b + n] then 1 + MatchLength(data, a + (n + 1), b + (n + 1), cap - (n + 1)) else 0
  {
  }

  /** stbiw__zlib_countm with limit |data| - b. */
  method CountMatch(data: seq<byte>, a: nat, b: nat) returns (n: nat)
    requires a <= b <= |data|
    ensures n == MatchLength(data, a, b, MatchCap(data, b))
  {
    n := 0;
    ghost var cap := MatchCap(data, b);
    while n < |data| - b && n < MAX_MATCH
      invariant 0 <= n <= cap
      invariant MatchLength(data, a, b, cap) == n + MatchLength(data, a + n, b + n, cap - n)
    {
      MatchNext(data, a, b, cap, n);
      if data[a + n] != data[b + n] {
        break;
      }
      n := n + 1;
    }
  }

  ghost predicate AllBelow(positions: seq<nat>, i: nat) {
    forall k :: 0 <= k < |positions| ==> positions[k] < i
  }

  /** Entry p can be used for a match at i: it lies in the window. */
  predicate InWindow(p: nat, i: nat) { p + 32768 > i }

  ghost predicate BestMatch(data: seq<byte>, positions: seq<nat>, i: nat, best: nat, loc: Option<nat>)
    requires i <= |data| && AllBelow(positions, i)
  {
    && (loc.None? ==> best == 3)
    && (loc.Some? ==>
          && loc.value in positions && InWindow(loc.value, i)
          && 3 <= best == MatchLength(data, loc.value, i, MatchCap(data, i)))
    && (forall k :: 0 <= k < |positions| && InWindow(positions[k], i) ==>
          var n := MatchLength(data, positions[k], i, MatchCap(data, i));
          n <= best && (loc.None? ==> n < 3))
  }

  /** The first search loop: a longest match of at least 3 among the hashed positions in the window. */
  method FindBest(data: seq<byte>, positions: seq<nat>, i: nat) returns (best: nat, loc: Option<nat>)
    requires i <= |data| && AllBelow(positions, i)
    ensures BestMatch(data, positions, i, best, loc)
  {
    best, loc := 3, None;
    for j := 0 to |positions|
      invariant AllBelow(positions[..j], i) && BestMatch(data, positions[..j], i, best, loc)
    {
      assert positions[..j + 1] == positions[..j] + [positions[j]];
      if InWindow(positions[j], i) {
        var d := CountMatch(data, positions[j], i);
        if d >= best {
          best, loc := d, Some(positions[j]);
        }
      }
    }
    assert positions[..|positions|] == positions;
  }

  /** The lazy-matching loop: is there a strictly longer match one byte further on? */
  method LongerMatchNext(data: seq<byte>, positions: seq<nat>, i: nat, best: nat) returns (longer: bool)
    requires i + 1 <= |data| && AllBelow(positions, i + 1)
    ensures longer <==> exists k :: 0 <= k < |positions| && InWindow(positions[k], i + 1)
                                 && MatchLength(data, positions[k], i + 1, MatchCap(data, i + 1)) > best
  {
    for j := 0 to |positions|
      invariant forall k :: 0 <= k < j && InWindow(positions[k], i + 1) ==>
                  MatchLength(data, positions[k], i + 1, MatchCap(data, i + 1)) <= best
    {
      if InWindow(positions[j], i + 1) {
        var e := CountMatch(data, positions[j], i + 1);
        if e > best {
          return true;
        }
      }
    }
    return false;
  }

  /** Halve a full hash bucket, then append position i. */
  method Remember(table: array<seq<nat>>, h: nat, i: nat, quality: nat)
    requires h < table.Length && TableBelow(table[..], i)
    modifies table
    ensures table[h] == (if |old(table[h])| == 2 * quality then old(table[h])[quality..] else old(table[h])) + [i]
    ensures forall k :: 0 <= k < table.Length && k != h ==> table[k] == old(table[k])
    ensures TableBelow(table[..], i + 1)
  {
    assert table[..][h] == table[h];
    if |table[h]| == 2 * quality {
      table[h] := table[h][quality..];
    }
    table[h] := table[h] + [i];
  }

  /** Any literal/length symbol through the fixed Huffman code. */
  method WriteSymbol(w: BW.BitWriter, sym: nat)
    requires w.Valid() && sym < 288
    modifies w
    ensures w.Valid() && w.Stream() == old(w.Stream()) + MsbBits(CodeOf(sym), CodeLength(sym))
  {
    CodeFits(sym);
    var code, codebits: nat;
    if sym <= 143 {
      code, codebits := 0x30 + sym, 8;
    } else if sym <= 255 {
      code, codebits := 0x190 + sym - 144, 9;
    } else if sym <= 279 {
      code, codebits := sym - 256, 7;
    } else {
      code, codebits := 0xc0 + sym - 280, 8;
    }
    w.AddCode(code, codebits);
  }

  method FindLengthCode(best: nat) returns (j: nat)
    requires 3 <= best <= 258
    ensures j < 29 && LENGTHC[j] <= best < LENGTHC[j + 1]
  {
    j := 0;
    while best > LENGTHC[j + 1] - 1
      invariant 0 <= j < 29 && LENGTHC[j] <= best
      decreases 29 - j
    {
      j := j + 1;
    }
  }

  method FindDistanceCode(d: nat) returns (j: nat)
    requires 1 <= d <= 32767
    ensures j < 30 && DISTC[j] <= d < DISTC[j + 1]
  {
    j := 0;
    while d > DISTC[j + 1] - 1
      invariant 0 <= j < 30 && DISTC[j] <= d
      decreases 30 - j
    {
      j := j + 1;
    }
  }

  /** Write e extra bits, unless the code has none. */
  method WriteExtra(w: BW.BitWriter, v: nat, e: nat)
    requires w.Valid() && v < Pow2(e) && e <= 13
    modifies w
    ensures w.Valid() && w.Stream() == old(w.Stream()) + LsbBits(v, e)
  {
    if e != 0 {
      w.Add(v, e);
    }
  }

  method WriteMatch(w: BW.BitWriter, best: nat, d: nat) returns (ghost j: nat, ghost k: nat)
    requires w.Valid() && 3 <= best <= 258 && 1 <= d <= 32767
    modifies w
    ensures j < 29 && LENGTHC[j] <= best < LENGTHC[j + 1]
    ensures k < 30 && DISTC[k] <= d < DISTC[k + 1]
    ensures w.Valid() && w.Stream() == old(w.Stream()) + MatchBits(j, best, k, d)
  {
    ghost var before := w.Stream();
    var lc := FindLengthCode(best);
    WriteLength(w, lc, best);
    var dc := FindDistanceCode(d);
    WriteDistance(w, dc, d);
    AppendFour(before, MsbBits(CodeOf(257 + lc), CodeLength(257 + lc)), LsbBits(best - LENGTHC[lc], LENGTHEB[lc]),
               MsbBits(dc, 5), LsbBits(d - DISTC[dc], DISTEB[dc]));
    j, k := lc, dc;
  }

  method WriteLength(w: BW.BitWriter, lc: nat, best: nat)
    requires w.Valid() && lc < 29 && LENGTHC[lc] <= best < LENGTHC[lc + 1]
    modifies w
    ensures w.Valid()
    ensures w.Stream() == old(w.Stream()) + MsbBits(CodeOf(257 + lc), CodeLength(257 + lc))
                          + LsbBits(best - LENGTHC[lc], LENGTHEB[lc])
  {
    LengthTable(lc, best);
    WriteSymbol(w, 257 + lc);
    WriteExtra(w, best - LENGTHC[lc], LENGTHEB[lc]);
  }

  method WriteDistance(w: BW.BitWriter, dc: nat, d: nat)
    requires w.Valid() && dc < 30 && DISTC[dc] <= d < DISTC[dc + 1]
    modifies w
    ensures w.Valid() && w.Stream() == old(w.Stream()) + MsbBits(dc, 5) + LsbBits(d - DISTC[dc], DISTEB[dc])
  {
    DistanceTable(dc, d);
    WriteDistanceWith(w, dc, d - DISTC[dc], DISTEB[dc]);
  }

  method WriteDistanceWith(w: BW.BitWriter, dc: nat, v: nat, e: nat)
    requires w.Valid() && dc < 30 && v < Pow2(e) && e <= 13
    modifies w
    ensures w.Valid() && w.Stream() == old(w.Stream()) + MsbBits(dc, 5) + LsbBits(v, e)
  {
    WriteDistanceCode(w, dc);
    WriteExtra(w, v, e);
  }

  method WriteDistanceCode(w: BW.BitWriter, dc: nat)
    requires w.Valid() && dc < 30
    modifies w
    ensures w.Valid() && w.Stream() == old(w.Stream()) + MsbBits(dc, 5)
  {
    PowersTable(5);
    w.AddCode(dc, 5);
  }

  lemma AppendFour<T>(before: seq<T>, a: seq<T>, b: seq<T>, c: seq<T>, d: seq<T>)
    ensures before + a + b + c + d == before + (a + b + c + d)
  {
  }

  method WriteLiteral(w: BW.BitWriter, data: seq<byte>, i: nat) returns (ghost bits: seq<bit>)
    requires w.Valid() && i < |data|
    modifies w
    ensures w.Valid() && w.Stream() == old(w.Stream()) + bits && Emits(bits, data[..i], data[..i + 1])
  {
    WriteSymbol(w, data[i]);
    bits := MsbBits(CodeOf(data[i]), CodeLength(data[i]));
    LiteralEmits(data[i], data[..i]);
    assert data[..i] + [data[i]] == data[..i + 1];
  }

  /** Copying best bytes from loc gives the best bytes at i, and both are in the encoder's range. */
  ghost predicate Copies(data: seq<byte>, loc: nat, i: nat, best: nat) {
    && loc < i && i - loc <= 32767 && 3 <= best <= MAX_MATCH && i + best <= |data|
    && LzCopy(data[..i], i - loc, best) == data[..i + best]
  }

  /** Write the copy of best bytes from loc. */
  method WriteCopy(w: BW.BitWriter, data: seq<byte>, loc: nat, i: nat, best: nat) returns (ghost bits: seq<bit>)
    requires w.Valid() && Copies(data, loc, i, best)
    modifies w
    ensures w.Valid() && w.Stream() == old(w.Stream()) + bits && Emits(bits, data[..i], data[..i + best])
  {
    ghost var j, k := WriteMatch(w, best, i - loc);
    bits := MatchBits(j, best, k, i - loc);
    MatchEmits(j, best, k, i - loc, data[..i]);
  }

  lemma MatchReproduces(data: seq<byte>, loc: nat, i: nat, best: nat)
    requires loc < i <= |data| && best == MatchLength(data, loc, i, MatchCap(data, i))
    ensures LzCopy(data[..i], i - loc, best) == data[..i + best]
  {
    MatchAgrees(data, loc, i, MatchCap(data, i));
    CopyReproduces(data, loc, i, best);
  }

  ghost predicate TableBelow(table: seq<seq<nat>>, i: nat) {
    forall k :: 0 <= k < |table| ==> AllBelow(table[k], i)
  }

  /** The match to use at i, if any: the longest in i's chain, unless i + 1 has a longer one. */
  method ChooseMatch(table: array<seq<nat>>, data: seq<byte>, i: nat, quality: nat)
    returns (best: nat, loc: Option<nat>)
    requires table.Length == ZHASH && i + 3 < |data| && TableBelow(table[..], i)
    modifies table
    ensures loc.Some? ==> Copies(data, loc.value, i, best)
    ensures TableBelow(table[..], i + 1)
  {
    var h := HashIndex(data, i);
    assert table[..][h] == table[h];
    best, loc := FindBest(data, table[h], i);
    Remember(table, h, i, quality);
    if loc.Some? {
      MatchReproduces(data, loc.value, i, best);
      h := HashIndex(data, i + 1);
      var longer := LongerMatchNext(data, table[h], i, best);
      if longer {
        loc := None;
      }
    }
  }

  lemma TableBelowLater(table: seq<seq<nat>>, i: nat, j: nat)
    requires TableBelow(table, i) && i <= j
    ensures TableBelow(table, j)
  {
  }

  /** Write the match, or the byte at i. */
  method WriteNext(w: BW.BitWriter, data: seq<byte>, i: nat, best: nat, loc: Option<nat>)
    returns (next: nat, ghost bits: seq<bit>)
    requires w.Valid() && i < |data|
    requires loc.Some? ==> Copies(data, loc.value, i, best)
    modifies w
    ensures w.Valid() && w.Stream() == old(w.Stream()) + bits
    ensures i < next <= |data| && Emits(bits, data[..i], data[..next])
  {
    if loc.Some? {
      bits := WriteCopy(w, data, loc.value, i, best);
      next := i + best;
    } else {
      bits := WriteLiteral(w, data, i);
      next := i + 1;
    }
  }

  /** One iteration of the main loop. */
  method EncodeNext(w: BW.BitWriter, table: array<seq<nat>>, data: seq<byte>, i: nat, quality: nat)
    returns (next: nat, ghost bits: seq<bit>)
    requires w.Valid() && table.Length == ZHASH && i + 3 < |data| && TableBelow(table[..], i)
    modifies w, table
    ensures w.Valid() && w.Stream() == old(w.Stream()) + bits
    ensures i < next <= |data| && Emits(bits, data[..i], data[..next])
    ensures TableBelow(table[..], next)
  {
    var best, loc := ChooseMatch(table, data, i, quality);
    next, bits := WriteNext(w, data, i, best, loc);
    TableBelowLater(table[..], i + 1, next);
  }

  /** A ghost record of one more piece of the stream. */
  lemma Extend(start: seq<bit>, body: seq<bit>, stream: seq<bit>, piece: seq<bit>, data: seq<byte>, i: nat, j: nat)
    requires i <= j <= |data| && Encoded(start, body, stream, data, i) && Emits(piece, data[..i], data[..j])
    ensures Encoded(start, body + piece, stream + piece, data, j)
  {
    assert Inspect(0);
    ConcatAssoc(start, body, piece);
    EmitsSequence(body, piece, [], data[..i], data[..j]);
  }

  /** The main loop. */
  method EncodeMatches(w: BW.BitWriter, data: seq<byte>, quality: nat) returns (i: nat, ghost body: seq<bit>)
    requires w.Valid()
    modifies w
    ensures i <= |data| && w.Valid() && Encoded(old(w.Stream()), body, w.Stream(), data, i)
  {
    var table := new seq<nat>[ZHASH](_ => []);
    i, body := 0, [];
    NoneEncoded(w.Stream(), data);
    while i + 3 < |data|
      invariant 0 <= i <= |data| && w.Valid() && Encoded(old(w.Stream()), body, w.Stream(), data, i)
      invariant TableBelow(table[..], i)
    {
      ghost var from, before := i, w.Stream();
      ghost var piece;
      i, piece := EncodeNext(w, table, data, i, quality);
      Extend(old(w.Stream()), body, before, piece, data, from, i);
      body := body + piece;
    }
  }

  /** All data symbols of the block: the main loop, then the last bytes as literals. */
  method EncodeSymbols(w: BW.BitWriter, data: seq<byte>, quality: nat) returns (ghost body: seq<bit>)
    requires w.Valid()
    modifies w
    ensures w.Valid() && w.Stream() == old(w.Stream()) + body && Emits(body, [], data)
  {
    var i;
    i, body := EncodeMatches(w, data, quality);
    while i < |data|
      invariant 0 <= i <= |data| && w.Valid() && Encoded(old(w.Stream()), body, w.Stream(), data, i)
    {
      body := AddLiteral(w, data, i, old(w.Stream()), body);
      i := i + 1;
    }
    AllEncoded(old(w.Stream()), body, w.Stream(), data);
  }

  /** The stream has grown by body, which stands for the first i bytes of data. */
  ghost predicate Encoded(start: seq<bit>, body: seq<bit>, stream: seq<bit>, data: seq<byte>, i: nat)
    requires i <= |data|
  {
    forall k: nat :: Inspect(k) ==> stream == start + body && Emits(body, [], data[..i])
  }

  lemma NoneEncoded(stream: seq<bit>, data: seq<byte>)
    ensures Encoded(stream, [], stream, data, 0)
  {
    EmitsNothing([]);
  }

  lemma AllEncoded(start: seq<bit>, body: seq<bit>, stream: seq<bit>, data: seq<byte>)
    requires Encoded(start, body, stream, data, |data|)
    ensures stream == start + body && Emits(body, [], data)
  {
    assert Inspect(0);
    assert data[..|data|] == data;
  }

  method AddLiteral(w: BW.BitWriter, data: seq<byte>, i: nat, ghost start: seq<bit>, ghost body: seq<bit>)
    returns (ghost more: seq<bit>)
    requires w.Valid() && i < |data| && Encoded(start, body, w.Stream(), data, i)
    modifies w
    ensures w.Valid() && Encoded(start, more, w.Stream(), data, i + 1)
  {
    ghost var before := w.Stream();
    ghost var piece := WriteLiteral(w, data, i);
    Extend(start, body, before, piece, data, i, i + 1);
    more := body + piece;
  }

  /** Zero bits up to the byte boundary. */
  method Pad(w: BW.BitWriter) returns (ghost pad: seq<bit>)
    requires w.Valid()
    modifies w
    ensures w.Valid() && w.bitcount == 0 && |pad| < 8 && w.Stream() == old(w.Stream()) + pad
  {
    pad := [];
    ghost var c := w.bitcount;
    while w.bitcount != 0
      invariant w.Valid() && w.Stream() == old(w.Stream()) + pad
      invariant Padding(c, |pad|, w.bitcount)
      decreases 8 - |pad|
    {
      PaddingNext(c, |pad|, w.bitcount);
      pad := PadBit(w, old(w.Stream()), pad);
    }
  }

  /** The bit count after n zero bits behind c, which stop at the byte boundary. */
  predicate Padding(c: nat, n: nat, bitcount: nat) {
    c < 8 && bitcount == (c + n) % 8 && c + n <= 8 && (c == 0 ==> n == 0)
  }

  lemma PaddingNext(c: nat, n: nat, bitcount: nat)
    requires Padding(c, n, bitcount) && bitcount != 0
    ensures Padding(c, n + 1, (bitcount + 1) % 8) && n < 7
  {
  }

  method PadBit(w: BW.BitWriter, ghost start: seq<bit>, ghost pad: seq<bit>) returns (ghost more: seq<bit>)
    requires w.Valid() && w.Stream() == start + pad
    modifies w
    ensures w.Valid() && w.Stream() == start + more && |more| == |pad| + 1
    ensures w.bitcount == (old(w.bitcount) + 1) % 8
  {
    assert Pow2(1) == 2;
    ConcatAssoc(start, pad, LsbBits(0, 1));
    w.Add(0, 1);
    more := pad + LsbBits(0, 1);
  }

  const HEADER: seq<byte> := [0x78, 0x5e]

  /** The block's three header bits: BFINAL set, BTYPE 1. */
  function BlockBits(): seq<bit> { LsbBits(1, 1) + LsbBits(1, 2) }

  function EndOfBlock(): seq<bit> { MsbBits(CodeOf(256), CodeLength(256)) }

  /** Everything before the trailer, written as one fixed-Huffman block. */
  method WriteFixed(w: BW.BitWriter, data: seq<byte>, quality: nat) returns (ghost body: seq<bit>, ghost pad: seq<bit>)
    requires w.Valid() && w.out == [] && w.bitcount == 0
    modifies w
    ensures w.Valid() && w.bitcount == 0 && |pad| < 8 && Emits(body, [], data)
    ensures w.Stream() == BytesBits(HEADER) + BlockBits() + body + EndOfBlock() + pad
  {
    w.Push(0x78);
    w.Push(0x5e);
    assert w.out == HEADER;
    WriteBlockBits(w);
    body := EncodeSymbols(w, data, quality);
    WriteSymbol(w, 256);
    pad := Pad(w);
  }

  method WriteBlockBits(w: BW.BitWriter)
    requires w.Valid() && w.out == HEADER && w.bitcount == 0
    modifies w
    ensures w.Valid() && w.Stream() == BytesBits(HEADER) + BlockBits()
  {
    assert w.Stream() == BytesBits(HEADER);
    assert Pow2(1) == 2 && Pow2(2) == 4;
    ConcatAssoc(BytesBits(HEADER), LsbBits(1, 1), LsbBits(1, 2));
    w.Add(1, 1);
    w.Add(1, 2);
  }

  /** A byte string that starts with the bits of h starts with h. */
  lemma {:induction false} StartsWith(out: seq<byte>, h: seq<byte>, more: seq<bit>)
    requires BytesBits(out) == BytesBits(h) + more
    ensures |out| >= |h| && out[..|h|] == h && BytesBits(out[|h|..]) == more
  {
    if h == [] {
      assert BytesBits(h) + more == more;
    } else {
      var a, b := LsbBits(out[0], BYTE_BITS), LsbBits(h[0], BYTE_BITS);
      var c, d := BytesBits(out[1..]), BytesBits(h[1..]) + more;
      assert a + c == b + d by {
        ConcatAssoc(b, BytesBits(h[1..]), more);
      }
      SplitEight(a, b, c, d);
      ByteValue(out[0]);
      ByteValue(h[0]);
      StartsWith(out[1..], h[1..], more);
      assert out[..|h|] == [out[0]] + out[1..][..|h| - 1];
    }
  }

  lemma SplitEight<T>(a: seq<T>, b: seq<T>, c: seq<T>, d: seq<T>)
    requires |a| == |b| && a + c == b + d
    ensures a == b && c == d
  {
    assert (a + c)[..|a|] == a && (b + d)[..|a|] == b;
    assert (a + c)[|a|..] == c && (b + d)[|a|..] == d;
  }

  lemma FixedBlockUnfolds(bits: seq<bit>)
    ensures DecodeBlocks(BlockBits() + bits, []) == DecodeSymbols(bits, [])
  {
    assert BlockBits() == [1, 1, 0];
    assert (BlockBits() + bits)[3..] == bits;
    var block := DecodeSymbols(bits, []);
    match block
    case None =>
    case Some((out, rest)) =>
  }

  lemma FixedBlockDecodes(body: seq<bit>, pad: seq<bit>, rest: seq<bit>, data: seq<byte>)
    requires Emits(body, [], data)
    ensures DecodeBlocks(BlockBits() + body + EndOfBlock() + pad + rest, []) == Some((data, pad + rest))
  {
    ConcatFour(body, EndOfBlock(), pad, rest);
    var bits := body + (EndOfBlock() + (pad + rest));
    ConcatBlock(BlockBits(), body, EndOfBlock(), pad, rest);
    FixedBlockUnfolds(bits);
    assert DecodeSymbols(bits, []) == DecodeSymbols(EndOfBlock() + (pad + rest), data);
    EndOfBlockEmits(data, pad + rest);
  }

  lemma ConcatBlock<T>(a: seq<T>, b: seq<T>, c: seq<T>, d: seq<T>, e: seq<T>)
    ensures a + b + c + d + e == a + (b + (c + (d + e)))
  {
  }

  /** Header, blocks that decode to data with under a byte of padding left, trailer. */
  lemma StreamDecodes(out: seq<byte>, data: seq<byte>, pad: seq<bit>)
    requires |out| >= 2 && out[..2] == HEADER && |pad| < 8
    requires var t := BytesBits(Adler.Trailer(data));
             DecodeBlocks(BytesBits(out[2..]) + t, []) == Some((data, pad + t))
    ensures Decode(out + Adler.Trailer(data)) == Some(data)
  {
    var trailer := Adler.Trailer(data);
    var stream := out + trailer;
    TrailerSplit(out, trailer);
    BytesBitsConcat(out[2..], trailer);
    ChecksOut(stream, data, pad + BytesBits(trailer));
    DecodeUnfolds(stream, data, pad + BytesBits(trailer));
  }

  lemma TrailerSplit(out: seq<byte>, trailer: seq<byte>)
    requires |out| >= 2 && out[..2] == HEADER && |trailer| == 4
    ensures var stream := out + trailer;
            && stream[0] == 0x78 && stream[1] == 0x5e && stream[2..] == out[2..] + trailer
            && stream[|stream| - 4..] == trailer
  {
    assert out[0] == out[..2][0] && out[1] == out[..2][1];
  }

  lemma DecodeUnfolds(stream: seq<byte>, data: seq<byte>, rest: seq<bit>)
    requires |stream| >= 6 && stream[0] == 0x78 && stream[1] == 0x5e && |rest| <= 8 * |stream|
    requires DecodeBlocks(BytesBits(stream[2..]), []) == Some((data, rest))
    requires Checked(stream, Some((data, rest))) == Some(data)
    ensures Decode(stream) == Some(data)
  {
    DecodeIsChecked(stream, BytesBits(stream[2..]));
  }

  lemma DecodeIsChecked(stream: seq<byte>, bits: seq<bit>)
    requires |stream| >= 2 && stream[0] == 0x78 && stream[1] == 0x5e && bits == BytesBits(stream[2..])
    ensures Decode(stream) == Checked(stream, DecodeBlocks(bits, []))
  {
    assert HeaderOk(0x78, 0x5e);
  }

  lemma ChecksOut(stream: seq<byte>, data: seq<byte>, rest: seq<bit>)
    requires |stream| >= 6 && 32 <= |rest| < 40 && stream[|stream| - 4..] == Adler.Trailer(data)
    ensures Checked(stream, Some((data, rest))) == Some(data)
  {
    assert |rest| / 8 == 4;
  }

  /** The size test: was the Huffman block larger than stored blocks would be? */
  function StoredLimit(n: nat): nat { n + 2 + BlockCount(n) * 5 }

  /** One stored block: five pushed bytes and a raw copy. */
  method WriteStoredBlock(w: BW.BitWriter, data: seq<byte>, j: nat) returns (next: nat)
    requires j < |data| && |w.out| + |Stored(data[j..])| < w.cap
    modifies w`out, w`cap
    ensures j < next <= |data| && w.cap == old(w.cap)
    ensures w.out + Stored(data[next..]) == old(w.out) + Stored(data[j..])
  {
    var blocklen := |data| - j;
    if blocklen > 32767 {
      blocklen := 32767;
    }
    next := j + blocklen;
    assert data[j..][blocklen..] == data[next..] && data[j..][..blocklen] == data[j..next];
    ghost var h := BlockHeader(|data| - j == blocklen, blocklen);
    assert Stored(data[j..]) == h + data[j..next] + Stored(data[next..]);
    WriteHeader(w, |data| - j == blocklen, blocklen);
    w.CopyRaw(data[j..next]);
  }

  method WriteHeader(w: BW.BitWriter, final: bool, blocklen: nat)
    requires |w.out| + 5 < w.cap
    modifies w`out, w`cap
    ensures w.out == old(w.out) + BlockHeader(final, blocklen) && w.cap == old(w.cap)
  {
    w.Push(if final then 1 else 0);
    w.Push(UChar(blocklen));
    w.Push(UChar(blocklen / 256));
    w.Push(UChar(Complement(blocklen)));
    w.Push(UChar(Complement(blocklen) / 256));
  }

  /** The fallback loop. It fits in the buffer the larger Huffman output has already filled, so the
      capacity does not change and every raw copy is inside it. */
  method WriteStored(w: BW.BitWriter, data: seq<byte>)
    requires |w.out| <= w.cap && |w.out| > StoredLimit(|data|) && w.out[..2] == HEADER
    modifies w`out, w`cap
    ensures w.out == HEADER + Stored(data) && w.cap == old(w.cap)
  {
    StoredSize(data);
    w.out := w.out[..2];
    var j := 0;
    assert data[0..] == data;
    while j < |data|
      invariant 0 <= j <= |data| && w.cap == old(w.cap)
      invariant w.out + Stored(data[j..]) == HEADER + Stored(data)
    {
      assert |w.out + Stored(data[j..])| == |HEADER + Stored(data)|;
      j := WriteStoredBlock(w, data, j);
    }
    assert data[j..] == [];
  }

  lemma StoredStreamDecodes(data: seq<byte>)
    requires data != []
    ensures Decode(HEADER + Stored(data) + Adler.Trailer(data)) == Some(data)
  {
    var out, t := HEADER + Stored(data), BytesBits(Adler.Trailer(data));
    StoredDecodes(data, t, []);
    assert out[2..] == Stored(data) && out[..2] == HEADER && [] + data == data && [] + t == t;
    StreamDecodes(out, data, []);
  }

  lemma FixedStreamDecodes(out: seq<byte>, data: seq<byte>, body: seq<bit>, pad: seq<bit>)
    requires BytesBits(out) == BytesBits(HEADER) + BlockBits() + body + EndOfBlock() + pad
    requires |pad| < 8 && Emits(body, [], data)
    ensures |out| >= 4 && out[..2] == HEADER && Decode(out + Adler.Trailer(data)) == Some(data)
  {
    FixedStreamHeader(out, body, pad);
    FixedBlockDecodes(body, pad, BytesBits(Adler.Trailer(data)), data);
    StreamDecodes(out, data, pad);
  }

  lemma FixedStreamHeader(out: seq<byte>, body: seq<bit>, pad: seq<bit>)
    requires BytesBits(out) == BytesBits(HEADER) + BlockBits() + body + EndOfBlock() + pad
    ensures |out| >= 4 && out[..2] == HEADER && BytesBits(out[2..]) == BlockBits() + body + EndOfBlock() + pad
  {
    AppendFour(BytesBits(HEADER), BlockBits(), body, EndOfBlock(), pad);
    StartsWith(out, HEADER, BlockBits() + body + EndOfBlock() + pad);
    assert |BytesBits(out)| >= 26;
  }

  /** With nothing to store the fallback writes no block, so no decoder can accept the stream. */
  lemma EmptyStreamRejected()
    ensures Decode([0x78, 0x5e, 0, 0, 0, 1]) == None
  {
    assert [0x78, 0x5e, 0, 0, 0, 1][2..] == [0, 0, 0, 1];
    assert [0] + [0, 0, 1] == [0, 0, 0, 1];
    BytesBitsConcat([0], [0, 0, 1]);
    OneByte(0);
    FirstByte(0);
    TooShort(LsbBits(0, BYTE_BITS), BytesBits([0, 0, 1]));
  }

  lemma TooShort(first: seq<bit>, more: seq<bit>)
    requires |first| == 8 && first[1] == 0 && first[2] == 0 && |more| == 24
    ensures DecodeBlocks(first + more, []) == None
  {
    StoredBlockUnfolds(first, more, []);
  }

  lemma EmptyOutput(data: seq<byte>)
    requires data == []
    ensures HEADER + Stored(data) + Adler.Trailer(data) == [0x78, 0x5e, 0, 0, 0, 1]
  {
  }

  /** stbi_zlib_compress. Its output is a valid zlib stream for the input exactly when the input is
      not empty, and it is never more than the stored size plus header and trailer. */
  method Compress(data: seq<byte>, quality: nat) returns (out: seq<byte>)
    ensures Decode(out) == Some(data) <==> data != []
    ensures data == [] ==> out == [0x78, 0x5e, 0, 0, 0, 1]
    ensures |out| <= |data| + 6 + 5 * ((|data| + 32766) / 32767)
  {
    var q := if quality < 5 then 5 else quality;
    var w := new BW.BitWriter();
    ghost var body, pad := WriteFixed(w, data, q);
    assert w.Stream() == BytesBits(w.out);
    FixedStreamDecodes(w.out, data, body, pad);
    if |w.out| > StoredLimit(|data|) {
      WriteStored(w, data);
      StoredSize(data);
      if data == [] {
        EmptyStreamRejected();
        EmptyOutput(data);
      } else {
        StoredStreamDecodes(data);
      }
    }
    var trailer := Adler.Compute(data);
    out := w.out + trailer;
  }
}
