/** The compressor's fallback format, RFC 1951 section 3.2.4: uncompressed blocks of at most 32767
    bytes, and the proof that they decode to the data they hold. */
module StoredBlocks {
  import opened Basics
  import opened Bits
  import opened Inflate

  const MAX_STORED: nat := 32767

  /** STBIW_UCHAR of a C int. */
  function UChar(v: int): byte { v % 256 }

  /** C's ~ on an int. */
  function Complement(v: int): int { -v - 1 }

  /** The five header bytes as the source computes them: BFINAL, LEN, and ~LEN on a C int. */
  function BlockHeader(final: bool, len: nat): (r: seq<byte>)
    ensures |r| == 5
  {
    var complement := Complement(len);
    [if final then 1 else 0, UChar(len), UChar(len / 256), UChar(complement), UChar(complement / 256)]
  }

  function BlockLength(n: nat): nat { if n > MAX_STORED then MAX_STORED else n }

  /** The bytes the fallback loop appends for the data still to be stored. */
  function Stored(data: seq<byte>): seq<byte>
    decreases |data|
  {
    if data == [] then []
    else
      var len := BlockLength(|data|);
      BlockHeader(len == |data|, len) + data[..len] + Stored(data[len..])
  }

  /** Number of stored blocks, as the source's size test computes it. */
  function BlockCount(n: nat): nat { (n + 32766) / 32767 }

  lemma {:induction false} StoredSize(data: seq<byte>)
    ensures |Stored(data)| == |data| + 5 * BlockCount(|data|)
    decreases |data|
  {
    if data != [] {
      StoredSize(data[BlockLength(|data|)..]);
    }
  }

  lemma {:induction false} LsbValueConcat(a: seq<bit>, b: seq<bit>)
    ensures LsbValue(a + b) == LsbValue(a) + Pow2(|a|) * LsbValue(b)
  {
    if a == [] {
      assert a + b == b;
    } else {
      LsbValueConcat(a[1..], b);
      assert (a + b)[1..] == a[1..] + b;
      DoubleProduct(Pow2(|a| - 1), LsbValue(b));
    }
  }

  lemma DoubleProduct(x: int, y: int)
    ensures 2 * (x * y) == (2 * x) * y
  {
  }

  lemma ByteValue(v: byte)
    ensures LsbValue(LsbBits(v, BYTE_BITS)) == v
  {
    assert Pow2(8) == 256;
    LsbValueOfBits(v, BYTE_BITS);
  }

  /** Two bytes read as a 16-bit little-endian number. */
  lemma PairValue(lo: byte, hi: byte)
    ensures LsbValue(LsbBits(lo, BYTE_BITS) + LsbBits(hi, BYTE_BITS)) == lo + 256 * hi
  {
    assert Pow2(8) == 256;
    LsbValueConcat(LsbBits(lo, BYTE_BITS), LsbBits(hi, BYTE_BITS));
    ByteValue(lo);
    ByteValue(hi);
  }

  lemma {:induction false} TakeWritten(content: seq<byte>, rest: seq<bit>)
    ensures TakeBytes(BytesBits(content) + rest, |content|) == content
  {
    if content != [] {
      var first, more := LsbBits(content[0], BYTE_BITS), BytesBits(content[1..]) + rest;
      assert BytesBits(content) + rest == first + more by {
        ConcatAssoc(first, BytesBits(content[1..]), rest);
      }
      assert (first + more)[..8] == first && (first + more)[8..] == more;
      ByteValue(content[0]);
      TakeWritten(content[1..], rest);
    }
  }

  /** LEN and its complement check out. */
  lemma HeaderLengths(len: nat)
    requires len <= MAX_STORED
    ensures UChar(len) + 256 * UChar(len / 256) == len
    ensures UChar(Complement(len)) + 256 * UChar(Complement(len) / 256) == 65535 - len
  {
    var hi: int, lo: int := len / 256, len % 256;
    assert Complement(len) == (-hi - 1) * 256 + (255 - lo);
    DivModUnique(Complement(len), 256, -hi - 1, 255 - lo);
    DivModUnique(-hi - 1, 256, -1, 255 - hi);
  }

  /** A byte-aligned stored block body: four length bytes and the content. */
  lemma BodyDecodes(a: byte, b: byte, c: byte, d: byte, content: seq<byte>, skip: seq<bit>, rest: seq<bit>,
                    out: seq<byte>)
    requires a + 256 * b == |content| <= MAX_STORED && c + 256 * d == 65535 - |content|
    requires |skip| == 5 && |rest| % 8 == 0
    ensures DecodeStored(skip + (BytesBits([a, b, c, d]) + (BytesBits(content) + rest)), out)
         == Some((out + content, rest))
  {
    var len, nlen := LsbBits(a, BYTE_BITS) + LsbBits(b, BYTE_BITS), LsbBits(c, BYTE_BITS) + LsbBits(d, BYTE_BITS);
    FourBytes(a, b, c, d);
    PairValue(a, b);
    PairValue(c, d);
    BodyBits(len, nlen, content, skip, rest, out);
  }

  lemma BodyBits(len: seq<bit>, nlen: seq<bit>, content: seq<byte>, skip: seq<bit>, rest: seq<bit>, out: seq<byte>)
    requires |len| == 16 && |nlen| == 16 && |skip| == 5 && |rest| % 8 == 0
    requires LsbValue(len) == |content| <= MAX_STORED && LsbValue(nlen) == 65535 - |content|
    ensures DecodeStored(skip + ((len + nlen) + (BytesBits(content) + rest)), out) == Some((out + content, rest))
  {
    ContentDecodes(content, rest, out);
    AlignedUnfolds(len, nlen, BytesBits(content) + rest, out);
    AlignedLength(len, nlen, content, rest);
    SkipUnfolds(skip, (len + nlen) + (BytesBits(content) + rest), out);
  }

  lemma AlignedLength(len: seq<bit>, nlen: seq<bit>, content: seq<byte>, rest: seq<bit>)
    requires |len| == 16 && |nlen| == 16 && |rest| % 8 == 0
    ensures |(len + nlen) + (BytesBits(content) + rest)| % 8 == 0
  {
  }

  lemma ContentDecodes(content: seq<byte>, rest: seq<bit>, out: seq<byte>)
    requires |content| <= MAX_STORED
    ensures StoredContent(|content|, 65535 - |content|, BytesBits(content) + rest, out) == Some((out + content, rest))
  {
    TakeWritten(content, rest);
    assert (BytesBits(content) + rest)[8 * |content|..] == rest;
  }

  lemma AlignedUnfolds(len: seq<bit>, nlen: seq<bit>, tail: seq<bit>, out: seq<byte>)
    requires |len| == 16 && |nlen| == 16
    ensures StoredAligned((len + nlen) + tail, out) == StoredContent(LsbValue(len), LsbValue(nlen), tail, out)
  {
    var bits := (len + nlen) + tail;
    assert bits[..16] == len && bits[16..32] == nlen && bits[32..] == tail;
  }

  lemma SkipUnfolds(skip: seq<bit>, aligned: seq<bit>, out: seq<byte>)
    requires |skip| == 5 && |aligned| % 8 == 0
    ensures DecodeStored(skip + aligned, out) == StoredAligned(aligned, out)
  {
    FiveOver(|aligned|);
    assert |skip + aligned| % 8 == 5;
    assert (skip + aligned)[5..] == aligned;
  }

  lemma FiveOver(n: nat)
    requires n % 8 == 0
    ensures (5 + n) % 8 == 5
  {
  }

  lemma FourBytes(a: byte, b: byte, c: byte, d: byte)
    ensures BytesBits([a, b, c, d])
         == LsbBits(a, BYTE_BITS) + LsbBits(b, BYTE_BITS) + (LsbBits(c, BYTE_BITS) + LsbBits(d, BYTE_BITS))
  {
    TwoBytes(a, b);
    TwoBytes(c, d);
    BytesBitsConcat([a, b], [c, d]);
    assert [a, b] + [c, d] == [a, b, c, d];
  }

  lemma TwoBytes(a: byte, b: byte)
    ensures BytesBits([a, b]) == LsbBits(a, BYTE_BITS) + LsbBits(b, BYTE_BITS)
  {
    BytesBitsConcat([a], [b]);
    OneByte(a);
    OneByte(b);
    assert [a] + [b] == [a, b];
  }

  lemma OneByte(a: byte)
    ensures BytesBits([a]) == LsbBits(a, BYTE_BITS)
  {
    assert BytesBits([a]) == LsbBits(a, BYTE_BITS) + BytesBits([]);
  }

  lemma BlockDecodes(final: bool, content: seq<byte>, rest: seq<bit>, out: seq<byte>)
    requires |content| <= MAX_STORED && |rest| % 8 == 0
    ensures DecodeBlocks(BytesBits(BlockHeader(final, |content|) + content) + rest, out)
         == if final then Some((out + content, rest)) else DecodeBlocks(rest, out + content)
  {
    var h := BlockHeader(final, |content|);
    var first, lengths := LsbBits(h[0], BYTE_BITS), BytesBits([h[1], h[2], h[3], h[4]]);
    var tail := BytesBits(content) + rest;
    BytesBitsConcat(h, content);
    BytesBitsConcat([h[0]], [h[1], h[2], h[3], h[4]]);
    OneByte(h[0]);
    assert [h[0]] + [h[1], h[2], h[3], h[4]] == h;
    ConcatFour(first, lengths, BytesBits(content), rest);
    FirstByte(h[0]);
    HeaderLengths(|content|);
    BodyDecodes(h[1], h[2], h[3], h[4], content, first[3..], rest, out);
    StoredBlockUnfolds(first, lengths + tail, out);
  }

  /** One unfolding of DecodeBlocks on a stored block. */
  lemma StoredBlockUnfolds(first: seq<bit>, more: seq<bit>, out: seq<byte>)
    requires |first| == 8 && first[1] == 0 && first[2] == 0
    ensures var block := DecodeStored(first[3..] + more, out);
            DecodeBlocks(first + more, out) == if block.None? then None
                                               else if first[0] == 1 then block
                                               else DecodeBlocks(block.value.1, block.value.0)
  {
    assert (first + more)[3..] == first[3..] + more;
  }

  /** The block's first byte carries BFINAL and two zero BTYPE bits. */
  lemma FirstByte(v: byte)
    requires v < 2
    ensures LsbBits(v, BYTE_BITS)[0] == v && LsbBits(v, BYTE_BITS)[1] == 0 && LsbBits(v, BYTE_BITS)[2] == 0
  {
  }

  /** The whole fallback decodes to the data and leaves the trailer unread. */
  lemma {:induction false} StoredDecodes(data: seq<byte>, rest: seq<bit>, out: seq<byte>)
    requires data != [] && |rest| % 8 == 0
    ensures DecodeBlocks(BytesBits(Stored(data)) + rest, out) == Some((out + data, rest))
    decreases |data|
  {
    var len := BlockLength(|data|);
    Rejoined(data, len, out);
    if len == |data| {
      LastBlock(data, rest, out);
    } else {
      StoredDecodes(data[len..], rest, out + data[..len]);
      BlockThen(false, data[..len], Stored(data[len..]), rest, out);
    }
  }

  lemma LastBlock(data: seq<byte>, rest: seq<bit>, out: seq<byte>)
    requires data != [] && BlockLength(|data|) == |data| && |rest| % 8 == 0
    ensures DecodeBlocks(BytesBits(Stored(data)) + rest, out) == Some((out + data, rest))
  {
    assert data[..|data|] == data && Stored(data[|data|..]) == [];
    BlockThen(true, data, [], rest, out);
    assert BytesBits([]) + rest == rest;
  }

  lemma Rejoined(data: seq<byte>, len: nat, out: seq<byte>)
    requires len <= |data|
    ensures (out + data[..len]) + data[len..] == out + data
  {
  }

  lemma BlockThen(final: bool, content: seq<byte>, more: seq<byte>, rest: seq<bit>, out: seq<byte>)
    requires |content| <= MAX_STORED && |rest| % 8 == 0
    ensures DecodeBlocks(BytesBits(BlockHeader(final, |content|) + content + more) + rest, out)
         == if final then Some((out + content, BytesBits(more) + rest))
            else DecodeBlocks(BytesBits(more) + rest, out + content)
  {
    TailAligned(more, rest);
    BlockInFront(BlockHeader(final, |content|) + content, more, rest);
    BlockDecodes(final, content, BytesBits(more) + rest, out);
  }

  lemma TailAligned(more: seq<byte>, rest: seq<bit>)
    requires |rest| % 8 == 0
    ensures |BytesBits(more) + rest| % 8 == 0
  {
    EightTimes(|more|, |rest| / 8);
  }

  lemma EightTimes(a: nat, b: nat)
    ensures (8 * a + 8 * b) % 8 == 0
  {
    assert 8 * a + 8 * b == 8 * (a + b);
  }

  lemma BlockInFront(block: seq<byte>, more: seq<byte>, rest: seq<bit>)
    ensures BytesBits(block + more) + rest == BytesBits(block) + (BytesBits(more) + rest)
  {
    BytesBitsConcat(block, more);
    ConcatAssoc(BytesBits(block), BytesBits(more), rest);
  }
}
