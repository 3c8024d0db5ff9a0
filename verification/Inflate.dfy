/** The decoder side of RFC 1950 (zlib) and RFC 1951 (DEFLATE), written from the RFCs and
    independent of the compressor. Dynamic Huffman blocks (BTYPE 2) are rejected: a stream this
    decoder accepts is accepted by a full one, with the same result. */
module Inflate {
  import opened Basics
  import opened Bits
  import Adler

  /** RFC 1951 section 3.2.6: the fixed literal/length code, read most significant bit first. */
  function DecodeSymbol(bits: seq<bit>): (r: Option<(nat, seq<bit>)>)
    ensures r.Some? ==> |r.value.1| < |bits|
  {
    if |bits| < 7 then None
    else if MsbValue(bits[..7]) < 24 then Some((256 + MsbValue(bits[..7]), bits[7..]))
    else if |bits| < 8 then None
    else
      var v := MsbValue(bits[..8]);
      if 48 <= v < 192 then Some((v - 48, bits[8..]))
      else if 192 <= v < 200 then Some((280 + v - 192, bits[8..]))
      else if |bits| < 9 || MsbValue(bits[..9]) < 400 then None
      else Some((144 + MsbValue(bits[..9]) - 400, bits[9..]))
  }

  /** RFC 1951 section 3.2.5: extra bits and base length of the length codes 257..285. */
  function LengthExtra(sym: nat): nat {
    if sym < 265 || sym == 285 then 0 else (sym - 261) / 4
  }

  function LengthBase(sym: nat): nat
    requires 257 <= sym <= 285
  {
    if sym < 265 then sym - 254
    else if sym == 285 then 258
    else 3 + (4 + (sym - 261) % 4) * Pow2((sym - 261) / 4)
  }

  /** RFC 1951 section 3.2.5: extra bits and base distance of the distance codes 0..29. */
  function DistanceExtra(code: nat): nat {
    if code < 4 then 0 else (code - 2) / 2
  }

  function DistanceBase(code: nat): nat {
    if code < 4 then code + 1
    else if code % 2 == 0 then 1 + 2 * Pow2(DistanceExtra(code))
    else 1 + 3 * Pow2(DistanceExtra(code))
  }

  function DecodeLength(sym: nat, bits: seq<bit>): (r: Option<(nat, seq<bit>)>)
    requires 257 <= sym <= 285
    ensures r.Some? ==> |r.value.1| <= |bits|
  {
    var e := LengthExtra(sym);
    if |bits| < e then None else Some((LengthBase(sym) + LsbValue(bits[..e]), bits[e..]))
  }

  /** Five bits, most significant first (RFC 1951 section 3.2.6), then the extra bits. */
  function DecodeDistance(bits: seq<bit>): (r: Option<(nat, seq<bit>)>)
    ensures r.Some? ==> |r.value.1| <= |bits|
  {
    if |bits| < 5 || MsbValue(bits[..5]) >= 30 then None
    else DistanceFor(MsbValue(bits[..5]), bits[5..])
  }

  function DistanceFor(code: nat, bits: seq<bit>): (r: Option<(nat, seq<bit>)>)
    ensures r.Some? ==> |r.value.1| <= |bits|
  {
    var e := DistanceExtra(code);
    if |bits| < e then None else Some((DistanceBase(code) + LsbValue(bits[..e]), bits[e..]))
  }

  /** RFC 1951 section 3.2.3: copy byte by byte, so the source may overlap what is being written. */
  function LzCopy(out: seq<byte>, distance: nat, length: nat): seq<byte>
    requires 0 < distance <= |out|
    decreases length
  {
    if length == 0 then out else LzCopy(out + [out[|out| - distance]], distance, length - 1)
  }

  const WINDOW: nat := 32768

  /** The symbols of one block, up to and including end-of-block. */
  function DecodeSymbols(bits: seq<bit>, out: seq<byte>): (r: Option<(seq<byte>, seq<bit>)>)
    ensures r.Some? ==> |r.value.1| <= |bits|
    decreases |bits|
  {
    match DecodeSymbol(bits)
    case None => None
    case Some((sym, rest)) =>
      if sym < 256 then DecodeSymbols(rest, out + [sym])
      else if sym == 256 then Some((out, rest))
      else if sym > 285 then None
      else
        match DecodeLength(sym, rest)
        case None => None
        case Some((length, rest)) =>
          match DecodeDistance(rest)
          case None => None
          case Some((distance, rest)) =>
            if distance == 0 || distance > |out| || distance > WINDOW then None
            else DecodeSymbols(rest, LzCopy(out, distance, length))
  }

  /** n bytes, each least significant bit first. */
  function TakeBytes(bits: seq<bit>, n: nat): (r: seq<nat>)
    requires 8 * n <= |bits|
    ensures |r| == n
  {
    if n == 0 then [] else [LsbValue(bits[..8])] + TakeBytes(bits[8..], n - 1)
  }

  predicate AllBytes(s: seq<nat>) {
    forall i :: 0 <= i < |s| ==> s[i] < 256
  }

  /** RFC 1951 section 3.2.4: skip to a byte boundary, then LEN, NLEN and the content. */
  function DecodeStored(bits: seq<bit>, out: seq<byte>): (r: Option<(seq<byte>, seq<bit>)>)
    ensures r.Some? ==> |r.value.1| <= |bits|
  {
    StoredAligned(bits[|bits| % 8..], out)
  }

  function StoredAligned(bits: seq<bit>, out: seq<byte>): (r: Option<(seq<byte>, seq<bit>)>)
    ensures r.Some? ==> |r.value.1| <= |bits|
  {
    if |bits| < 32 then None else StoredContent(LsbValue(bits[..16]), LsbValue(bits[16..32]), bits[32..], out)
  }

  /** NLEN must be the one's complement of LEN; LEN bytes follow. */
  function StoredContent(len: nat, nlen: nat, bits: seq<bit>, out: seq<byte>): (r: Option<(seq<byte>, seq<bit>)>)
    ensures r.Some? ==> |r.value.1| <= |bits|
  {
    if len + nlen != 65535 || |bits| < 8 * len then None
    else
      var content := TakeBytes(bits, len);
      if !AllBytes(content) then None else Some((out + content, bits[8 * len..]))
  }

  /** RFC 1951 section 3.2.3: blocks up to the one with BFINAL set; also returns the unread bits. */
  function DecodeBlocks(bits: seq<bit>, out: seq<byte>): (r: Option<(seq<byte>, seq<bit>)>)
    ensures r.Some? ==> |r.value.1| <= |bits|
    decreases |bits|
  {
    if |bits| < 3 then None
    else
      var lo: nat, hi: nat := bits[1], bits[2];
      var btype := lo + 2 * hi;
      var block := if btype == 0 then DecodeStored(bits[3..], out)
                   else if btype == 1 then DecodeSymbols(bits[3..], out)
                   else None;
      match block
      case None => None
      case Some((out', rest)) => if bits[0] == 1 then block else DecodeBlocks(rest, out')
  }

  /** RFC 1950 section 2.2: CM 8, window at most 32K, FCHECK, no preset dictionary. */
  predicate HeaderOk(cmf: byte, flg: byte) {
    cmf % 16 == 8 && cmf / 16 <= 7 && (cmf * 256 + flg) % 31 == 0 && flg / 32 % 2 == 0
  }

  /** A whole zlib stream: header, blocks, and the Adler-32 of the data as the exact trailer. */
  function Decode(stream: seq<byte>): Option<seq<byte>> {
    if |stream| < 2 || !HeaderOk(stream[0], stream[1]) then None
    else
      Checked(stream, DecodeBlocks(BytesBits(stream[2..]), []))
  }

  /** The four bytes after the last block must be the Adler-32 checksum and nothing may follow. */
  function Checked(stream: seq<byte>, blocks: Option<(seq<byte>, seq<bit>)>): Option<seq<byte>>
    requires blocks.Some? ==> |blocks.value.1| <= 8 * |stream|
  {
    match blocks
    case None => None
    case Some((data, rest)) =>
      if stream[|stream| - |rest| / 8..] == Adler.Trailer(data) then Some(data) else None
  }
}
