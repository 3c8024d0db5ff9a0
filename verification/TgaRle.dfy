/** The run-length TGA writer: the 64-byte output buffer, the packets of a row, and the rows in file
    order. */
module TgaRle {
  import opened Basics
  import opened Bits
  import opened RunLength

  const MAX_PACKET: nat := 128

  type Pixel = seq<byte>

  // ---- the format ----

  /** TGA files hold blue, green, red and then alpha. */
  function FileOrder(p: Pixel): (r: Pixel)
    ensures |r| == |p|
  {
    if |p| >= 3 then [p[2], p[1], p[0]] + p[3..] else p
  }

  lemma FileOrderTwice(p: Pixel)
    ensures FileOrder(FileOrder(p)) == p
  {
  }

  /** n pixels of comp bytes each, and the unread input. */
  function ReadPixels(bytes: seq<byte>, comp: nat, n: nat): Option<(seq<Pixel>, seq<byte>)> {
    if n == 0 then Some(([], bytes))
    else if |bytes| < comp then None
    else After([FileOrder(bytes[..comp])], ReadPixels(bytes[comp..], comp, n - 1))
  }

  /** A header below 128 counts literal pixels less one; above, 127 less than itself copies of one. */
  function DecodeRow(bytes: seq<byte>, comp: nat, n: nat): Option<(seq<Pixel>, seq<byte>)>
    decreases n
  {
    if n == 0 then Some(([], bytes))
    else if bytes == [] then None
    else
      var h: nat := bytes[0];
      var count := if h < 128 then h + 1 else h - 127;
      match ReadPixels(bytes[1..], comp, if h < 128 then count else 1)
      case None => None
      case Some((pixels, rest)) =>
        if count > n || pixels == [] then None
        else After(if h < 128 then pixels else Repeat(pixels[0], count), DecodeRow(rest, comp, n - count))
  }

  /** y rows of x pixels, in file order. */
  function DecodeRows(bytes: seq<byte>, comp: nat, x: nat, y: nat): Option<(seq<seq<Pixel>>, seq<byte>)>
    decreases y
  {
    if y == 0 then Some(([], bytes))
    else
      match DecodeRow(bytes, comp, x)
      case None => None
      case Some((row, rest)) =>
        match DecodeRows(rest, comp, x, y - 1)
        case None => None
        case Some((rows, unread)) => Some(([row] + rows, unread))
  }

  // ---- the writer's packets as bytes ----

  function FileBytes(pixels: seq<Pixel>): seq<byte> {
    if pixels == [] then [] else FileOrder(pixels[0]) + FileBytes(pixels[1..])
  }

  function PacketBytes(p: Packet<Pixel>): seq<byte> {
    if !FitsIn(p, MAX_PACKET, MAX_PACKET) then []
    else
      match p
      case Run(len, value) => [len + 127] + FileOrder(value)
      case Raw(items) => [|items| - 1] + FileBytes(items)
  }

  ghost predicate AllOf(pixels: seq<Pixel>, comp: nat) {
    forall i :: 0 <= i < |pixels| ==> |pixels[i]| == comp
  }

  lemma {:induction false} FileBytesOneMore(pixels: seq<Pixel>, p: Pixel)
    ensures FileBytes(pixels + [p]) == FileBytes(pixels) + FileOrder(p)
  {
    if pixels == [] {
      assert pixels + [p] == [p];
      assert FileBytes([p]) == FileOrder(p) + FileBytes([]);
    } else {
      FileBytesOneMore(pixels[1..], p);
      assert (pixels + [p])[1..] == pixels[1..] + [p];
      ConcatAssoc(FileOrder(pixels[0]), FileBytes(pixels[1..]), FileOrder(p));
    }
  }

  lemma {:induction false} ReadWritten(pixels: seq<Pixel>, comp: nat, rest: seq<byte>)
    requires AllOf(pixels, comp)
    ensures ReadPixels(FileBytes(pixels) + rest, comp, |pixels|) == Some((pixels, rest))
  {
    if pixels == [] {
      assert [] + rest == rest;
    } else {
      var first, tail := FileOrder(pixels[0]), FileBytes(pixels[1..]) + rest;
      ReadWritten(pixels[1..], comp, rest);
      ConcatAssoc(first, FileBytes(pixels[1..]), rest);
      assert (first + tail)[..comp] == first && (first + tail)[comp..] == tail;
      FileOrderTwice(pixels[0]);
      assert [pixels[0]] + pixels[1..] == pixels;
    }
  }

  /** One unfolding of DecodeRow, for each kind of packet. */
  lemma RunUnfolds(h: byte, body: seq<byte>, comp: nat, n: nat, value: Pixel, tail: seq<byte>)
    requires h >= 128 && (h as nat) - 127 <= n && ReadPixels(body, comp, 1) == Some(([value], tail))
    ensures DecodeRow([h] + body, comp, n) == After(Repeat(value, h - 127), DecodeRow(tail, comp, n - (h - 127)))
  {
    assert ([h] + body)[1..] == body;
  }

  lemma RawUnfolds(h: byte, body: seq<byte>, comp: nat, n: nat, items: seq<Pixel>, tail: seq<byte>)
    requires h < 128 && (h as nat) + 1 <= n && items != [] && ReadPixels(body, comp, h + 1) == Some((items, tail))
    ensures DecodeRow([h] + body, comp, n) == After(items, DecodeRow(tail, comp, n - (h + 1)))
  {
    assert ([h] + body)[1..] == body;
  }

  lemma ReadOne(value: Pixel, comp: nat, rest: seq<byte>)
    requires |value| == comp
    ensures ReadPixels(FileOrder(value) + rest, comp, 1) == Some(([value], rest))
  {
    assert FileBytes([value]) == FileOrder(value) + FileBytes([]) == FileOrder(value);
    ReadWritten([value], comp, rest);
  }

  lemma DecodeRun(len: nat, value: Pixel, comp: nat, tail: seq<byte>, n: nat)
    requires 1 <= len <= MAX_PACKET && |value| == comp && len <= n
    ensures DecodeRow(PacketBytes(Run(len, value)) + tail, comp, n)
         == After(Repeat(value, len), DecodeRow(tail, comp, n - len))
  {
    var h: byte := len + 127;
    ReadOne(value, comp, tail);
    RunUnfolds(h, FileOrder(value) + tail, comp, n, value, tail);
    ConcatAssoc([h], FileOrder(value), tail);
  }

  lemma DecodeRaw(items: seq<Pixel>, comp: nat, tail: seq<byte>, n: nat)
    requires 1 <= |items| <= MAX_PACKET && AllOf(items, comp) && |items| <= n
    ensures DecodeRow(PacketBytes(Raw(items)) + tail, comp, n) == After(items, DecodeRow(tail, comp, n - |items|))
  {
    var h: byte := |items| - 1;
    ReadWritten(items, comp, tail);
    RawUnfolds(h, FileBytes(items) + tail, comp, n, items, tail);
    ConcatAssoc([h], FileBytes(items), tail);
  }

  /** STBIW_UCHAR on a header: values below zero come out 256 higher. */
  lemma SmallByte(v: int)
    requires -256 <= v < 256
    ensures v % 256 == if v < 0 then v + 256 else v
  {
  }

  lemma TailOf(start: seq<byte>, body: seq<byte>)
    ensures (start + body)[..|start|] == start && (start + body)[|start|..] == body
  {
  }

  /** Packets within their limits decode to the pixels they stand for and leave the rest unread. */
  lemma DecodePackets(packets: seq<Packet<Pixel>>, comp: nat, rest: seq<byte>)
    requires Within(packets, MAX_PACKET, MAX_PACKET) && AllOf(Expand(packets), comp)
    ensures DecodeRow(Bytes(PacketBytes, packets) + rest, comp, |Expand(packets)|) == Some((Expand(packets), rest))
  {
    var decode := (bytes: seq<byte>, n: nat) => DecodeRow(bytes, comp, n);
    forall i | 0 <= i < |packets| ensures Reads(PacketBytes, decode, packets[i]) {
      PartOfAll(packets, i, comp);
      PacketReads(packets[i], comp, decode);
    }
    PacketsDecode(PacketBytes, decode, packets, rest);
  }

  lemma DecodePacket(p: Packet<Pixel>, comp: nat, tail: seq<byte>, n: nat)
    requires FitsIn(p, MAX_PACKET, MAX_PACKET) && AllOf(p.Data(), comp)
    ensures DecodeRow(PacketBytes(p) + tail, comp, p.Size() + n) == After(p.Data(), DecodeRow(tail, comp, n))
  {
    match p {
      case Run(len, value) =>
        assert p.Data()[0] == value;
        DecodeRun(len, value, comp, tail, len + n);
      case Raw(items) =>
        DecodeRaw(items, comp, tail, |items| + n);
    }
  }

  lemma PacketReads(p: Packet<Pixel>, comp: nat, decode: (seq<byte>, nat) -> Option<(seq<Pixel>, seq<byte>)>)
    requires FitsIn(p, MAX_PACKET, MAX_PACKET) && AllOf(p.Data(), comp)
    requires forall bytes: seq<byte>, n: nat :: decode(bytes, n) == DecodeRow(bytes, comp, n)
    ensures Reads(PacketBytes, decode, p)
  {
    forall tail: seq<byte>, n: nat
      ensures decode(PacketBytes(p) + tail, p.Size() + n) == After(p.Data(), decode(tail, n))
    {
      DecodePacket(p, comp, tail, n);
    }
  }

  lemma {:induction false} PartOfAll(packets: seq<Packet<Pixel>>, i: nat, comp: nat)
    requires i < |packets| && AllOf(Expand(packets), comp)
    ensures AllOf(packets[i].Data(), comp)
  {
    SplitAllOf(packets[0].Data(), Expand(packets[1..]), comp);
    if i != 0 {
      PartOfAll(packets[1..], i - 1, comp);
    }
  }

  lemma SplitAllOf(a: seq<Pixel>, b: seq<Pixel>, comp: nat)
    requires AllOf(a + b, comp)
    ensures AllOf(a, comp) && AllOf(b, comp)
  {
    forall i | 0 <= i < |a| ensures |a[i]| == comp {
      assert (a + b)[i] == a[i];
    }
    forall i | 0 <= i < |b| ensures |b[i]| == comp {
      assert (a + b)[|a| + i] == b[i];
    }
  }

  // ---- choosing the next packet ----

  /** How many pixels the packet at i takes, and whether they are literals. Literals stop before a
      pixel that equals the one two before it; the source compares at that distance, not with the
      neighbour. */
  method NextPacket(row: seq<Pixel>, i: nat) returns (len: nat, diff: bool)
    requires i < |row|
    ensures 1 <= len <= MAX_PACKET && i + len <= |row|
    ensures !diff ==> len >= 2 && row[i..i + len] == Repeat(row[i], len)
    ensures !diff ==> len == MAX_PACKET || i + len == |row| || row[i + len] != row[i]
    ensures diff ==> i + 1 == |row| || row[i] != row[i + 1]
    ensures diff ==> forall j :: i + 2 <= j < i + len ==> row[j - 2] != row[j]
    ensures diff ==>
              len == MAX_PACKET || i + len == |row|
              || (i + len + 1 < |row| && row[i + len - 1] == row[i + len + 1])
  {
    diff, len := true, 1;
    if i < |row| - 1 {
      len := 2;
      diff := row[i] != row[i + 1];
      var k := i + 2;
      if diff {
        var prev := i;
        while k < |row| && len < 128
          invariant k == i + len == prev + 2 && 2 <= len <= 128 && k <= |row|
          invariant forall j :: i + 2 <= j < k ==> row[j - 2] != row[j]
        {
          if row[prev] != row[k] {
            prev := prev + 1;
            len := len + 1;
          } else {
            len := len - 1;
            return;
          }
          k := k + 1;
        }
      } else {
        while k < |row| && len < 128
          invariant k == i + len && 2 <= len <= 128 && k <= |row|
          invariant forall j :: i <= j < k ==> row[j] == row[i]
        {
          if row[i] == row[k] {
            len := len + 1;
          } else {
            break;
          }
          k := k + 1;
        }
      }
    }
  }

  /** packets stand for the first i pixels of row. */
  ghost predicate Covers(packets: seq<Packet<Pixel>>, row: seq<Pixel>, i: nat) {
    i <= |row| && Within(packets, MAX_PACKET, MAX_PACKET) && Expand(packets) == row[..i]
  }

  lemma CoversMore(packets: seq<Packet<Pixel>>, row: seq<Pixel>, i: nat, p: Packet<Pixel>)
    requires Covers(packets, row, i) && FitsIn(p, MAX_PACKET, MAX_PACKET)
    requires i + p.Size() <= |row| && p.Data() == row[i..i + p.Size()]
    ensures Covers(packets + [p], row, i + p.Size())
    ensures Bytes(PacketBytes, packets + [p]) == Bytes(PacketBytes, packets) + PacketBytes(p)
  {
    BytesOneMore(PacketBytes, packets, p);
    ExpandOneMore(packets, p);
    PrefixGrows(row, i, i + p.Size());
  }

  lemma PrefixGrows(row: seq<Pixel>, i: nat, j: nat)
    requires i <= j <= |row|
    ensures row[..i] + row[i..j] == row[..j]
  {
  }

  // ---- the writer ----

  const BUFFER: nat := 64

  /** stbi__write_context: bytes wait in a 64-byte buffer before they go to the callback. */
  class WriteContext {
    const buffer: array<byte>
    var used: nat
    var sink: seq<byte>

    ghost predicate Valid()
      reads this
    {
      buffer.Length == BUFFER && used <= BUFFER
    }

    /** Everything written, whether passed on or still in the buffer. */
    ghost function Stream(): seq<byte>
      requires Valid()
      reads this, buffer
    {
      sink + buffer[..used]
    }

    constructor ()
      ensures Valid() && fresh(buffer) && Stream() == [] && sink == []
    {
      buffer := new byte[BUFFER](_ => 0);
      used, sink := 0, [];
    }

    /** stbiw__write_flush. */
    method Flush()
      requires Valid()
      modifies this
      ensures Valid() && Stream() == old(Stream()) && sink == Stream() && used == 0
    {
      if used > 0 {
        sink := sink + buffer[..used];
        used := 0;
      }
    }

    /** stbiw__write1. */
    method Write1(a: byte)
      requires Valid()
      modifies this, buffer
      ensures Valid() && Stream() == old(Stream()) + [a]
    {
      if used + 1 > BUFFER {
        Flush();
      }
      buffer[used] := a;
      used := used + 1;
    }

    /** stbiw__write3. */
    method Write3(a: byte, b: byte, c: byte)
      requires Valid()
      modifies this, buffer
      ensures Valid() && Stream() == old(Stream()) + [a, b, c]
    {
      if used + 3 > BUFFER {
        Flush();
      }
      var n := used;
      used := n + 3;
      buffer[n] := a;
      buffer[n + 1] := b;
      buffer[n + 2] := c;
    }

    /** stbiw__write_pixel as the TGA writer calls it: reversed colours, alpha last. */
    method WritePixel(d: Pixel)
      requires Valid() && 1 <= |d| <= 4
      modifies this, buffer
      ensures Valid() && Stream() == old(Stream()) + FileOrder(d)
    {
      if |d| <= 2 {
        Write1(d[0]);
      } else {
        Write3(d[2], d[1], d[0]);
      }
      if |d| == 2 || |d| == 4 {
        Write1(d[|d| - 1]);
      }
    }

    method WritePixels(pixels: seq<Pixel>, comp: nat)
      requires Valid() && 1 <= comp <= 4 && AllOf(pixels, comp)
      modifies this, buffer
      ensures Valid() && Stream() == old(Stream()) + FileBytes(pixels)
    {
      for k := 0 to |pixels|
        invariant Valid() && Stream() == old(Stream()) + FileBytes(pixels[..k])
      {
        WritePixel(pixels[k]);
        FileBytesOneMore(pixels[..k], pixels[k]);
        assert pixels[..k] + [pixels[k]] == pixels[..k + 1];
      }
      assert pixels[..|pixels|] == pixels;
    }

    method WriteRaw(items: seq<Pixel>, comp: nat)
      requires Valid() && 1 <= comp <= 4 && AllOf(items, comp) && 1 <= |items| <= MAX_PACKET
      modifies this, buffer
      ensures Valid() && Stream() == old(Stream()) + PacketBytes(Raw(items))
    {
      ghost var h: byte := |items| - 1;
      SmallByte(|items| - 1);
      Write1((|items| - 1) % 256);
      WritePixels(items, comp);
      ConcatAssoc(old(Stream()), [h], FileBytes(items));
    }

    method WriteRun(len: nat, value: Pixel)
      requires Valid() && 1 <= |value| <= 4 && 1 <= len <= MAX_PACKET
      modifies this, buffer
      ensures Valid() && Stream() == old(Stream()) + PacketBytes(Run(len, value))
    {
      ghost var h: byte := len + 127;
      SmallByte(len - 129);
      Write1((len - 129) % 256);
      WritePixel(value);
      ConcatAssoc(old(Stream()), [h], FileOrder(value));
    }

    method WritePacket(row: seq<Pixel>, comp: nat, i: nat) returns (len: nat, ghost p: Packet<Pixel>)
      requires Valid() && 1 <= comp <= 4 && AllOf(row, comp) && i < |row|
      modifies this, buffer
      ensures Valid() && FitsIn(p, MAX_PACKET, MAX_PACKET) && Stream() == old(Stream()) + PacketBytes(p)
      ensures len == p.Size() && i + len <= |row| && p.Data() == row[i..i + len]
    {
      var diff;
      len, diff := NextPacket(row, i);
      if diff {
        p := Raw(row[i..i + len]);
        WriteRaw(row[i..i + len], comp);
      } else {
        p := Run(len, row[i]);
        WriteRun(len, row[i]);
      }
    }

    /** One row. Whatever follows it, a decoder that wants |row| pixels reads back exactly row. */
    method WriteRow(row: seq<Pixel>, comp: nat) returns (ghost packets: seq<Packet<Pixel>>)
      requires Valid() && 1 <= comp <= 4 && AllOf(row, comp)
      modifies this, buffer
      ensures Valid() && Within(packets, MAX_PACKET, MAX_PACKET) && Expand(packets) == row
      ensures Stream() == old(Stream()) + Bytes(PacketBytes, packets)
    {
      packets := [];
      var i := 0;
      while i < |row|
        invariant Valid() && Covers(packets, row, i) && Stream() == old(Stream()) + Bytes(PacketBytes, packets)
        decreases |row| - i
      {
        ghost var p;
        var len;
        len, p := WritePacket(row, comp, i);
        CoversMore(packets, row, i, p);
        ConcatAssoc(old(Stream()), Bytes(PacketBytes, packets), PacketBytes(p));
        packets := packets + [p];
        i := i + len;
      }
      assert row[..i] == row;
    }

    /** One row after those already done. */
    method AddRow(row: seq<Pixel>, comp: nat, x: nat, ghost start: seq<byte>, ghost body: seq<byte>,
                  ghost before: seq<seq<Pixel>>)
      returns (ghost more: seq<byte>)
      requires Valid() && 1 <= comp <= 4 && |row| == x && AllOf(row, comp)
      requires Stream() == start + body && EmitsRows(body, comp, x, before)
      modifies this, buffer
      ensures Valid() && Stream() == start + more && EmitsRows(more, comp, x, before + [row])
    {
      ghost var packets := WriteRow(row, comp);
      EmitsOneMoreRow(body, comp, x, before, packets);
      ConcatAssoc(start, body, Bytes(PacketBytes, packets));
      more := body + Bytes(PacketBytes, packets);
    }

    /** The rows, bottom one first unless flipped, and the final flush. */
    method WriteRows(rows: seq<seq<Pixel>>, comp: nat, x: nat, flip: bool)
      requires Valid() && 1 <= comp <= 4 && RowsFit(rows, comp, x)
      modifies this, buffer
      ensures Valid() && |old(Stream())| <= |sink| && sink[..|old(Stream())|] == old(Stream())
      ensures DecodeRows(sink[|old(Stream())|..], comp, x, |rows|) == Some((if flip then rows else Backwards(rows), []))
    {
      ghost var body := [];
      ghost var emitted := if flip then rows else Backwards(rows);
      EmitsNoRows(comp, x);
      var j, jend, jdir := |rows| - 1, -1, -1;
      if flip {
        j, jend, jdir := 0, |rows|, 1;
      }
      ghost var n := 0;
      while j != jend
        invariant 0 <= n <= |rows| && j == if flip then n else |rows| - 1 - n
        invariant Valid() && Stream() == old(Stream()) + body && EmitsRows(body, comp, x, emitted[..n])
        decreases |rows| - n
      {
        assert emitted[..n + 1] == emitted[..n] + [rows[j]];
        body := AddRow(rows[j], comp, x, old(Stream()), body, emitted[..n]);
        n := n + 1;
        j := j + jdir;
      }
      Flush();
      assert emitted[..n] == emitted;
      TailOf(old(Stream()), body);
      AllRowsDecode(body, comp, x, emitted);
    }
  }

  ghost predicate RowsFit(rows: seq<seq<Pixel>>, comp: nat, x: nat) {
    forall j :: 0 <= j < |rows| ==> |rows[j]| == x && AllOf(rows[j], comp)
  }

  function Backwards<T>(s: seq<T>): (r: seq<T>)
    ensures |r| == |s| && forall i :: 0 <= i < |s| ==> r[i] == s[|s| - 1 - i]
  {
    seq(|s|, i requires 0 <= i < |s| => s[|s| - 1 - i])
  }

  /** body, in front of anything, is read as the given rows. */
  ghost predicate EmitsRows(body: seq<byte>, comp: nat, x: nat, rows: seq<seq<Pixel>>) {
    forall rest: seq<byte>, y: nat {:trigger DecodeRows(rest, comp, x, y), body + rest} ::
      DecodeRows(body + rest, comp, x, |rows| + y) == After(rows, DecodeRows(rest, comp, x, y))
  }

  lemma EmitsNoRows(comp: nat, x: nat)
    ensures EmitsRows([], comp, x, [])
  {
    forall rest: seq<byte>, y: nat
      ensures DecodeRows([] + rest, comp, x, 0 + y) == After([], DecodeRows(rest, comp, x, y))
    {
      assert [] + rest == rest;
      AfterTwice([], [], DecodeRows(rest, comp, x, y));
    }
  }

  lemma EmitsOneMoreRow(body: seq<byte>, comp: nat, x: nat, rows: seq<seq<Pixel>>, packets: seq<Packet<Pixel>>)
    requires EmitsRows(body, comp, x, rows) && Within(packets, MAX_PACKET, MAX_PACKET)
    requires |Expand(packets)| == x && AllOf(Expand(packets), comp)
    ensures EmitsRows(body + Bytes(PacketBytes, packets), comp, x, rows + [Expand(packets)])
  {
    var part, row := Bytes(PacketBytes, packets), Expand(packets);
    forall rest: seq<byte>, y: nat
      ensures DecodeRows((body + part) + rest, comp, x, |rows + [row]| + y) ==
              After(rows + [row], DecodeRows(rest, comp, x, y))
    {
      DecodePackets(packets, comp, rest);
      OneRow(part, comp, x, row, rest, y);
      ConcatAssoc(body, part, rest);
      AfterTwice(rows, [row], DecodeRows(rest, comp, x, y));
      assert DecodeRows(body + (part + rest), comp, x, |rows| + (1 + y)) ==
        After(rows, DecodeRows(part + rest, comp, x, 1 + y));
    }
  }

  lemma OneRow(part: seq<byte>, comp: nat, x: nat, row: seq<Pixel>, rest: seq<byte>, y: nat)
    requires DecodeRow(part + rest, comp, x) == Some((row, rest))
    ensures DecodeRows(part + rest, comp, x, 1 + y) == After([row], DecodeRows(rest, comp, x, y))
  {
  }

  lemma AllRowsDecode(body: seq<byte>, comp: nat, x: nat, rows: seq<seq<Pixel>>)
    requires EmitsRows(body, comp, x, rows)
    ensures DecodeRows(body, comp, x, |rows|) == Some((rows, []))
  {
    var none := DecodeRows([], comp, x, 0);
    assert DecodeRows(body + [], comp, x, |rows| + 0) == After(rows, none);
    assert body + [] == body && rows + [] == rows;
  }
}
