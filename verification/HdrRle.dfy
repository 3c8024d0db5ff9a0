/** The Radiance HDR scanline writer's run-length code for one colour component, and a whole scanline
    of four components. */
module HdrRle {
  import opened Basics
  import opened Bits
  import opened RunLength
  import opened HdrColor

  const MAX_RUN: nat := 127
  const MAX_DUMP: nat := 128

  // ---- the format ----

  /** n bytes of a component and the unread input: a code above 128 repeats the next byte code - 128
      times, any other copies that many bytes. A packet may not go past the end of the scanline. */
  function Decode(bytes: seq<byte>, n: nat): Option<(seq<byte>, seq<byte>)>
    decreases n
  {
    if n == 0 then Some(([], bytes))
    else if |bytes| < 2 then None
    else
      var code: nat := bytes[0];
      var count := if code > 128 then code - 128 else code;
      var size := if code > 128 then 2 else 1 + count;
      if count == 0 || count > n || size > |bytes| then None
      else After(if code > 128 then Repeat(bytes[1], count) else bytes[1..size], Decode(bytes[size..], n - count))
  }

  // ---- the writer's packets as bytes ----

  function PacketBytes(p: Packet<byte>): seq<byte> {
    if !FitsIn(p, MAX_RUN, MAX_DUMP) then []
    else
      match p
      case Run(len, value) => [len + 128, value]
      case Raw(items) => [|items|] + items
  }

  lemma DecodePacket(p: Packet<byte>, rest: seq<byte>, n: nat)
    requires FitsIn(p, MAX_RUN, MAX_DUMP) && p.Size() <= n
    ensures Decode(PacketBytes(p) + rest, n) == After(p.Data(), Decode(rest, n - p.Size()))
  {
    match p {
      case Run(len, value) => DecodeRun(len, value, rest, n);
      case Raw(items) => DecodeRaw(items, rest, n);
    }
  }

  lemma DecodeRun(len: nat, value: byte, rest: seq<byte>, n: nat)
    requires 1 <= len <= MAX_RUN && len <= n
    ensures Decode(PacketBytes(Run(len, value)) + rest, n) == After(Repeat(value, len), Decode(rest, n - len))
  {
    var bytes := PacketBytes(Run(len, value)) + rest;
    assert bytes[0] == len + 128 && bytes[1] == value && bytes[2..] == rest;
  }

  lemma DecodeRaw(items: seq<byte>, rest: seq<byte>, n: nat)
    requires 1 <= |items| <= MAX_DUMP && |items| <= n
    ensures Decode(PacketBytes(Raw(items)) + rest, n) == After(items, Decode(rest, n - |items|))
  {
    var bytes := PacketBytes(Raw(items)) + rest;
    assert bytes[0] == |items| && bytes[1..1 + |items|] == items && bytes[1 + |items|..] == rest;
  }

  /** Packets within their limits decode to what they stand for and leave the rest unread. */
  lemma DecodePackets(packets: seq<Packet<byte>>, rest: seq<byte>)
    requires Within(packets, MAX_RUN, MAX_DUMP)
    ensures Decode(Bytes(PacketBytes, packets) + rest, |Expand(packets)|) == Some((Expand(packets), rest))
  {
    forall i | 0 <= i < |packets| ensures RunLength.Reads(PacketBytes, Decode, packets[i]) {
      var p := packets[i];
      forall tail: seq<byte>, n: nat
        ensures Decode(PacketBytes(p) + tail, p.Size() + n) == After(p.Data(), Decode(tail, n))
      {
        DecodePacket(p, tail, p.Size() + n);
      }
    }
    PacketsDecode(PacketBytes, Decode, packets, rest);
  }

  // ---- the writer ----

  ghost predicate RunOfThree(comp: seq<byte>, r: int)
    requires 0 <= r
  {
    r + 2 < |comp| && comp[r] == comp[r + 1] == comp[r + 2]
  }

  /** The first run of three equal bytes from x on, or the end. */
  method FindRun(comp: seq<byte>, x: nat) returns (r: nat)
    requires x < |comp|
    ensures x <= r <= |comp| && (r == |comp| || RunOfThree(comp, r))
    ensures forall k :: x <= k < r ==> !RunOfThree(comp, k)
    ensures r == |comp| || r + 2 < |comp|
  {
    r := x;
    while r + 2 < |comp|
      invariant x <= r <= |comp| && forall k :: x <= k < r ==> !RunOfThree(comp, k)
    {
      if comp[r] == comp[r + 1] && comp[r] == comp[r + 2] {
        break;
      }
      r := r + 1;
    }
    if r + 2 >= |comp| {
      r := |comp|;
    }
  }

  /** The first byte from r on that differs from comp[x], or the end. */
  method FindRunEnd(comp: seq<byte>, x: nat) returns (r: nat)
    requires x < |comp|
    ensures x < r <= |comp| && comp[x..r] == Repeat(comp[x], r - x) && (r == |comp| || comp[r] != comp[x])
  {
    r := x;
    while r < |comp| && comp[r] == comp[x]
      invariant x <= r <= |comp| && forall k :: x <= k < r ==> comp[k] == comp[x]
    {
      r := r + 1;
    }
  }

  /** packets stand for the first x bytes of comp, and out is their byte form. */
  ghost predicate Written(out: seq<byte>, packets: seq<Packet<byte>>, comp: seq<byte>, x: nat) {
    && x <= |comp| && Within(packets, MAX_RUN, MAX_DUMP)
    && out == Bytes(PacketBytes, packets) && Expand(packets) == comp[..x]
  }

  lemma WrittenOneMore(out: seq<byte>, packets: seq<Packet<byte>>, comp: seq<byte>, x: nat, p: Packet<byte>)
    requires Written(out, packets, comp, x) && FitsIn(p, MAX_RUN, MAX_DUMP)
    requires x + p.Size() <= |comp| && p.Data() == comp[x..x + p.Size()]
    ensures Written(out + PacketBytes(p), packets + [p], comp, x + p.Size())
  {
    BytesOneMore(PacketBytes, packets, p);
    ExpandOneMore(packets, p);
    assert comp[..x + p.Size()] == comp[..x] + comp[x..x + p.Size()];
  }

  lemma RawOneMore(out: seq<byte>, packets: seq<Packet<byte>>, comp: seq<byte>, x: nat, len: nat)
    requires Written(out, packets, comp, x) && 1 <= len <= MAX_DUMP && x + len <= |comp|
    ensures Written(out + ([len] + comp[x..x + len]), packets + [Raw(comp[x..x + len])], comp, x + len)
  {
    WrittenOneMore(out, packets, comp, x, Raw(comp[x..x + len]));
  }

  lemma RunOneMore(out: seq<byte>, packets: seq<Packet<byte>>, comp: seq<byte>, x: nat, len: nat)
    requires Written(out, packets, comp, x) && 1 <= len <= MAX_RUN && x + len <= |comp|
    requires Repeat(comp[x], len) == comp[x..x + len]
    ensures Written(out + [len + 128, comp[x]], packets + [Run(len, comp[x])], comp, x + len)
  {
    WrittenOneMore(out, packets, comp, x, Run(len, comp[x]));
  }

  /** Literals from x up to r, at most 128 a packet. */
  method Dump(comp: seq<byte>, x0: nat, r: nat, out0: seq<byte>, ghost packets0: seq<Packet<byte>>)
    returns (out: seq<byte>, ghost packets: seq<Packet<byte>>)
    requires x0 <= r <= |comp| && Written(out0, packets0, comp, x0)
    ensures Written(out, packets, comp, r)
  {
    var x := x0;
    out, packets := out0, packets0;
    while x < r
      invariant x0 <= x <= r && Written(out, packets, comp, x)
    {
      var len := r - x;
      if len > 128 {
        len := 128;
      }
      RawOneMore(out, packets, comp, x, len);
      out := out + ([len] + comp[x..x + len]);
      packets := packets + [Raw(comp[x..x + len])];
      x := x + len;
    }
  }

  /** The run from x up to r, at most 127 a packet. */
  method Runs(comp: seq<byte>, x0: nat, r: nat, out0: seq<byte>, ghost packets0: seq<Packet<byte>>)
    returns (out: seq<byte>, ghost packets: seq<Packet<byte>>)
    requires x0 < r <= |comp| && Written(out0, packets0, comp, x0)
    requires comp[x0..r] == Repeat(comp[x0], r - x0)
    ensures Written(out, packets, comp, r)
  {
    var x := x0;
    out, packets := out0, packets0;
    while x < r
      invariant x0 <= x <= r && Written(out, packets, comp, x)
    {
      var len := r - x;
      if len > 127 {
        len := 127;
      }
      RunHere(comp, x0, r, x, len);
      RunOneMore(out, packets, comp, x, len);
      out := out + [len + 128, comp[x]];
      packets := packets + [Run(len, comp[x])];
      x := x + len;
    }
  }

  lemma RunHere(comp: seq<byte>, x0: nat, r: nat, x: nat, len: nat)
    requires x0 <= x < x + len <= r <= |comp| && comp[x0..r] == Repeat(comp[x0], r - x0)
    ensures Repeat(comp[x], len) == comp[x..x + len]
  {
    forall k | x0 <= k < r ensures comp[k] == comp[x0] {
      assert comp[x0..r][k - x0] == comp[x0];
    }
  }

  /** One component: alternate literals up to the next run of three, and that run. Whatever follows,
      a decoder that wants |comp| bytes reads back exactly comp. */
  method WriteComponent(comp: seq<byte>) returns (out: seq<byte>, ghost packets: seq<Packet<byte>>)
    ensures Within(packets, MAX_RUN, MAX_DUMP) && out == Bytes(PacketBytes, packets) && Expand(packets) == comp
    ensures forall rest :: Decode(out + rest, |comp|) == Some((comp, rest))
  {
    out, packets := [], [];
    var x := 0;
    while x < |comp|
      invariant Written(out, packets, comp, x)
      decreases |comp| - x
    {
      var r := FindRun(comp, x);
      out, packets := Dump(comp, x, r, out, packets);
      x := r;
      if r + 2 < |comp| {
        r := FindRunEnd(comp, x);
        out, packets := Runs(comp, x, r, out, packets);
        x := r;
      }
    }
    assert comp[..x] == comp;
    forall rest ensures Decode(out + rest, |comp|) == Some((comp, rest)) {
      DecodePackets(packets, rest);
    }
  }

  // ---- a scanline ----

  function Component(pixels: seq<Rgbe>, c: nat): (r: seq<byte>)
    requires c < 4
    ensures |r| == |pixels|
  {
    seq(|pixels|, i requires 0 <= i < |pixels| => pixels[i].Component(c))
  }

  /** Components c..3 of a scanline. */
  function DecodeFrom(bytes: seq<byte>, width: nat, c: nat): Option<(seq<seq<byte>>, seq<byte>)>
    requires c <= 4
    decreases 4 - c
  {
    if c == 4 then Some(([], bytes))
    else
      match Decode(bytes, width)
      case None => None
      case Some((comp, rest)) =>
        match DecodeFrom(rest, width, c + 1)
        case None => None
        case Some((comps, unread)) => Some(([comp] + comps, unread))
  }

  function Pixels(comps: seq<seq<byte>>, width: nat): seq<Rgbe>
    requires |comps| == 4 && forall c :: 0 <= c < 4 ==> |comps[c]| == width
  {
    seq(width, i requires 0 <= i < width => Rgbe(comps[0][i], comps[1][i], comps[2][i], comps[3][i]))
  }

  function Flat(pixels: seq<Rgbe>): (r: seq<byte>)
    ensures |r| == 4 * |pixels|
  {
    if pixels == [] then [] else [pixels[0].r, pixels[0].g, pixels[0].b, pixels[0].e] + Flat(pixels[1..])
  }

  /** A whole scanline: outside 8..32767 the pixels as they are; otherwise 2, 2, the width high byte
      first, and the four components. */
  function DecodeScanline(bytes: seq<byte>, width: nat): Option<(seq<seq<byte>>, seq<byte>)> {
    if |bytes| < 4 || bytes[0] != 2 || bytes[1] != 2 then None
    else
      var hi: nat, lo: nat := bytes[2], bytes[3];
      if hi * 256 + lo != width then None else DecodeFrom(bytes[4..], width, 0)
  }

  function Components(pixels: seq<Rgbe>): (r: seq<seq<byte>>)
    ensures |r| == 4
  {
    seq(4, c requires 0 <= c < 4 => Component(pixels, c))
  }

  lemma PixelsOfComponents(pixels: seq<Rgbe>)
    ensures Pixels(Components(pixels), |pixels|) == pixels
  {
    forall i | 0 <= i < |pixels| ensures Pixels(Components(pixels), |pixels|)[i] == pixels[i] {
    }
  }

  /** The colour of pixel x; with fewer than three components it is grey. */
  function Colour(scanline: seq<real>, ncomp: nat, x: nat): Linear
    requires 1 <= ncomp <= 4 && (x + 1) * ncomp <= |scanline|
  {
    Distribute(x, ncomp);
    assert 0 <= x * ncomp < |scanline|;
    if ncomp >= 3 then Linear(scanline[x * ncomp], scanline[x * ncomp + 1], scanline[x * ncomp + 2])
    else Linear(scanline[x * ncomp], scanline[x * ncomp], scanline[x * ncomp])
  }

  /** width pixels of ncomp components whose colours C can convert. */
  ghost predicate Scanline(scanline: seq<real>, width: nat, ncomp: nat) {
    && 1 <= ncomp <= 4 && |scanline| == width * ncomp
    && forall x: nat :: x < width ==> (x + 1) * ncomp <= |scanline| && Convertible(Colour(scanline, ncomp, x))
  }

  /** The scanline's pixels. */
  ghost function Converted(scanline: seq<real>, width: nat, ncomp: nat): (r: seq<Rgbe>)
    requires Scanline(scanline, width, ncomp)
    ensures |r| == width && forall x: nat :: x < width ==> r[x] == ToRgbe(Colour(scanline, ncomp, x))
  {
    seq(width, x requires 0 <= x < width => ToRgbe(Colour(scanline, ncomp, x)))
  }

  method ConvertScanline(scanline: seq<real>, width: nat, ncomp: nat) returns (pixels: seq<Rgbe>)
    requires Scanline(scanline, width, ncomp)
    ensures pixels == Converted(scanline, width, ncomp)
  {
    pixels := [];
    for x := 0 to width
      invariant pixels == Converted(scanline, width, ncomp)[..x]
    {
      var rgbe := LinearToRgbe(Colour(scanline, ncomp, x));
      pixels := pixels + [rgbe];
    }
  }

  /** stbiw__write_hdr_scanline: a decoder reads back the converted colours. */
  method WriteScanline(scanline: seq<real>, width: nat, ncomp: nat) returns (out: seq<byte>)
    requires Scanline(scanline, width, ncomp)
    ensures !(8 <= width < 32768) ==> out == Flat(Converted(scanline, width, ncomp))
    ensures 8 <= width < 32768 ==>
              forall rest :: DecodeScanline(out + rest, width) ==
                             Some((Components(Converted(scanline, width, ncomp)), rest))
  {
    var pixels := ConvertScanline(scanline, width, ncomp);
    out := WritePixels(pixels);
  }

  /** The pixels read back are the colours, to within a 128th of the largest component, below 2^127. */
  lemma ScanlineKept(scanline: seq<real>, width: nat, ncomp: nat, x: nat)
    requires Scanline(scanline, width, ncomp) && x < width && Colour(scanline, ncomp, x).Max() < Two(128)
    ensures var pixels := Pixels(Components(Converted(scanline, width, ncomp)), width);
            Kept(Colour(scanline, ncomp, x), ToLinear(pixels[x])) <==> Colour(scanline, ncomp, x).Max() < Two(127)
  {
    PixelsOfComponents(Converted(scanline, width, ncomp));
    ColourKept(Colour(scanline, ncomp, x));
  }

  /** The pixels as they are when the scanline is short or long, run-length coded otherwise. */
  method WritePixels(pixels: seq<Rgbe>) returns (out: seq<byte>)
    ensures !(8 <= |pixels| < 32768) ==> out == Flat(pixels)
    ensures 8 <= |pixels| < 32768 ==>
              forall rest :: DecodeScanline(out + rest, |pixels|) == Some((Components(pixels), rest))
  {
    var width := |pixels|;
    if width < 8 || width >= 32768 {
      out := [];
      for x := 0 to width
        invariant out + Flat(pixels[x..]) == Flat(pixels)
      {
        ghost var tail := Flat(pixels[x + 1..]);
        assert pixels[x..][0] == pixels[x] && pixels[x..][1..] == pixels[x + 1..];
        var four := [pixels[x].r, pixels[x].g, pixels[x].b, pixels[x].e];
        assert (out + four) + tail == out + (four + tail);
        out := out + four;
      }
      return;
    }
    var body := WriteComponents(pixels);
    out := [2, 2, width / 256, width % 256] + body;
    forall rest ensures DecodeScanline(out + rest, width) == Some((Components(pixels), rest)) {
      ScanlineDecodes(width / 256, width % 256, body, pixels, rest);
    }
  }

  method WriteComponents(pixels: seq<Rgbe>) returns (body: seq<byte>)
    ensures ReadsAs(body, |pixels|, Components(pixels))
  {
    body := [];
    ghost var comps := [];
    ReadsNothing(|pixels|);
    for c := 0 to 4
      invariant |comps| == c && ReadsAs(body, |pixels|, comps)
      invariant forall k: nat :: k < c ==> comps[k] == Component(pixels, k)
    {
      var part, packets := WriteComponent(Component(pixels, c));
      ReadsOneMore(body, |pixels|, comps, part, Component(pixels, c));
      body := body + part;
      comps := comps + [Component(pixels, c)];
    }
    assert comps == Components(pixels);
  }

  /** body, in front of anything, is read as the given components, 0 up. */
  ghost predicate ReadsAs(body: seq<byte>, width: nat, comps: seq<seq<byte>>)
    requires |comps| <= 4
  {
    forall rest: seq<byte> {:trigger body + rest} ::
      DecodeFrom(body + rest, width, 0) == After(comps, DecodeFrom(rest, width, |comps|))
  }

  lemma ReadsNothing(width: nat)
    ensures ReadsAs([], width, [])
  {
    forall rest: seq<byte>
      ensures DecodeFrom([] + rest, width, 0) == After([], DecodeFrom(rest, width, 0))
    {
      assert [] + rest == rest;
      AfterTwice([], [], DecodeFrom(rest, width, 0));
    }
  }

  lemma ReadComponent(part: seq<byte>, rest: seq<byte>, width: nat, comp: seq<byte>, c: nat)
    requires c < 4 && Decode(part + rest, width) == Some((comp, rest))
    ensures DecodeFrom(part + rest, width, c) == After([comp], DecodeFrom(rest, width, c + 1))
  {
  }

  lemma ReadsOneMore(body: seq<byte>, width: nat, comps: seq<seq<byte>>, part: seq<byte>, comp: seq<byte>)
    requires |comps| < 4 && ReadsAs(body, width, comps)
    requires forall rest :: Decode(part + rest, width) == Some((comp, rest))
    ensures ReadsAs(body + part, width, comps + [comp])
  {
    var c := |comps|;
    forall rest: seq<byte>
      ensures DecodeFrom((body + part) + rest, width, 0) == After(comps + [comp], DecodeFrom(rest, width, c + 1))
    {
      assert (body + part) + rest == body + (part + rest);
      ReadComponent(part, rest, width, comp, c);
      AfterTwice(comps, [comp], DecodeFrom(rest, width, c + 1));
    }
  }

  lemma ScanlineDecodes(hi: byte, lo: byte, body: seq<byte>, pixels: seq<Rgbe>, rest: seq<byte>)
    requires ReadsAs(body, |pixels|, Components(pixels)) && (hi as nat) * 256 + (lo as nat) == |pixels|
    ensures DecodeScanline([2, 2, hi, lo] + body + rest, |pixels|) == Some((Components(pixels), rest))
  {
    ConcatAssoc([2, 2, hi, lo], body, rest);
    HeaderRead(hi, lo, body + rest);
    assert DecodeFrom(body + rest, |pixels|, 0) == After(Components(pixels), DecodeFrom(rest, |pixels|, 4));
    assert Components(pixels) + [] == Components(pixels);
  }

  lemma HeaderRead(hi: byte, lo: byte, more: seq<byte>)
    ensures DecodeScanline([2, 2, hi, lo] + more, (hi as nat) * 256 + (lo as nat))
         == DecodeFrom(more, (hi as nat) * 256 + (lo as nat), 0)
  {
    var bytes := [2, 2, hi, lo] + more;
    assert bytes[0] == 2 && bytes[1] == 2 && bytes[2] == hi && bytes[3] == lo && bytes[4..] == more;
  }
}
