/** PNG row filters: the writer's line encoder and filter choice, the inverse of RFC 2083 section 6, and
    the image data stream as a whole. */
module PngFilter {
  import opened Basics
  import opened Bits
  import Inflate
  import ZlibCompress

  type schar = x: int | -128 <= x < 128

  /** Conversion to signed char. */
  function SChar(v: int): (r: schar)
    ensures (r - v) % 256 == 0
  {
    (v + 128) % 256 - 128
  }

  function Abs(x: int): nat { if x < 0 then -x else x }

  /** stbiw__paeth: of left, above and upper left the one nearest to a + b - c, ties in that order. */
  function Paeth(a: byte, b: byte, c: byte): (r: byte)
    ensures r == a || r == b || r == c
    ensures Abs(a + b - c - r) <= Abs(a + b - c - a) && Abs(a + b - c - r) <= Abs(a + b - c - b)
    ensures Abs(a + b - c - r) <= Abs(a + b - c - c)
    ensures r != a ==> Abs(a + b - c - r) < Abs(a + b - c - a)
    ensures r != a && r != b ==> Abs(a + b - c - r) < Abs(a + b - c - b)
  {
    var p := a + b - c;
    var pa, pb, pc := Abs(p - a), Abs(p - b), Abs(p - c);
    if pa <= pb && pa <= pc then a else if pb <= pc then b else c
  }

  // ---- the format ----

  /** RFC 2083 section 6: what filter f predicts for byte i of row, with bpp bytes a pixel. */
  function Predict(f: nat, row: seq<byte>, prev: seq<byte>, bpp: nat, i: nat): byte
    requires f <= 4 && bpp > 0 && i <= |row| && i < |prev|
  {
    var a: byte, c: byte := if i < bpp then 0 else row[i - bpp], if i < bpp then 0 else prev[i - bpp];
    match f
    case 0 => 0
    case 1 => a
    case 2 => prev[i]
    case 3 => (a + prev[i]) / 2
    case _ => Paeth(a, prev[i], c)
  }

  /** The first n bytes of a row whose filtered bytes are line. */
  function Unfilter(f: nat, line: seq<byte>, prev: seq<byte>, bpp: nat, n: nat): (r: seq<byte>)
    requires f <= 4 && bpp > 0 && n <= |line| == |prev|
    ensures |r| == n
  {
    if n == 0 then []
    else
      var r := Unfilter(f, line, prev, bpp, n - 1);
      r + [(line[n - 1] + Predict(f, r, prev, bpp, n - 1)) % 256]
  }

  /** The rows of an image: each is a filter byte and len filtered bytes; prev is the row above. */
  function Rows(bytes: seq<byte>, len: nat, height: nat, bpp: nat, prev: seq<byte>): Option<seq<seq<byte>>>
    requires bpp > 0 && |prev| == len
    decreases height
  {
    if height == 0 then if bytes == [] then Some([]) else None
    else if |bytes| < len + 1 || bytes[0] > 4 then None
    else
      var row := Unfilter(bytes[0], bytes[1..len + 1], prev, bpp, len);
      match Rows(bytes[len + 1..], len, height - 1, bpp, row)
      case None => None
      case Some(more) => Some([row] + more)
  }

  // ---- the writer's input ----

  function Zeros(len: nat): seq<byte> { seq(len, _ => 0) }

  /** A pixel buffer: rows of len bytes, stride bytes apart, written top down or bottom up. */
  datatype Image = Image(pixels: seq<byte>, stride: nat, len: nat, height: nat, flip: bool) {
    ghost predicate Valid() {
      height > 0 ==> stride * (height - 1) + len <= |pixels|
    }

    function Start(y: nat): int { if flip then stride * (height - 1 - y) else stride * y }

    function SignedStride(): int { if flip then -(stride as int) else stride }

    /** The y-th row to be written. */
    function Row(y: nat): (r: seq<byte>)
      requires Valid() && y < height
      ensures |r| == len
    {
      InBounds(this, y);
      pixels[Start(y)..Start(y) + len]
    }

    /** The row above it; above the first is all zero. */
    function Above(y: nat): (r: seq<byte>)
      requires Valid() && y <= height
      ensures |r| == len
    {
      if y == 0 then Zeros(len) else Row(y - 1)
    }
  }

  lemma InBounds(m: Image, y: nat)
    requires m.Valid() && y < m.height
    ensures 0 <= m.Start(y) && m.Start(y) + m.len <= |m.pixels|
  {
    MulMono(0, y, m.stride);
    MulMono(y, m.height - 1, m.stride);
    MulMono(0, m.height - 1 - y, m.stride);
    MulMono(m.height - 1 - y, m.height - 1, m.stride);
  }

  /** Going back by the signed stride reaches the row written before. */
  lemma PreviousRow(m: Image, y: nat)
    requires 0 < y < m.height
    ensures m.Start(y) - m.SignedStride() == m.Start(y - 1)
  {
    Distribute(y - 1, m.stride);
    Distribute(m.height - 1 - y, m.stride);
  }

  // ---- one line ----

  /** The value filter f gives byte i of row y. */
  function Filtered(m: Image, y: nat, f: nat, bpp: nat, i: nat): schar
    requires m.Valid() && y < m.height && f <= 4 && bpp > 0 && i < m.len
  {
    SChar(m.Row(y)[i] - Predict(f, m.Row(y), m.Above(y), bpp, i))
  }

  /** line[..n] holds the filtered bytes of row y. */
  ghost predicate Holds(line: seq<schar>, m: Image, y: nat, f: nat, bpp: nat, n: nat)
    requires m.Valid() && y < m.height && f <= 4 && bpp > 0 && n <= m.len
  {
    n <= |line| && forall i :: 0 <= i < n ==> line[i] == Filtered(m, y, f, bpp, i)
  }

  const FIRST_MAP: seq<nat> := [0, 1, 0, 5, 6]

  /** The first row has nothing above it, so the writer maps the filters that look there to others. */
  function MappedType(f: nat, y: nat): nat
    requires f <= 4
  {
    if y != 0 then f else FIRST_MAP[f]
  }

  /** The source's switch for the first pixel. */
  function FirstPixel(kind: nat, z: byte, up: byte): int {
    match kind
    case 1 => z
    case 2 => z - up
    case 3 => z - up / 2
    case 4 => z - Paeth(0, up, 0)
    case _ => z
  }

  /** The source's switch for the other pixels. */
  function LaterPixel(kind: nat, z: byte, left: byte, up: byte, upLeft: byte): int {
    match kind
    case 1 => z - left
    case 2 => z - up
    case 3 => z - (left + up) / 2
    case 4 => z - Paeth(left, up, upLeft)
    case 5 => z - left / 2
    case _ => z - Paeth(left, 0, 0)
  }

  /** What up[i] reads: the row above, where there is one. */
  function UpAt(m: Image, y: nat, i: nat): byte
    requires m.Valid() && y < m.height && i < m.len
  {
    if y == 0 then 0
    else
      InBounds(m, y - 1);
      PreviousRow(m, y);
      m.pixels[m.Start(y) - m.SignedStride() + i]
  }

  function PixelAt(m: Image, y: nat, i: nat): byte
    requires m.Valid() && y < m.height && i < m.len
  {
    InBounds(m, y);
    m.pixels[m.Start(y) + i]
  }

  lemma ReadsRow(m: Image, y: nat, i: nat)
    requires m.Valid() && y < m.height && i < m.len
    ensures PixelAt(m, y, i) == m.Row(y)[i]
  {
    InBounds(m, y);
  }

  lemma ReadsRows(m: Image, y: nat, i: nat)
    requires m.Valid() && y < m.height && i < m.len
    ensures PixelAt(m, y, i) == m.Row(y)[i] && UpAt(m, y, i) == m.Above(y)[i]
  {
    ReadsRow(m, y, i);
    if y != 0 {
      PreviousRow(m, y);
      ReadsRow(m, y - 1, i);
    }
  }

  lemma FirstPixelPredicts(m: Image, y: nat, f: nat, bpp: nat, i: nat)
    requires m.Valid() && y < m.height && f <= 4 && MappedType(f, y) != 0 && i < bpp && i < m.len
    ensures SChar(FirstPixel(MappedType(f, y), PixelAt(m, y, i), UpAt(m, y, i))) == Filtered(m, y, f, bpp, i)
  {
    ReadsRows(m, y, i);
  }

  lemma LaterPixelPredicts(m: Image, y: nat, f: nat, bpp: nat, i: nat)
    requires m.Valid() && y < m.height && f <= 4 && MappedType(f, y) != 0 && 0 < bpp <= i < m.len
    ensures SChar(LaterPixel(MappedType(f, y), PixelAt(m, y, i), PixelAt(m, y, i - bpp), UpAt(m, y, i),
                             UpAt(m, y, i - bpp)))
         == Filtered(m, y, f, bpp, i)
  {
    ReadsRows(m, y, i);
    ReadsRows(m, y, i - bpp);
  }

  lemma UnmappedPredicts(m: Image, y: nat, f: nat, bpp: nat, i: nat)
    requires m.Valid() && y < m.height && f <= 4 && MappedType(f, y) == 0 && 0 < bpp && i < m.len
    ensures SChar(PixelAt(m, y, i)) == Filtered(m, y, f, bpp, i)
  {
    ReadsRows(m, y, i);
  }

  /** stbiw__encode_png_line. In the source the row and the one above it are pointers into pixels; here
      PixelAt and UpAt index it, and UpAt follows the pointer only below the first row. */
  method EncodeLine(m: Image, y: nat, bpp: nat, f: nat, line: array<schar>)
    requires m.Valid() && y < m.height && f <= 4 && 0 < bpp <= m.len && line.Length == m.len
    modifies line
    ensures Holds(line[..], m, y, f, bpp, m.len)
  {
    var kind := MappedType(f, y);
    if kind == 0 {
      for i := 0 to m.len
        invariant forall k: nat :: k < i ==> line[k] == Filtered(m, y, f, bpp, k)
      {
        UnmappedPredicts(m, y, f, bpp, i);
        line[i] := SChar(PixelAt(m, y, i));
      }
      return;
    }
    for i := 0 to bpp
      invariant forall k: nat :: k < i ==> line[k] == Filtered(m, y, f, bpp, k)
    {
      FirstPixelPredicts(m, y, f, bpp, i);
      line[i] := SChar(FirstPixel(kind, PixelAt(m, y, i), UpAt(m, y, i)));
    }
    for i := bpp to m.len
      invariant forall k: nat :: k < i ==> line[k] == Filtered(m, y, f, bpp, k)
    {
      LaterPixelPredicts(m, y, f, bpp, i);
      line[i] := SChar(LaterPixel(kind, PixelAt(m, y, i), PixelAt(m, y, i - bpp), UpAt(m, y, i), UpAt(m, y, i - bpp)));
    }
  }

  // ---- undoing a line ----

  function Unsigned(line: seq<schar>): (r: seq<byte>)
    ensures |r| == |line|
  {
    seq<byte>(|line|, i requires 0 <= i < |line| => (line[i] as int) % 256)
  }

  lemma {:induction false} UnfilterRestores(m: Image, y: nat, f: nat, bpp: nat, line: seq<schar>, n: nat)
    requires m.Valid() && y < m.height && f <= 4 && bpp > 0 && n <= m.len == |line|
    requires Holds(line, m, y, f, bpp, m.len)
    ensures Unfilter(f, Unsigned(line), m.Above(y), bpp, n) == m.Row(y)[..n]
  {
    if n != 0 {
      UnfilterRestores(m, y, f, bpp, line, n - 1);
      var i := n - 1;
      var row, prev := m.Row(y), m.Above(y);
      PredictPrefix(f, row, prev, bpp, i);
      UndoesDifference(row[i], Predict(f, row, prev, bpp, i));
      assert line[i] == Filtered(m, y, f, bpp, i);
      assert row[..n] == row[..i] + [row[i]];
    }
  }

  lemma PredictPrefix(f: nat, row: seq<byte>, prev: seq<byte>, bpp: nat, i: nat)
    requires f <= 4 && bpp > 0 && i <= |row| && i < |prev|
    ensures Predict(f, row[..i], prev, bpp, i) == Predict(f, row, prev, bpp, i)
  {
  }

  lemma UndoesDifference(v: byte, p: byte)
    ensures (SChar(v - p) % 256 + p) % 256 == v
  {
  }

  // ---- choosing the filter ----

  /** The estimate the writer minimizes: the sum of the filtered bytes' magnitudes. */
  function Cost(m: Image, y: nat, f: nat, bpp: nat, n: nat): (r: nat)
    requires m.Valid() && y < m.height && f <= 4 && bpp > 0 && n <= m.len
    ensures r <= 128 * n
  {
    if n == 0 then 0 else Cost(m, y, f, bpp, n - 1) + Abs(Filtered(m, y, f, bpp, n - 1))
  }

  /** f is the first of the five filters with the least cost. */
  ghost predicate Best(m: Image, y: nat, bpp: nat, f: nat)
    requires m.Valid() && y < m.height && bpp > 0
  {
    f <= 4 && forall g :: 0 <= g <= 4 ==>
      Cost(m, y, f, bpp, m.len) <= Cost(m, y, g, bpp, m.len)
        && (g < f ==> Cost(m, y, f, bpp, m.len) < Cost(m, y, g, bpp, m.len))
  }

  const INT_MAX: int := 0x7fffffff

  /** The estimate of a row stays an int. It is only computed when no filter is forced. */
  predicate EstimateFits(m: Image) { 128 * m.len < INT_MAX }

  method Estimate(line: array<schar>, ghost m: Image, ghost y: nat, ghost f: nat, ghost bpp: nat) returns (est: nat)
    requires m.Valid() && y < m.height && f <= 4 && bpp > 0 && line.Length == m.len
    requires Holds(line[..], m, y, f, bpp, m.len)
    ensures est == Cost(m, y, f, bpp, m.len)
  {
    est := 0;
    for i := 0 to line.Length
      invariant est == Cost(m, y, f, bpp, i)
    {
      assert line[..][i] == Filtered(m, y, f, bpp, i);
      est := est + Abs(line[i]);
    }
  }

  /** Tries all five filters and encodes the line again with the best. */
  method ChooseFilter(m: Image, y: nat, bpp: nat, line: array<schar>) returns (f: nat)
    requires m.Valid() && y < m.height && 0 < bpp <= m.len && line.Length == m.len && EstimateFits(m)
    modifies line
    ensures Best(m, y, bpp, f) && Holds(line[..], m, y, f, bpp, m.len)
  {
    var best, bestVal := 0, INT_MAX;
    for g := 0 to 5
      invariant 0 <= best <= 4 && (g == 0 ==> bestVal == INT_MAX) && (g > 0 ==> best < g)
      invariant g > 0 ==> bestVal == Cost(m, y, best, bpp, m.len)
      invariant forall h :: 0 <= h < g ==> bestVal <= Cost(m, y, h, bpp, m.len)
      invariant forall h :: 0 <= h < g && h < best ==> bestVal < Cost(m, y, h, bpp, m.len)
    {
      EncodeLine(m, y, bpp, g, line);
      var est := Estimate(line, m, y, g, bpp);
      if est < bestVal {
        bestVal, best := est, g;
      }
    }
    EncodeLine(m, y, bpp, best, line);
    f := best;
  }

  // ---- the whole image ----

  /** What the writer records for one row. */
  datatype Line = Line(filter: nat, bytes: seq<byte>)

  /** lines[k] undoes to row y + k. */
  ghost predicate Encodes(lines: seq<Line>, m: Image, bpp: nat)
    requires m.Valid() && bpp > 0
  {
    |lines| <= m.height && forall k: nat :: k < |lines| ==> EncodesRow(lines[k], m, k, bpp)
  }

  ghost predicate EncodesRow(l: Line, m: Image, y: nat, bpp: nat)
    requires m.Valid() && y < m.height && bpp > 0
  {
    l.filter <= 4 && |l.bytes| == m.len && Unfilter(l.filter, l.bytes, m.Above(y), bpp, m.len) == m.Row(y)
  }

  function Flat(lines: seq<Line>, k: nat): seq<byte>
    requires k <= |lines| && forall i :: 0 <= i < |lines| ==> lines[i].filter <= 4
    decreases |lines| - k
  {
    if k == |lines| then [] else [lines[k].filter] + lines[k].bytes + Flat(lines, k + 1)
  }

  lemma {:induction false} FlatOneMore(lines: seq<Line>, l: Line, k: nat)
    requires k <= |lines| && l.filter <= 4 && forall i :: 0 <= i < |lines| ==> lines[i].filter <= 4
    ensures forall i :: 0 <= i < |lines + [l]| ==> (lines + [l])[i].filter <= 4
    ensures Flat(lines + [l], k) == Flat(lines, k) + ([l.filter] + l.bytes)
    decreases |lines| - k
  {
    if k < |lines| {
      FlatOneMore(lines, l, k + 1);
      ConcatAssoc([lines[k].filter] + lines[k].bytes, Flat(lines, k + 1), [l.filter] + l.bytes);
    } else {
      assert Flat(lines + [l], k + 1) == [];
    }
  }

  function RowsFrom(m: Image, y: nat): (r: seq<seq<byte>>)
    requires m.Valid() && y <= m.height
    ensures |r| == m.height - y && forall k :: 0 <= k < |r| ==> r[k] == m.Row(y + k)
    decreases m.height - y
  {
    if y == m.height then [] else [m.Row(y)] + RowsFrom(m, y + 1)
  }

  lemma {:induction false} RowsRestored(m: Image, bpp: nat, lines: seq<Line>, y: nat)
    requires m.Valid() && bpp > 0 && Encodes(lines, m, bpp) && |lines| == m.height && y <= m.height
    requires forall i :: 0 <= i < |lines| ==> lines[i].filter <= 4
    ensures Rows(Flat(lines, y), m.len, m.height - y, bpp, m.Above(y)) == Some(RowsFrom(m, y))
    decreases m.height - y
  {
    if y < m.height {
      RowsRestored(m, bpp, lines, y + 1);
      assert EncodesRow(lines[y], m, y, bpp);
      RowRestored(m, bpp, lines[y], Flat(lines, y + 1), y, RowsFrom(m, y + 1));
    }
  }

  lemma RowRestored(m: Image, bpp: nat, l: Line, tail: seq<byte>, y: nat, more: seq<seq<byte>>)
    requires m.Valid() && bpp > 0 && y < m.height && EncodesRow(l, m, y, bpp)
    requires Rows(tail, m.len, m.height - y - 1, bpp, m.Above(y + 1)) == Some(more)
    ensures Rows([l.filter] + l.bytes + tail, m.len, m.height - y, bpp, m.Above(y)) == Some([m.Row(y)] + more)
  {
    RowUnfolds(l.filter, l.bytes, tail, m.len, m.height - y, bpp, m.Above(y));
  }

  lemma RowUnfolds(f: byte, line: seq<byte>, tail: seq<byte>, len: nat, height: nat, bpp: nat, prev: seq<byte>)
    requires bpp > 0 && |prev| == len == |line| && f <= 4 && height > 0
    ensures var row := Unfilter(f, line, prev, bpp, len);
            Rows([f] + line + tail, len, height, bpp, prev)
            == match Rows(tail, len, height - 1, bpp, row) case None => None case Some(more) => Some([row] + more)
  {
    var bytes := [f] + line + tail;
    assert bytes[1..len + 1] == line && bytes[len + 1..] == tail && bytes[0] == f;
  }

  lemma {:induction false} FlatSize(lines: seq<Line>, k: nat, len: nat)
    requires k <= |lines| && forall i :: 0 <= i < |lines| ==> lines[i].filter <= 4 && |lines[i].bytes| == len
    ensures |Flat(lines, k)| == (|lines| - k) * (len + 1)
    decreases |lines| - k
  {
    if k < |lines| {
      FlatSize(lines, k + 1, len);
      Distribute(|lines| - k - 1, len + 1);
    }
  }

  /** The recorded filter of row y is the forced one, or the best. */
  ghost predicate Recorded(l: Line, m: Image, y: nat, bpp: nat, forced: int)
    requires m.Valid() && y < m.height && bpp > 0
  {
    if 0 <= forced < 5 then l.filter == forced else Best(m, y, bpp, l.filter)
  }

  lemma LinesOneMore(lines: seq<Line>, l: Line, m: Image, bpp: nat, forced: int)
    requires m.Valid() && bpp > 0 && |lines| < m.height && Encodes(lines, m, bpp) && AllRecorded(lines, m, bpp, forced)
    requires EncodesRow(l, m, |lines|, bpp) && Recorded(l, m, |lines|, bpp, forced)
    ensures Encodes(lines + [l], m, bpp) && AllRecorded(lines + [l], m, bpp, forced)
  {
    forall k: nat | k < |lines| + 1
      ensures EncodesRow((lines + [l])[k], m, k, bpp) && Recorded((lines + [l])[k], m, k, bpp, forced)
    {
      if k < |lines| {
        assert EncodesRow(lines[k], m, k, bpp) && Recorded(lines[k], m, k, bpp, forced);
      }
    }
  }

  method FilterRow(m: Image, y: nat, bpp: nat, forced: int, line: array<schar>) returns (l: Line)
    requires m.Valid() && y < m.height && 0 < bpp <= m.len && line.Length == m.len && forced < 5
    requires forced > -1 || EstimateFits(m)
    modifies line
    ensures l.filter <= 4 && EncodesRow(l, m, y, bpp) && Recorded(l, m, y, bpp, forced)
  {
    var filter;
    if forced > -1 {
      filter := forced;
      EncodeLine(m, y, bpp, forced, line);
    } else {
      filter := ChooseFilter(m, y, bpp, line);
    }
    UnfilterRestores(m, y, filter, bpp, line[..], m.len);
    assert m.Row(y)[..m.len] == m.Row(y);
    l := Line(filter, Unsigned(line[..]));
  }

  ghost predicate AllRecorded(lines: seq<Line>, m: Image, bpp: nat, forced: int)
    requires m.Valid() && bpp > 0
  {
    |lines| <= m.height && forall y: nat :: y < |lines| ==> Recorded(lines[y], m, y, bpp, forced)
  }

  /** The filtered image: per row the filter byte and the filtered bytes, with the filter forced or
      chosen. Undoing the recorded filters gives back every row. */
  method FilterImage(m: Image, bpp: nat, forced: int) returns (filt: seq<byte>, ghost lines: seq<Line>)
    requires m.Valid() && 0 < bpp <= m.len && (0 <= forced < 5 || EstimateFits(m))
    ensures Rows(filt, m.len, m.height, bpp, Zeros(m.len)) == Some(RowsFrom(m, 0))
    ensures |filt| == m.height * (m.len + 1)
    ensures |lines| == m.height && AllRecorded(lines, m, bpp, forced)
  {
    var force := if forced >= 5 then -1 else forced;
    var line := new schar[m.len](_ => 0);
    filt, lines := [], [];
    for j := 0 to m.height
      invariant |lines| == j && Encodes(lines, m, bpp) && AllRecorded(lines, m, bpp, force)
      invariant forall i :: 0 <= i < |lines| ==> lines[i].filter <= 4
      invariant filt == Flat(lines, 0)
    {
      var l := FilterRow(m, j, bpp, force, line);
      FlatOneMore(lines, l, 0);
      LinesOneMore(lines, l, m, bpp, force);
      filt := filt + ([l.filter] + l.bytes);
      lines := lines + [l];
    }
    RowsRestored(m, bpp, lines, 0);
    assert AllRecorded(lines, m, bpp, forced);
    FlatSize(lines, 0, m.len);
  }

  /** The IDAT contents: inflating and then undoing the filters gives the image's rows as written. */
  method WriteImageData(m: Image, bpp: nat, forced: int, quality: nat) returns (zlib: seq<byte>)
    requires m.Valid() && 0 < bpp <= m.len && (0 <= forced < 5 || EstimateFits(m)) && m.height > 0
    ensures exists filt :: Inflate.Decode(zlib) == Some(filt)
                        && Rows(filt, m.len, m.height, bpp, Zeros(m.len)) == Some(RowsFrom(m, 0))
  {
    var filt, lines := FilterImage(m, bpp, forced);
    MulMono(1, m.height, m.len + 1);
    zlib := ZlibCompress.Compress(filt, quality);
  }
}
