/** Radiance colours, three mantissas under one exponent: the writer's conversion from linear components
    and the reader's way back, in exact arithmetic. */
module HdrColor {
  import opened Basics
  import opened Bits

  datatype Linear = Linear(r: real, g: real, b: real) {
    function Max(): real {
      var gb := if g > b then g else b;
      if r > gb then r else gb
    }
  }

  datatype Rgbe = Rgbe(r: byte, g: byte, b: byte, e: byte) {
    function Component(c: nat): byte
      requires c < 4
    {
      if c == 0 then r else if c == 1 then g else if c == 2 then b else e
    }
  }

  /** 1e-32: a colour below it is written as black. */
  const TINY: real := 0.00000000000000000000000000000001

  // ---- powers of two ----

  /** ldexp: c times 2 to the power k. */
  function Ldexp(c: real, k: int): real
    decreases if k >= 0 then k else -k
  {
    if k == 0 then c else if k > 0 then 2.0 * Ldexp(c, k - 1) else Ldexp(c, k + 1) / 2.0
  }

  function Two(k: int): real { Ldexp(1.0, k) }

  lemma LdexpNext(c: real, k: int)
    ensures Ldexp(c, k + 1) == 2.0 * Ldexp(c, k)
  {
  }

  lemma {:induction false} LdexpOrder(a: real, b: real, k: int)
    ensures a <= b <==> Ldexp(a, k) <= Ldexp(b, k)
    decreases if k >= 0 then k else -k
  {
    if k > 0 {
      LdexpOrder(a, b, k - 1);
    } else if k < 0 {
      LdexpOrder(a, b, k + 1);
    }
  }

  lemma {:induction false} LdexpAdd(a: real, b: real, k: int)
    ensures Ldexp(a + b, k) == Ldexp(a, k) + Ldexp(b, k)
    decreases if k >= 0 then k else -k
  {
    if k > 0 {
      LdexpAdd(a, b, k - 1);
    } else if k < 0 {
      LdexpAdd(a, b, k + 1);
    }
  }

  lemma LdexpZero(k: int)
    ensures Ldexp(0.0, k) == 0.0
  {
    LdexpAdd(0.0, 0.0, k);
  }

  lemma {:induction false} LdexpTwice(c: real, j: int, k: int)
    ensures Ldexp(Ldexp(c, j), k) == Ldexp(c, j + k)
    decreases if k >= 0 then k else -k
  {
    if k > 0 {
      LdexpTwice(c, j, k - 1);
      LdexpNext(c, j + k - 1);
    } else if k < 0 {
      LdexpTwice(c, j, k + 1);
      LdexpNext(c, j + k);
    }
  }

  lemma {:induction false} LdexpIsTimes(c: real, k: int)
    ensures Ldexp(c, k) == c * Two(k)
    decreases if k >= 0 then k else -k
  {
    if k > 0 {
      LdexpIsTimes(c, k - 1);
      TwiceTimes(c, Two(k - 1));
    } else if k < 0 {
      LdexpIsTimes(c, k + 1);
      TwiceTimes(c, Two(k));
    }
  }

  lemma TwiceTimes(a: real, b: real)
    ensures a * (2.0 * b) == 2.0 * (a * b)
  {
  }

  lemma {:induction false} TwoMono(a: int, b: int)
    requires a <= b
    ensures 0.0 < Two(a) <= Two(b)
    decreases b - a
  {
    if a < b {
      TwoMono(a, b - 1);
      LdexpNext(1.0, b - 1);
    } else {
      LdexpOrder(1.0, 0.0, a);
      LdexpZero(a);
    }
  }

  lemma EightBits()
    ensures Two(8) == 256.0 && Two(7) == 128.0 && Two(0) == 1.0
  {
  }

  /** The exponents of colours that are not written as black fit the exponent byte from below. */
  lemma SmallestExponent()
    ensures Two(-128) < TINY
  {
    Squared(-8, 0.004);
    Squared(-16, 0.00002);
    Squared(-32, 0.000000001);
    Squared(-64, 0.00000000000000001);
  }

  lemma Squared(k: int, bound: real)
    requires bound > 0.0 && Two(k) <= bound
    ensures Two(2 * k) <= bound * Two(k)
  {
    LdexpTwice(1.0, k, k);
    LdexpOrder(Two(k), bound, k);
    LdexpIsTimes(bound, k);
  }

  // ---- frexp ----

  lemma HalfFloor(y: real)
    requires y >= 1.0
    ensures (y / 2.0).Floor < y.Floor
  {
  }

  lemma Reciprocal(x: real)
    requires 0.0 < x < 0.5
    ensures 1.0 / (2.0 * x) == (1.0 / x) / 2.0 && 1.0 / x >= 2.0
  {
    var y := 1.0 / x;
    assert x * y == 1.0;
  }

  /** The exponent frexp gives: x is between a half and one times 2 to that power. */
  function Exponent(x: real): (e: int)
    requires x > 0.0
    ensures Two(e - 1) <= x < Two(e)
    decreases if x >= 1.0 then x.Floor else if x >= 0.5 then 0 else (1.0 / x).Floor
  {
    if x >= 1.0 then
      HalfFloor(x);
      var e := Exponent(x / 2.0);
      LdexpNext(1.0, e - 1);
      LdexpNext(1.0, e);
      e + 1
    else if x < 0.5 then
      Reciprocal(x);
      HalfFloor(1.0 / x);
      var e := Exponent(2.0 * x);
      LdexpNext(1.0, e - 1);
      LdexpNext(1.0, e - 2);
      e - 1
    else
      assert Two(-1) == Two(0) / 2.0;
      0
  }

  method Frexp(x: real) returns (mantissa: real, exponent: int)
    requires x > 0.0
    ensures exponent == Exponent(x) && mantissa == Ldexp(x, -exponent) && 0.5 <= mantissa < 1.0
  {
    exponent := Exponent(x);
    mantissa := Ldexp(x, -exponent);
    LdexpOrder(Two(exponent - 1), x, -exponent);
    LdexpOrder(Two(exponent), x, -exponent);
    LdexpTwice(1.0, exponent - 1, -exponent);
    LdexpTwice(1.0, exponent, -exponent);
  }

  // ---- the writer ----

  /** C's conversion of a nonnegative value, or of one above -1, to unsigned char. */
  function UCharOf(v: real): byte
    requires -1.0 < v < 256.0
  {
    if v < 0.0 then 0 else v.Floor
  }

  /** The values C can convert: a component may be negative, but not so far below zero that the
      conversion of its scaled value to unsigned char is undefined. */
  ghost predicate Convertible(l: Linear) {
    l.Max() < TINY
    || (Scalable(l.r, Exponent(l.Max())) && Scalable(l.g, Exponent(l.Max())) && Scalable(l.b, Exponent(l.Max())))
  }

  predicate Scalable(c: real, e: int) { Ldexp(c, 8 - e) > -1.0 }

  /** The scale puts the largest component between 128 and 256. */
  lemma ScaledBelow(c: real, max: real)
    requires 0.0 < max && c <= max
    ensures Ldexp(c, 8 - Exponent(max)) < 256.0 && (c == max ==> Ldexp(c, 8 - Exponent(max)) >= 128.0)
  {
    var e := Exponent(max);
    EightBits();
    LdexpOrder(c, max, 8 - e);
    LdexpOrder(Two(e), max, 8 - e);
    LdexpTwice(1.0, e, 8 - e);
    LdexpOrder(Two(e - 1), max, 8 - e);
    LdexpTwice(1.0, e - 1, 8 - e);
  }

  function Scaled(c: real, max: real): byte
    requires 0.0 < max && c <= max && Scalable(c, Exponent(max))
  {
    ScaledBelow(c, max);
    UCharOf(Ldexp(c, 8 - Exponent(max)))
  }

  /** What stbiw__linear_to_rgbe gives. The exponent byte wraps. */
  function ToRgbe(l: Linear): Rgbe
    requires Convertible(l)
  {
    var max := l.Max();
    if max < TINY then Rgbe(0, 0, 0, 0)
    else Rgbe(Scaled(l.r, max), Scaled(l.g, max), Scaled(l.b, max), (Exponent(max) + 128) % 256)
  }

  /** Its code: multiplying by frexp's mantissa, times 256, over the maximum shifts by a power of two. */
  method LinearToRgbe(l: Linear) returns (q: Rgbe)
    requires Convertible(l)
    ensures q == ToRgbe(l)
  {
    var max := l.Max();
    if max < TINY {
      q := Rgbe(0, 0, 0, 0);
    } else {
      var mantissa, exponent := Frexp(max);
      var normalize := mantissa * 256.0 / max;
      NormalizeIsPower(max, mantissa, normalize, exponent);
      var r := Normalized(l.r, max, normalize);
      var g := Normalized(l.g, max, normalize);
      var b := Normalized(l.b, max, normalize);
      q := Rgbe(r, g, b, (exponent + 128) % 256);
    }
  }

  method Normalized(c: real, max: real, normalize: real) returns (v: byte)
    requires 0.0 < max && c <= max && Scalable(c, Exponent(max)) && normalize == Two(8 - Exponent(max))
    ensures v == Scaled(c, max)
  {
    var scaled := Product(c, normalize, 8 - Exponent(max));
    ScaledBelow(c, max);
    v := UCharOf(scaled);
  }

  method Product(c: real, power: real, ghost k: int) returns (p: real)
    requires power == Two(k)
    ensures p == Ldexp(c, k)
  {
    LdexpIsTimes(c, k);
    p := c * power;
  }

  lemma NormalizeIsPower(max: real, mantissa: real, normalize: real, e: int)
    requires max > 0.0 && mantissa == Ldexp(max, -e) && normalize == mantissa * 256.0 / max
    ensures normalize == Two(8 - e)
  {
    LdexpTwice(max, -e, 8);
    LdexpIsTimes(mantissa, 8);
    LdexpIsTimes(max, 8 - e);
    EightBits();
    QuotientIs(mantissa * 256.0, max, Two(8 - e));
  }

  lemma QuotientIs(v: real, max: real, n: real)
    requires max > 0.0 && v == max * n
    ensures v / max == n
  {
  }

  // ---- the reader ----

  /** What stbi__hdr_convert gives for three components. */
  function ToLinear(q: Rgbe): Linear {
    if q.e == 0 then Linear(0.0, 0.0, 0.0)
    else Linear(Ldexp(q.r as real, q.e - 136), Ldexp(q.g as real, q.e - 136), Ldexp(q.b as real, q.e - 136))
  }

  /** Its code. */
  method HdrConvert(q: Rgbe) returns (l: Linear)
    ensures l == ToLinear(q)
  {
    if q.e == 0 {
      l := Linear(0.0, 0.0, 0.0);
    } else {
      var f1 := Ldexp(1.0, q.e - (128 + 8));
      var r := Product(q.r as real, f1, q.e - 136);
      var g := Product(q.g as real, f1, q.e - 136);
      var b := Product(q.b as real, f1, q.e - 136);
      l := Linear(r, g, b);
    }
  }

  // ---- the way there and back ----

  /** Component c came back less than unit away, and not above itself unless it was negative. */
  predicate Near(c: real, back: real, unit: real) {
    (c >= 0.0 ==> back <= c < back + unit) && (c < 0.0 ==> back == 0.0 && -unit < c)
  }

  /** Black for black; else each component to within a 128th of the largest. */
  ghost predicate Kept(l: Linear, back: Linear) {
    if l.Max() < TINY then back == Linear(0.0, 0.0, 0.0)
    else
      var unit := l.Max() / 128.0;
      Near(l.r, back.r, unit) && Near(l.g, back.g, unit) && Near(l.b, back.b, unit)
  }

  lemma ScaledBack(c: real, max: real)
    requires 0.0 < max && c <= max && Scalable(c, Exponent(max))
    ensures Near(c, Ldexp(Scaled(c, max) as real, Exponent(max) - 8), max / 128.0)
  {
    var e := Exponent(max);
    ScaledBelow(c, max);
    LdexpTwice(c, 8 - e, e - 8);
    BackBy(c, Ldexp(c, 8 - e), Scaled(c, max), e - 8);
    UnitIsSmall(max);
  }

  /** Truncating w and shifting back. */
  lemma BackBy(c: real, w: real, v: byte, k: int)
    requires -1.0 < w < 256.0 && v == UCharOf(w) && c == Ldexp(w, k)
    ensures Near(c, Ldexp(v as real, k), Two(k))
  {
    LdexpZero(k);
    LdexpOrder(w, 0.0, k);
    LdexpOrder(0.0, w, k);
    LdexpOrder(v as real, w, k);
    LdexpOrder(v as real + 1.0, w, k);
    LdexpAdd(v as real, 1.0, k);
    LdexpOrder(w, -1.0, k);
    LdexpAdd(-1.0, 1.0, k);
  }

  lemma UnitIsSmall(max: real)
    requires max > 0.0
    ensures Two(Exponent(max) - 8) <= max / 128.0
  {
    var e := Exponent(max);
    EightBits();
    LdexpTwice(1.0, e - 8, 7);
    LdexpIsTimes(Two(e - 8), 7);
  }

  lemma ExponentFits(max: real)
    requires max >= TINY
    ensures -128 < Exponent(max) && (max < Two(127) ==> Exponent(max) <= 127)
    ensures Two(127) <= max < Two(128) ==> Exponent(max) == 128
  {
    var e := Exponent(max);
    SmallestExponent();
    if e <= -128 {
      TwoMono(e, -128);
    }
    if e >= 128 {
      TwoMono(127, e - 1);
    }
    if e >= 129 {
      TwoMono(128, e - 1);
    }
    if e <= 127 {
      TwoMono(e, 127);
    }
  }

  lemma ColourComesBack(l: Linear)
    requires Convertible(l) && l.Max() < Two(127)
    ensures Kept(l, ToLinear(ToRgbe(l)))
  {
    var max := l.Max();
    if max >= TINY {
      ExponentFits(max);
      assert ToRgbe(l).e == Exponent(max) + 128;
      ScaledBack(l.r, max);
      ScaledBack(l.g, max);
      ScaledBack(l.b, max);
    }
  }

  /** Over the range of a float, colours come back if and only if they are below 2^127: from there on
      the exponent byte wraps to 0 and the colour is read as black. */
  lemma ColourKept(l: Linear)
    requires Convertible(l) && l.Max() < Two(128)
    ensures Kept(l, ToLinear(ToRgbe(l))) <==> l.Max() < Two(127)
  {
    if l.Max() < Two(127) {
      ColourComesBack(l);
    } else {
      TwoMono(0, 127);
      ExponentFits(l.Max());
    }
  }

  /** The reader tells a pixel from the start of a run-length coded scanline, 2, 2 and a byte below 128,
      because one of a written pixel's components is 128 or more. */
  lemma NeverAHeader(l: Linear)
    requires Convertible(l)
    ensures var q := ToRgbe(l); !(q.r == 2 && q.g == 2 && q.b < 128)
  {
    if l.Max() >= TINY {
      ScaledBelow(l.r, l.Max());
      ScaledBelow(l.g, l.Max());
      ScaledBelow(l.b, l.Max());
    }
  }
}
