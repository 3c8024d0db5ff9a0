/** Facts about sequences and products that every part of the model uses. */
module Basics {
  datatype Option<+T> = None | Some(value: T)

  /** Always true. A claim put as "for every k with Inspect(k)" is the claim itself, but a proof takes it
      apart only where it mentions Inspect. Loops carry their large invariants in that form. */
  predicate Inspect(k: nat) { true }

  // ---- sequences ----

  lemma ConcatAssoc<T>(a: seq<T>, b: seq<T>, c: seq<T>)
    ensures (a + b) + c == a + (b + c)
  {
  }

  lemma ConcatFour<T>(a: seq<T>, b: seq<T>, c: seq<T>, d: seq<T>)
    ensures ((a + b) + c) + d == a + (b + (c + d))
  {
  }

  /** s with position i erased. */
  function Without<T>(s: seq<T>, i: nat): (r: seq<T>)
    requires i < |s|
    ensures |r| == |s| - 1
  {
    seq(|s| - 1, k requires 0 <= k < |s| - 1 => if k < i then s[k] else s[k + 1])
  }

  lemma WithoutSlices<T>(s: seq<T>, i: nat)
    requires i < |s|
    ensures Without(s, i) == s[..i] + s[i + 1..]
  {
  }

  lemma WithoutOne<T>(s: seq<T>, i: nat)
    requires i < |s|
    ensures multiset(Without(s, i)) + multiset{s[i]} == multiset(s)
  {
    WithoutSlices(s, i);
    assert s == s[..i] + [s[i]] + s[i + 1..];
  }

  // ---- products and division ----

  lemma MulMono(x: int, y: int, z: int)
    requires x <= y && 0 <= z
    ensures x * z <= y * z
  {
  }

  lemma Distribute(k: int, x: int)
    ensures (k + 1) * x == k * x + x
  {
  }

  lemma DivModUnique(v: int, d: int, q: int, r: int)
    requires d > 0 && v == q * d + r && 0 <= r < d
    ensures v / d == q && v % d == r
  {
    var k := v / d - q;
    assert v == v / d * d + v % d;
    assert k * d == r - v % d;
    assert k >= 1 ==> k * d >= d;
    assert k <= -1 ==> k * d <= -d;
  }

  // ---- going round ----

  /** The index d places after c, going round n of them. */
  function Around(c: nat, d: nat, n: nat): (pe: nat)
    requires c < n && d <= n
    ensures pe < n
  {
    if c + d < n then c + d else c + d - n
  }

  lemma AroundNext(c: nat, d: nat, n: nat)
    requires c < n && d < n
    ensures (Around(c, d, n) + 1) % n == Around(c, d + 1, n)
  {
    if Around(c, d, n) + 1 < n {
      SmallMod(Around(c, d, n) + 1, n);
    } else {
      SelfMod(n);
    }
  }

  lemma SmallMod(x: nat, n: nat)
    requires x < n
    ensures x % n == x
  {
  }

  lemma SelfMod(n: nat)
    requires n > 0
    ensures n % n == 0
  {
  }

  /** Going all the way round visits every index. */
  lemma AroundAll(c: nat, n: nat, pe: nat)
    requires c < n && pe < n
    ensures exists d: nat :: d < n && Around(c, d, n) == pe
  {
    assert Around(c, if pe >= c then pe - c else pe + n - c, n) == pe;
  }
}
