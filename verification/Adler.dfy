/** Adler-32: the definition of RFC 1950 section 8.2 and the source's deferred-modulo loop. */
module Adler {
  import opened Basics
  import opened Bits

  const BASE: nat := 65521
  const BLOCK: nat := 5552

  /** (s1, s2) after the bytes of data, reduced after every byte. */
  function Sums(data: seq<byte>): (r: (nat, nat))
    ensures r.0 < BASE && r.1 < BASE
  {
    if data == [] then (1, 0)
    else
      var (s1, s2) := Sums(data[..|data| - 1]);
      var t := (s1 + data[|data| - 1]) % BASE;
      (t, (s2 + t) % BASE)
  }

  /** s2 * 65536 + s1, most significant byte first (RFC 1950 section 2.2). */
  function Trailer(data: seq<byte>): (r: seq<byte>)
    ensures |r| == 4
  {
    var (s1, s2) := Sums(data);
    [s2 / 256, s2 % 256, s1 / 256, s1 % 256]
  }

  /** s1 and s2 are the sums of the first n bytes. */
  ghost predicate SumsTo(data: seq<byte>, n: nat, s1: nat, s2: nat)
    requires n <= |data|
  {
    forall k: nat :: Inspect(k) ==> (s1, s2) == Sums(data[..n])
  }

  lemma TrailerOfSums(data: seq<byte>, s1: nat, s2: nat)
    requires SumsTo(data, |data|, s1, s2)
    ensures Trailer(data) == [s2 / 256 % 256, s2 % 256, s1 / 256 % 256, s1 % 256]
  {
    assert Inspect(0);
    assert data[..|data|] == data;
  }

  /** One byte more: the sums of a longer prefix, from any representatives of the shorter one's. */
  lemma SumsStep(data: seq<byte>, n: nat, s1: nat, s2: nat)
    requires n < |data|
    requires (s1 % BASE, s2 % BASE) == Sums(data[..n])
    ensures ((s1 + data[n]) % BASE, (s2 + (s1 + data[n])) % BASE) == Sums(data[..n + 1])
  {
    var d: nat := data[n];
    assert data[..n + 1][..n] == data[..n] && data[..n + 1][n] == d;
    ModAdd(s1, d);
    ModAdd(s1 + d, s2);
    ModAdd(s2, (s1 + d) % BASE);
  }

  lemma ModAdd(a: nat, b: nat)
    ensures (a + b) % BASE == (a % BASE + b) % BASE
  {
    var c := a % BASE + b;
    DivModUnique(a + b, BASE, a / BASE + c / BASE, c % BASE);
  }

  /** Bound on s2 after k unreduced additions. */
  function S2Bound(k: nat): nat {
    if k == 0 then 65520 else S2Bound(k - 1) + 65520 + 255 * k
  }

  lemma {:induction false} S2BoundClosed(k: nat)
    ensures 2 * S2Bound(k) == 131040 * (k + 1) + 255 * (k * (k + 1))
  {
    if k != 0 {
      S2BoundClosed(k - 1);
      assert k * (k + 1) == (k - 1) * k + 2 * k;
    }
  }

  /** 5552 is small enough: the sums of a block stay below 2^32. */
  lemma S2BoundFits(k: nat)
    requires k <= BLOCK
    ensures S2Bound(k) < 0x1_0000_0000
  {
    S2BoundClosed(k);
    MulMono(k, BLOCK, k + 1);
    MulMono(k + 1, BLOCK + 1, BLOCK);
    assert BLOCK * (BLOCK + 1) == 30830256;
  }

  /** r1 and r2 are the sums after i more bytes behind the first j, and how large they can be. */
  ghost predicate Unreduced(data: seq<byte>, j: nat, i: nat, r1: nat, r2: nat)
    requires j + i <= |data|
  {
    forall k: nat :: Inspect(k) ==>
      r1 <= 65520 + 255 * i && r2 <= S2Bound(i) && (r1 % BASE, r2 % BASE) == Sums(data[..j + i])
  }

  lemma UnreducedFirst(data: seq<byte>, j: nat, s1: nat, s2: nat)
    requires j <= |data| && SumsTo(data, j, s1, s2)
    ensures Unreduced(data, j, 0, s1, s2)
  {
    assert Inspect(0);
  }

  lemma UnreducedNext(data: seq<byte>, j: nat, i: nat, r1: nat, r2: nat)
    requires j + i < |data| && i < BLOCK && Unreduced(data, j, i, r1, r2)
    ensures r1 + data[j + i] < 0x1_0000_0000 && r2 + (r1 + data[j + i]) < 0x1_0000_0000
    ensures Unreduced(data, j, i + 1, r1 + data[j + i], r2 + (r1 + data[j + i]))
  {
    assert Inspect(0);
    S2BoundFits(i + 1);
    SumsStep(data, j + i, r1, r2);
  }

  lemma UnreducedLast(data: seq<byte>, j: nat, i: nat, r1: nat, r2: nat)
    requires j + i <= |data| && Unreduced(data, j, i, r1, r2)
    ensures SumsTo(data, j + i, r1 % BASE, r2 % BASE)
  {
    assert Inspect(0);
  }

  /** The inner loop: blocklen bytes from j, reduced only at its end. s1 and s2 are unsigned 32-bit in the
      source; their type here proves they never wrap. */
  method AddBlock(data: seq<byte>, j: nat, blocklen: nat, s1: uint32, s2: uint32) returns (r1: uint32, r2: uint32)
    requires j + blocklen <= |data| && blocklen <= BLOCK
    requires SumsTo(data, j, s1, s2)
    ensures SumsTo(data, j + blocklen, r1, r2)
  {
    r1, r2 := s1, s2;
    var i := 0;
    UnreducedFirst(data, j, s1, s2);
    while i < blocklen
      invariant 0 <= i <= blocklen && Unreduced(data, j, i, r1, r2)
    {
      UnreducedNext(data, j, i, r1, r2);
      r1 := r1 + data[j + i];
      r2 := r2 + r1;
      i := i + 1;
    }
    UnreducedLast(data, j, blocklen, r1, r2);
    r1, r2 := r1 % BASE, r2 % BASE;
  }

  /** After a block of blocklen a whole number of full blocks is left. */
  predicate Blocks(left: nat, blocklen: nat) {
    blocklen <= BLOCK && (left - blocklen) % BLOCK == 0 && (left < blocklen ==> left == 0)
  }

  lemma FirstBlock(n: nat)
    ensures n % BLOCK <= n && Blocks(n, n % BLOCK)
  {
  }

  lemma NextBlock(left: nat, blocklen: nat)
    requires left > 0 && Blocks(left, blocklen)
    ensures blocklen <= left && Blocks(left - blocklen, BLOCK)
  {
  }

  /** The source's loop: a first block of |data| % 5552 bytes, then blocks of 5552, reducing once
      a block. */
  method Compute(data: seq<byte>) returns (trailer: seq<byte>)
    ensures trailer == Trailer(data)
  {
    var s1: uint32, s2: uint32 := 1, 0;
    var blocklen: nat := |data| % BLOCK;
    var j: nat := 0;
    FirstBlock(|data|);
    assert data[..0] == [];
    while j < |data|
      invariant 0 <= j <= |data| && Blocks(|data| - j, blocklen)
      invariant SumsTo(data, j, s1, s2)
      decreases |data| - j, if blocklen == 0 then 1 else 0
    {
      NextBlock(|data| - j, blocklen);
      s1, s2 := AddBlock(data, j, blocklen, s1, s2);
      j := j + blocklen;
      blocklen := BLOCK;
    }
    TrailerOfSums(data, s1, s2);
    trailer := [s2 / 256 % 256, s2 % 256, s1 / 256 % 256, s1 % 256];
  }
}
