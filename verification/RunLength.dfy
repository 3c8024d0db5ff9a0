/** Packets of a run-length code, whatever their byte form: one value repeated, or a stretch of values
    copied as they are. */
module RunLength {
  import opened Basics
  import opened Bits

  datatype Packet<T> = Run(len: nat, value: T) | Raw(items: seq<T>)
  {
    function Size(): nat { if Run? then len else |items| }

    function Data(): (r: seq<T>)
      ensures |r| == Size()
    {
      if Run? then Repeat(value, len) else items
    }
  }

  function Repeat<T>(v: T, n: nat): (r: seq<T>)
    ensures |r| == n
  {
    seq(n, _ => v)
  }

  /** What the packets stand for. */
  function Expand<T>(packets: seq<Packet<T>>): seq<T> {
    if packets == [] then [] else packets[0].Data() + Expand(packets[1..])
  }

  /** At least one value, and no more than a header can say. */
  predicate FitsIn<T>(p: Packet<T>, maxRun: nat, maxRaw: nat) {
    1 <= p.Size() <= if p.Run? then maxRun else maxRaw
  }

  predicate Within<T>(packets: seq<Packet<T>>, maxRun: nat, maxRaw: nat) {
    forall i :: 0 <= i < |packets| ==> FitsIn(packets[i], maxRun, maxRaw)
  }

  lemma {:induction false} ExpandOneMore<T>(packets: seq<Packet<T>>, p: Packet<T>)
    ensures Expand(packets + [p]) == Expand(packets) + p.Data()
  {
    if packets == [] {
      assert packets + [p] == [p];
      ExpandOne(p);
    } else {
      ExpandOneMore(packets[1..], p);
      assert (packets + [p])[1..] == packets[1..] + [p];
      ConcatAssoc(packets[0].Data(), Expand(packets[1..]), p.Data());
    }
  }

  lemma ExpandOne<T>(p: Packet<T>)
    ensures Expand([p]) == p.Data()
  {
    assert Expand([p]) == p.Data() + Expand([]);
  }

  // ---- packets as bytes ----

  function Bytes<T(!new)>(encode: Packet<T> -> seq<byte>, packets: seq<Packet<T>>): seq<byte> {
    if packets == [] then [] else encode(packets[0]) + Bytes(encode, packets[1..])
  }

  lemma {:induction false} BytesOneMore<T(!new)>(encode: Packet<T> -> seq<byte>, packets: seq<Packet<T>>, p: Packet<T>)
    ensures Bytes(encode, packets + [p]) == Bytes(encode, packets) + encode(p)
  {
    if packets == [] {
      assert packets + [p] == [p];
      assert Bytes(encode, [p]) == encode(p) + Bytes(encode, []);
    } else {
      BytesOneMore(encode, packets[1..], p);
      assert (packets + [p])[1..] == packets[1..] + [p];
      ConcatAssoc(encode(packets[0]), Bytes(encode, packets[1..]), encode(p));
    }
  }

  // ---- reading packets back ----

  /** What a reader returns: the values and the unread input, or None. After puts values in front. */
  function After<T, U>(values: seq<T>, rest: Option<(seq<T>, seq<U>)>): Option<(seq<T>, seq<U>)> {
    match rest
    case None => None
    case Some((more, unread)) => Some((values + more, unread))
  }

  lemma AfterTwice<T, U>(a: seq<T>, b: seq<T>, rest: Option<(seq<T>, seq<U>)>)
    ensures After(a, After(b, rest)) == After(a + b, rest)
    ensures After([], rest) == rest
  {
    if rest.Some? {
      assert a + (b + rest.value.0) == (a + b) + rest.value.0;
      assert [] + rest.value.0 == rest.value.0;
    }
  }

  /** decode, asked for n values, reads the packet off the front of any input. */
  ghost predicate Reads<T(!new)>(encode: Packet<T> -> seq<byte>,
                                 decode: (seq<byte>, nat) -> Option<(seq<T>, seq<byte>)>,
                                 p: Packet<T>)
  {
    forall tail: seq<byte>, n: nat {:trigger encode(p) + tail, decode(tail, n)} ::
      decode(encode(p) + tail, p.Size() + n) == After(p.Data(), decode(tail, n))
  }

  /** A decoder that reads each packet reads all of them and leaves the rest unread. */
  lemma {:induction false} PacketsDecode<T(!new)>(encode: Packet<T> -> seq<byte>,
                                                  decode: (seq<byte>, nat) -> Option<(seq<T>, seq<byte>)>,
                                                  packets: seq<Packet<T>>, rest: seq<byte>)
    requires decode(rest, 0) == Some(([], rest))
    requires forall i :: 0 <= i < |packets| ==> Reads(encode, decode, packets[i])
    ensures decode(Bytes(encode, packets) + rest, |Expand(packets)|) == Some((Expand(packets), rest))
  {
    if packets == [] {
      assert [] + rest == rest;
    } else {
      var p, more := packets[0], packets[1..];
      PacketsDecode(encode, decode, more, rest);
      FirstPacket(encode, decode, p, Bytes(encode, more) + rest, |Expand(more)|);
      ConcatAssoc(encode(p), Bytes(encode, more), rest);
    }
  }

  lemma FirstPacket<T(!new)>(encode: Packet<T> -> seq<byte>, decode: (seq<byte>, nat) -> Option<(seq<T>, seq<byte>)>,
                             p: Packet<T>, tail: seq<byte>, n: nat)
    requires Reads(encode, decode, p)
    ensures decode(encode(p) + tail, p.Size() + n) == After(p.Data(), decode(tail, n))
  {
  }
}
