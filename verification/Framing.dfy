/** Packets with a four-byte big-endian length in front. */
module Framing {
  import opened Bytes

  const U32: nat := 0x1_0000_0000

  /** binary.BigEndian.PutUint32 */
  function Header(n: nat): (h: seq<byte>)
    ensures |h| == 4
  {
    [(n / 0x100_0000) % 256, (n / 0x1_0000) % 256, (n / 0x100) % 256, n % 256]
  }

  /** binary.BigEndian.Uint32 */
  function Uint32(h: seq<byte>): (n: nat)
    requires |h| == 4
    ensures n < U32
  {
    h[0] as int * 0x100_0000 + h[1] as int * 0x1_0000 + h[2] as int * 0x100 + h[3] as int
  }

  lemma HeaderRoundTrip(n: nat)
    ensures Uint32(Header(n)) == n % U32
  {
    var a, b, c := n / 0x100, n / 0x1_0000, n / 0x100_0000;
    assert a == b * 256 + a % 256 by { assert b == a / 256; }
    assert b == c * 256 + b % 256 by { assert c == b / 256; }
    assert n == a * 256 + n % 256;
    var d := c / 256;
    assert c == d * 256 + c % 256;
    assert n == d * U32 + Uint32(Header(n));
  }

  /** The most significant byte comes first. */
  lemma BigEndian(d: nat)
    requires d < 256
    ensures Header(d) == [0, 0, 0, d] && Header(d * 0x100) == [0, 0, d, 0]
    ensures Header(d * 0x1_0000) == [0, d, 0, 0] && Header(d * 0x100_0000) == [d, 0, 0, 0]
    ensures Uint32([0, 0, 0, d]) == d && Uint32([0, 0, d, 0]) == d * 0x100
    ensures Uint32([0, d, 0, 0]) == d * 0x1_0000 && Uint32([d, 0, 0, 0]) == d * 0x100_0000
  {
  }

  function Pack(bs: seq<byte>): (r: seq<byte>)
    ensures |r| == |bs| + 4
  {
    Header(|bs|) + bs
  }

  datatype Decoded = Incomplete | Packet(body: seq<byte>) | Panic

  /** IsBytesCompleteWith4BytesHeader, with its uint32 arithmetic: a sum that wraps
      makes the slice bounds cross. */
  function Decode(bs: seq<byte>): Decoded {
    if |bs| < 4 then Incomplete
    else
      var end := (4 + Uint32(bs[..4])) % U32;
      if |bs| % U32 < end then Incomplete
      else if end < 4 then Panic
      else Packet(bs[4..end])
  }

  /** On buffered input below 2^32 bytes the decoder panics exactly on a header within
      four of 2^32. */
  lemma PanicIff(bs: seq<byte>)
    requires |bs| < U32
    ensures Decode(bs).Panic? <==> |bs| >= 4 && Uint32(bs[..4]) >= U32 - 4
  {
  }

  /** What the decoder returns is a frame the input starts with. */
  lemma DecodeIsPrefix(bs: seq<byte>)
    requires |bs| < U32 && Decode(bs).Packet?
    ensures var body := Decode(bs).body;
      |body| + 4 <= |bs| && bs[..|body| + 4] == Pack(body)
  {
    hide Header, Uint32;
    var n := Uint32(bs[..4]);
    assert bs[..n + 4] == bs[..4] + bs[4..n + 4];
    HeaderOfUint32(bs[..4]);
  }

  lemma HeaderOfUint32(h: seq<byte>)
    requires |h| == 4
    ensures Header(Uint32(h)) == h
  {
    var n := Uint32(h);
    var two := h[0] as int * 256 + h[1] as int;
    var three := two * 256 + h[2] as int;
    assert n == three * 256 + h[3] as int;
    LowByte(h[0] as int, h[1]);
    LowByte(two, h[2]);
    LowByte(three, h[3]);
    Shifts(n);
  }

  lemma LowByte(q: nat, d: byte)
    ensures (q * 256 + d as int) / 256 == q && (q * 256 + d as int) % 256 == d
  {
  }

  lemma Shifts(n: nat)
    ensures n / 0x1_0000 == n / 256 / 256 && n / 0x100_0000 == n / 256 / 256 / 256
  {
  }

  /** Round trip, whatever follows the frame. */
  lemma PackDecodes(m: seq<byte>, rest: seq<byte>)
    requires |Pack(m) + rest| < U32
    ensures Decode(Pack(m) + rest) == Packet(m)
  {
    hide Header, Uint32;
    var bs := Pack(m) + rest;
    assert bs[..4] == Header(|m|);
    HeaderRoundTrip(|m|);
    assert bs[4..4 + |m|] == m;
  }

  /** A proper prefix of one frame is reported incomplete. */
  lemma PrefixIncomplete(m: seq<byte>, k: nat)
    requires |Pack(m)| < U32 && k < |Pack(m)|
    ensures Decode(Pack(m)[..k]) == Incomplete
  {
    hide Header, Uint32;
    if k >= 4 {
      assert Pack(m)[..k][..4] == Header(|m|);
      HeaderRoundTrip(|m|);
    }
  }

  // ---------- streams ----------

  function PackAll(ms: seq<seq<byte>>): seq<byte> {
    if ms == [] then [] else Pack(ms[0]) + PackAll(ms[1..])
  }

  lemma {:induction false} PackAllAppend(a: seq<seq<byte>>, b: seq<seq<byte>>)
    ensures PackAll(a + b) == PackAll(a) + PackAll(b)
    decreases |a|
  {
    if a == [] {
      assert a + b == b;
    } else {
      assert (a + b)[1..] == a[1..] + b;
      PackAllAppend(a[1..], b);
    }
  }

  /** Decode and retrieve until nothing complete is left. */
  function DecodeAll(bs: seq<byte>): (seq<seq<byte>>, seq<byte>)
    decreases |bs|
  {
    match Decode(bs)
    case Packet(body) =>
      if |body| + 4 <= |bs| then
        var (ms, rest) := DecodeAll(bs[|body| + 4..]);
        ([body] + ms, rest)
      else ([], bs)
    case _ => ([], bs)
  }

  /** Any concatenation of frames decodes to exactly its messages, in order. */
  lemma {:induction false} DecodeAllInvertsPackAll(ms: seq<seq<byte>>)
    requires |PackAll(ms)| < U32
    ensures DecodeAll(PackAll(ms)) == (ms, [])
    decreases |ms|
  {
    hide Decode, Pack;
    if ms == [] {
      NothingIncomplete();
    } else {
      PackDecodes(ms[0], PackAll(ms[1..]));
      DecodeAllInvertsPackAll(ms[1..]);
      var all := PackAll(ms);
      assert all[|ms[0]| + 4..] == PackAll(ms[1..]);
      assert [ms[0]] + ms[1..] == ms;
    }
  }

  lemma NothingIncomplete()
    ensures Decode([]) == Incomplete
  {
  }

  /** The decoder on a prefix of a stream of frames: the first message as soon as its
      frame is there, and nothing before. */
  lemma DecodePrefix(ms: seq<seq<byte>>, q: seq<byte>)
    requires |PackAll(ms)| < U32 && q <= PackAll(ms)
    ensures Decode(q) == if ms != [] && |ms[0]| + 4 <= |q| then Packet(ms[0]) else Incomplete
  {
    hide Decode;
    if ms == [] {
      NothingIncomplete();
    } else {
      var frame := Pack(ms[0]);
      if |frame| <= |q| {
        assert q[..|frame|] == PackAll(ms)[..|frame|] == frame;
        assert q == frame + q[|frame|..];
        PackDecodes(ms[0], q[|frame|..]);
      } else {
        assert q == PackAll(ms)[..|q|] == frame[..|q|];
        PrefixIncomplete(ms[0], |q|);
      }
    }
  }

  lemma PackAllLast(ms: seq<seq<byte>>, m: seq<byte>)
    ensures PackAll(ms + [m]) == PackAll(ms) + Pack(m)
  {
    PackAllAppend(ms, [m]);
    assert PackAll([m]) == Pack(m) + PackAll([]) == Pack(m);
  }

  /** Behind the frames of the first `k` messages come those of the others. */
  lemma PackAllRest(ms: seq<seq<byte>>, k: nat, q: seq<byte>)
    requires k <= |ms| && PackAll(ms[..k]) + q <= PackAll(ms)
    ensures q <= PackAll(ms[k..]) && |PackAll(ms[k..])| <= |PackAll(ms)|
  {
    assert ms == ms[..k] + ms[k..];
    PackAllAppend(ms[..k], ms[k..]);
    PrefixAfter(PackAll(ms[..k]), q, PackAll(ms[k..]));
  }

  lemma PrefixAfter(a: seq<byte>, q: seq<byte>, b: seq<byte>)
    requires a + q <= a + b
    ensures q <= b
  {
    forall i | 0 <= i < |q|
      ensures q[i] == b[i]
    {
      assert (a + q)[|a| + i] == (a + b)[|a| + i];
    }
  }
}
