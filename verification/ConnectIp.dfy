/**
 CONNECT-IP DATAGRAM framing (`masque/connect_ip.rs`): a Quarter Stream ID and a Context ID,
 both QUIC variable-length integers (section 16 of RFC 9000), then the IP packet.
 */
module ConnectIp {
  import opened Arithmetic
  import opened Bytes

  /** One more than the largest value a variable-length integer can carry. */
  const VARINT_LIMIT: nat := 0x4000_0000_0000_0000

  // ---------------------------------------------------------------- big-endian numbers

  function BigEndian(s: seq<byte>): nat {
    if |s| == 0 then 0 else BigEndian(s[..|s| - 1]) * 256 + s[|s| - 1]
  }

  function Pow256(n: nat): (r: nat)
    ensures r >= 1
  {
    if n == 0 then 1 else 256 * Pow256(n - 1)
  }

  /** The n low-order bytes of v, most significant first. */
  function ToBytes(v: nat, n: nat): (s: seq<byte>)
    ensures |s| == n
  {
    if n == 0 then [] else ToBytes(v / 256, n - 1) + [v % 256]
  }

  lemma {:induction false} FromToBytes(v: nat, n: nat)
    requires v < Pow256(n)
    ensures BigEndian(ToBytes(v, n)) == v
  {
    if n > 0 {
      FromToBytes(v / 256, n - 1);
      assert ToBytes(v, n)[..n - 1] == ToBytes(v / 256, n - 1);
    }
  }

  lemma {:induction false} ToFromBytes(s: seq<byte>)
    ensures BigEndian(s) < Pow256(|s|)
    ensures ToBytes(BigEndian(s), |s|) == s
  {
    if |s| > 0 {
      ToFromBytes(s[..|s| - 1]);
    }
  }

  // ---------------------------------------------------------------- variable-length integers

  predicate IsWidth(w: nat) {
    w == 1 || w == 2 || w == 4 || w == 8
  }

  /** The exponent written in the top two bits of a w-byte integer. */
  function Tag(w: nat): nat
    requires IsWidth(w)
  {
    if w == 1 then 0 else if w == 2 then 1 else if w == 4 then 2 else 3
  }

  function WidthOf(tag: nat): (w: nat)
    requires tag < 4
    ensures IsWidth(w) && Tag(w) == tag
  {
    if tag == 0 then 1 else if tag == 1 then 2 else if tag == 2 then 4 else 8
  }

  /** How many values fit beside the tag in w bytes. */
  function Capacity(w: nat): nat
    requires IsWidth(w)
  {
    if w == 1 then 0x40 else if w == 2 then 0x4000 else if w == 4 then 0x4000_0000 else VARINT_LIMIT
  }

  /** The tag in place: Tag(w) * Capacity(w). */
  function TagOffset(w: nat): nat
    requires IsWidth(w)
  {
    if w == 1 then 0 else if w == 2 then 0x4000 else if w == 4 then 0x8000_0000 else 0xc000_0000_0000_0000
  }

  /** The w-byte encoding of v. Encodings wider than necessary are legal. */
  function Encode(v: nat, w: nat): (s: seq<byte>)
    requires IsWidth(w) && v < Capacity(w)
    ensures |s| == w
  {
    ToBytes(TagOffset(w) + v, w)
  }

  /** The width `put_varint` picks. */
  function MinWidth(v: nat): (w: nat)
    requires v < VARINT_LIMIT
    ensures IsWidth(w) && v < Capacity(w)
    ensures forall u :: IsWidth(u) && v < Capacity(u) ==> w <= u
  {
    if v < 0x40 then 1 else if v < 0x4000 then 2 else if v < 0x4000_0000 then 4 else 8
  }

  /** `get_varint`: the value and the number of bytes consumed, or nothing if the input is short. */
  function GetVarint(s: seq<byte>): (r: Option<(nat, nat)>)
    ensures r.Some? ==> IsWidth(r.value.1) && r.value.1 <= |s| && r.value.0 < Capacity(r.value.1)
  {
    if |s| == 0 then None
    else
      var w := WidthOf(s[0] / 64);
      if |s| < w then None else Some((BigEndian(s[..w]) % Capacity(w), w))
  }

  lemma WidthPowers()
    ensures forall w :: IsWidth(w) ==> Pow256(w) == 4 * Capacity(w)
  {
    assert Pow256(1) == 256 * Pow256(0);
    assert Pow256(2) == 256 * Pow256(1);
    assert Pow256(4) == 256 * Pow256(3) == 65536 * Pow256(2);
    assert Pow256(6) == 256 * Pow256(5) == 65536 * Pow256(4);
    assert Pow256(8) == 256 * Pow256(7) == 65536 * Pow256(6);
  }

  /** The first byte of a number's encoding is its top digit. */
  lemma {:induction false} TopByte(s: seq<byte>)
    requires |s| > 0
    ensures BigEndian(s) / Pow256(|s| - 1) == s[0]
  {
    var n := |s|;
    if n == 1 {
      assert BigEndian(s[..0]) == 0;
    } else {
      TopByte(s[..n - 1]);
      NestedDivision(BigEndian(s[..n - 1]), s[n - 1], Pow256(n - 2));
    }
  }

  lemma NestedDivision(a: nat, low: byte, p: nat)
    requires p >= 1
    ensures (256 * a + low) / (256 * p) == a / p
  {
    var q, r := a / p, a % p;
    assert a == p * q + r;
    assert 256 * a + low == (256 * p) * q + (256 * r + low);
    assert 256 * r + low < 256 * p;
    DivisionUnique(256 * a + low, 256 * p, q, 256 * r + low);
  }

  /** The top two bits of a w-byte number, w being the width they announce, are its tag. */
  lemma TagBits(s: seq<byte>, w: nat)
    requires IsWidth(w) && |s| == w
    ensures BigEndian(s) / Capacity(w) == s[0] / 64
    ensures BigEndian(s) < 4 * Capacity(w)
  {
    TopByte(s);
    ToFromBytes(s);
    WidthPowers();
    var p := Pow256(w - 1);
    assert Capacity(w) == 64 * p by { assert Pow256(w) == 256 * p; }
    NestedQuotient(BigEndian(s), p, s[0]);
  }

  lemma NestedQuotient(n: nat, p: nat, top: byte)
    requires p >= 1 && n / p == top
    ensures n / (64 * p) == top / 64
  {
    var q, r, low := top / 64, top % 64, n % p;
    assert n == p * top + low;
    assert p * top == p * (64 * q) + p * r;
    assert p * (64 * q) == (64 * p) * q;
    assert p * r + low < 64 * p by { ScaledStep(p, r, 64); }
    DivisionUnique(n, 64 * p, q, p * r + low);
  }

  /** Reading back any encoding, whatever follows it. */
  lemma DecodeEncode(v: nat, w: nat, rest: seq<byte>)
    requires IsWidth(w) && v < Capacity(w)
    ensures GetVarint(Encode(v, w) + rest) == Some((v, w))
  {
    var s := Encode(v, w);
    var n := TagOffset(w) + v;
    assert TagOffset(w) == Tag(w) * Capacity(w);
    WidthPowers();
    FromToBytes(n, w);
    TagBits(s, w);
    DivisionUnique(n, Capacity(w), Tag(w), v);
    assert (s + rest)[..w] == s && (s + rest)[0] == s[0];
  }

  /** Whatever decodes is an encoding: the reader accepts nothing else. */
  lemma EncodeDecode(s: seq<byte>)
    requires GetVarint(s).Some?
    ensures var (v, w) := GetVarint(s).value; s == Encode(v, w) + s[w..]
  {
    var (v, w) := GetVarint(s).value;
    var n := BigEndian(s[..w]);
    TagBits(s[..w], w);
    ToFromBytes(s[..w]);
    assert n == Capacity(w) * (n / Capacity(w)) + n % Capacity(w);
    assert n / Capacity(w) == Tag(w);
    assert TagOffset(w) == Tag(w) * Capacity(w);
    assert n == TagOffset(w) + v;
  }

  lemma BigEndianSnoc(s: seq<byte>, b: byte)
    ensures BigEndian(s + [b]) == BigEndian(s) * 256 + b
  {
    assert (s + [b])[..|s|] == s;
  }

  lemma BigEndianTwo(s: seq<byte>, a: byte, b: byte)
    ensures BigEndian(s + [a, b]) == BigEndian(s) * 0x1_0000 + U16(a, b)
  {
    BigEndianSnoc(s, a);
    BigEndianSnoc(s + [a], b);
    assert s + [a] + [b] == s + [a, b];
  }

  lemma TwoBytes(a: byte, b: byte)
    ensures a / 64 == 1 ==> GetVarint([a, b]) == Some((U16(a, b) % 0x4000, 2))
  {
    BigEndianTwo([], a, b);
    assert [a, b][..2] == [] + [a, b];
  }

  lemma OneByte(a: byte)
    ensures a / 64 == 0 ==> GetVarint([a]) == Some((a as int, 1))
    ensures a / 64 != 0 ==> GetVarint([a]).None?
  {
    BigEndianSnoc([], a);
    assert [a][..1] == [] + [a];
  }

  /** The examples of appendix A.1 of RFC 9000. */
  lemma VarintExamples()
    ensures GetVarint([0x25]) == Some((37, 1)) && GetVarint([0x40]).None?
    ensures GetVarint([0x40, 0x25]) == Some((37, 2)) && GetVarint([0x7b, 0xbd]) == Some((15293, 2))
    ensures GetVarint([0x9d, 0x7f, 0x3e, 0x7d]) == Some((494_878_333, 4))
    ensures GetVarint([0xc2, 0x19, 0x7c, 0x5e, 0xff, 0x14, 0xe8, 0x8c]) == Some((151_288_809_941_952_652, 8))
  {
    OneByte(0x25);
    OneByte(0x40);
    TwoBytes(0x40, 0x25);
    TwoBytes(0x7b, 0xbd);
    FourByteExample();
    EightByteExample();
  }

  lemma FourByteExample()
    ensures GetVarint([0x9d, 0x7f, 0x3e, 0x7d]) == Some((494_878_333, 4))
  {
    var s: seq<byte> := [0x9d, 0x7f, 0x3e, 0x7d];
    BigEndianTwo([], 0x9d, 0x7f);
    BigEndianTwo([] + [0x9d, 0x7f], 0x3e, 0x7d);
    assert s[..4] == [] + [0x9d, 0x7f] + [0x3e, 0x7d];
  }

  lemma EightByteExample()
    ensures GetVarint([0xc2, 0x19, 0x7c, 0x5e, 0xff, 0x14, 0xe8, 0x8c]) == Some((151_288_809_941_952_652, 8))
  {
    var s: seq<byte> := [0xc2, 0x19, 0x7c, 0x5e, 0xff, 0x14, 0xe8, 0x8c];
    BigEndianTwo([], 0xc2, 0x19);
    BigEndianTwo([] + [0xc2, 0x19], 0x7c, 0x5e);
    BigEndianTwo([] + [0xc2, 0x19] + [0x7c, 0x5e], 0xff, 0x14);
    BigEndianTwo([] + [0xc2, 0x19] + [0x7c, 0x5e] + [0xff, 0x14], 0xe8, 0x8c);
    assert s[..8] == [] + [0xc2, 0x19] + [0x7c, 0x5e] + [0xff, 0x14] + [0xe8, 0x8c];
  }

  // ---------------------------------------------------------------- the code

  /** `flow_id = stream_id / 4` for a 64-bit stream id, so every flow id can be encoded. */
  function FlowId(streamId: nat): (f: nat)
    requires streamId < 0x1_0000_0000_0000_0000
    ensures 4 * f <= streamId < 4 * f + 4
    ensures f < 0x4000_0000_0000_0000
  {
    streamId / 4
  }

  /** The bytes that precede every IP packet of a flow: its id, then context id zero. */
  function FlowPrefix(flowId: nat): seq<byte>
    requires flowId < VARINT_LIMIT
  {
    Encode(flowId, MinWidth(flowId)) + Encode(0, 1)
  }

  /** `build_flow_prefix`: the integer is written into scratch space, then the context id is pushed. */
  method BuildFlowPrefix(flowId: nat) returns (prefix: seq<byte>)
    requires flowId < VARINT_LIMIT
    ensures prefix == FlowPrefix(flowId) && |prefix| >= 2 && prefix[|prefix| - 1] == 0
  {
    var tmp := new byte[8](_ => 0);
    var len := MinWidth(flowId);
    CopyFromSlice(tmp, 0, Encode(flowId, len));
    prefix := tmp[..len];
    assert prefix == Encode(flowId, len);
    prefix := prefix + [0];
    assert Encode(0, 1) == [0];
  }

  /** The part of `parse_datagram` after the flow id: a zero context id, then at least one byte. */
  function ParseContext(tail: seq<byte>): Option<seq<byte>> {
    match GetVarint(tail)
    case None => None
    case Some((contextId, u)) =>
      if contextId != 0 || u >= |tail| then None else Some(tail[u..])
  }

  /** `parse_datagram`. */
  function ParseDatagram(dgram: seq<byte>, expectedFlowId: nat): Option<seq<byte>> {
    match GetVarint(dgram)
    case None => None
    case Some((flowId, w)) =>
      if flowId != expectedFlowId then None else ParseContext(dgram[w..])
  }

  // ---------------------------------------------------------------- the wire language

  /** A datagram of flow f carrying p, its two integers in any of the legal widths. */
  ghost predicate Frames(dgram: seq<byte>, f: nat, p: seq<byte>, w: nat, u: nat) {
    && IsWidth(w) && f < Capacity(w) && IsWidth(u)
    && p != []
    && dgram == Encode(f, w) + Encode(0, u) + p
  }

  lemma ContextFramed(p: seq<byte>, u: nat)
    requires IsWidth(u) && p != []
    ensures ParseContext(Encode(0, u) + p) == Some(p)
  {
    DecodeEncode(0, u, p);
    assert (Encode(0, u) + p)[u..] == p;
  }

  lemma ContextParsed(tail: seq<byte>) returns (u: nat)
    requires ParseContext(tail).Some?
    ensures IsWidth(u) && tail == Encode(0, u) + ParseContext(tail).value
  {
    u := GetVarint(tail).value.1;
    EncodeDecode(tail);
  }

  lemma FramedIsParsed(dgram: seq<byte>, f: nat, p: seq<byte>, w: nat, u: nat)
    requires Frames(dgram, f, p, w, u)
    ensures ParseDatagram(dgram, f) == Some(p)
  {
    var tail := Encode(0, u) + p;
    Associative(Encode(f, w), Encode(0, u), p);
    DecodeEncode(f, w, tail);
    assert dgram[w..] == tail;
    ContextFramed(p, u);
  }

  lemma ParsedIsFramed(dgram: seq<byte>, f: nat, p: seq<byte>) returns (w: nat, u: nat)
    requires ParseDatagram(dgram, f) == Some(p)
    ensures Frames(dgram, f, p, w, u)
  {
    w := GetVarint(dgram).value.1;
    var tail := dgram[w..];
    EncodeDecode(dgram);
    u := ContextParsed(tail);
    Associative(Encode(f, w), Encode(0, u), p);
  }

  /** The parser yields p exactly for the datagrams that frame p under the expected flow. */
  lemma ParserLanguage(dgram: seq<byte>, f: nat, p: seq<byte>)
    ensures ParseDatagram(dgram, f) == Some(p) <==> exists w: nat, u: nat :: Frames(dgram, f, p, w, u)
  {
    if w: nat, u: nat :| Frames(dgram, f, p, w, u) {
      FramedIsParsed(dgram, f, p, w, u);
    }
    if ParseDatagram(dgram, f) == Some(p) {
      var w, u := ParsedIsFramed(dgram, f, p);
    }
  }

  /** What the tunnel sends, its peer under the same flow id recovers, and nobody else accepts. */
  lemma FramingRoundTrip(f: nat, g: nat, payload: seq<byte>)
    requires f < VARINT_LIMIT
    ensures ParseDatagram(FlowPrefix(f) + payload, g)
            == if f == g && payload != [] then Some(payload) else None
  {
    var w := MinWidth(f);
    var d := FlowPrefix(f) + payload;
    assert Encode(0, 1) == [0];
    assert d == Encode(f, w) + ([0] + payload);
    DecodeEncode(f, w, [0] + payload);
    DecodeEncode(0, 1, payload);
    assert d[w..] == [0] + payload;
    assert ([0] + payload)[1..] == payload;
  }

  /** No other prefix that decodes to the same flow and context is shorter. */
  lemma PrefixIsShortest(dgram: seq<byte>, f: nat, p: seq<byte>)
    requires f < VARINT_LIMIT && ParseDatagram(dgram, f) == Some(p)
    ensures |FlowPrefix(f) + p| <= |dgram|
  {
    ParserLanguage(dgram, f, p);
    var w: nat, u: nat :| Frames(dgram, f, p, w, u);
    assert MinWidth(f) <= w;
  }
}
