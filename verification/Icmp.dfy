/** ICMP and ICMPv6 packets composed by the tunnel (`icmp.rs`). */
module Icmp {
  import opened Bytes
  import opened InternetChecksum
  import opened Packet

  const ICMP_HEADER_LEN := 8
  const ICMP_TYPE_ECHO_REQUEST: byte := 8
  const ICMPV6_TYPE_ECHO_REQUEST: byte := 128
  const ECHO_IDENTIFIER: nat := 0x5551
  const ICMP_TYPE_DEST_UNREACHABLE: byte := 3
  const ICMP_CODE_FRAG_NEEDED: byte := 4
  const ICMPV6_TYPE_PACKET_TOO_BIG: byte := 2
  const IPV4_REPLY_MAX := 576
  const IPV6_QUOTE_MAX := 1232

  type Octets4 = s: seq<byte> | |s| == 4 witness [0, 0, 0, 0]
  type Octets16 = s: seq<byte> | |s| == 16 witness [0, 0, 0, 0, 0, 0, 0, 0, 0, 0, 0, 0, 0, 0, 0, 0]

  datatype IpAddr = V4(octets4: Octets4) | V6(octets16: Octets16)

  // ---------------------------------------------------------------- what a valid packet is

  /** An IPv4 header of this shape; the two checksum bytes are judged separately. */
  ghost predicate Ipv4Fields(p: seq<byte>, source: seq<byte>, destination: seq<byte>, ttl: byte) {
    && 28 <= |p| < 0x1_0000
    && p[0] == 0x45 && p[1] == 0
    && U16(p[2], p[3]) == |p|
    && p[4] == p[5] == p[6] == p[7] == 0
    && p[8] == ttl && p[9] == 1
    && p[12..16] == source && p[16..20] == destination
  }

  /** A complete IPv4 packet carrying ICMP whose two checksums a receiver accepts. */
  ghost predicate ValidIpv4Icmp(p: seq<byte>, source: seq<byte>, destination: seq<byte>, ttl: byte) {
    && Ipv4Fields(p, source, destination, ttl)
    && Verifies(p[..20])
    && Verifies(p[20..])
  }

  /** The bytes ICMPv6 sums: the pseudo-header of section 8.1 of RFC 8200, then the message. */
  function PseudoHeader(source: seq<byte>, destination: seq<byte>, icmp: seq<byte>): seq<byte>
    requires |icmp| < 0x1_0000_0000
  {
    source + destination + Be32(|icmp|) + [0, 0, 0, 58] + icmp
  }

  ghost predicate Ipv6Fields(p: seq<byte>, source: seq<byte>, destination: seq<byte>, hopLimit: byte) {
    && 48 <= |p| < 0x1_0000
    && p[0] == 0x60 && p[1] == p[2] == p[3] == 0
    && U16(p[4], p[5]) == |p| - 40
    && p[6] == 58 && p[7] == hopLimit
    && p[8..24] == source && p[24..40] == destination
  }

  /** A complete IPv6 packet carrying ICMPv6 whose pseudo-header checksum a receiver accepts. */
  ghost predicate ValidIpv6Icmp(p: seq<byte>, source: seq<byte>, destination: seq<byte>, hopLimit: byte) {
    && Ipv6Fields(p, source, destination, hopLimit)
    && Verifies(PseudoHeader(source, destination, p[40..]))
  }

  /** The echo header at this offset, type and code first, and nothing after it. */
  predicate EchoHeader(p: seq<byte>, at: nat, kind: byte, sequence: nat) {
    && |p| == at + 8 && p[at] == kind && p[at + 1] == 0
    && U16(p[at + 4], p[at + 5]) == 0x5551 && U16(p[at + 6], p[at + 7]) == sequence
  }

  ghost predicate ValidEcho4(p: seq<byte>, source: Octets4, destination: Octets4, sequence: nat, ttl: byte) {
    ValidIpv4Icmp(p, source, destination, ttl) && EchoHeader(p, 20, 8, sequence)
  }

  ghost predicate ValidEcho6(p: seq<byte>, source: Octets16, destination: Octets16, sequence: nat, hopLimit: byte) {
    ValidIpv6Icmp(p, source, destination, hopLimit) && EchoHeader(p, 40, 128, sequence)
  }

  /** "Fragmentation needed", sent back to the packet's source from its destination. */
  ghost predicate FragNeeded(reply: seq<byte>, packet: seq<byte>, mtu: nat)
    requires |packet| >= 20
  {
    && ValidIpv4Icmp(reply, packet[16..20], packet[12..16], 64)
    && |reply| <= 576
    && (|reply| < 576 ==> |reply| == 28 + |packet|)
    && reply[20] == 3 && reply[21] == 4
    && U16(reply[24], reply[25]) == mtu && U16(reply[26], reply[27]) == 0
    && reply[28..] <= packet
  }

  /** The field section 4 of RFC 1191 reserves for the next-hop MTU. */
  function NextHopMtu(reply: seq<byte>): nat
    requires |reply| >= 28
  {
    U16(reply[26], reply[27])
  }

  /** "Packet too big" (section 3.2 of RFC 4443), within the IPv6 minimum MTU of 1280 bytes. */
  ghost predicate PacketTooBig(reply: seq<byte>, packet: seq<byte>, mtu: nat)
    requires |packet| >= 40
  {
    && ValidIpv6Icmp(reply, packet[24..40], packet[8..24], 64)
    && |reply| <= 1280
    && (|reply| < 1280 ==> |reply| == 48 + |packet|)
    && reply[40] == 2 && reply[41] == 0
    && U16(reply[44], reply[45]) * 0x1_0000 + U16(reply[46], reply[47]) == mtu
    && reply[48..] <= packet
  }

  /** The reply a packet that is too big for a path should get. */
  ghost predicate ReplyTo(reply: seq<byte>, packet: seq<byte>, mtu: nat)
    requires ValidateIncoming(packet).Accepted?
  {
    if IpVersion(packet) == 4 then FragNeeded(reply, packet, mtu) else PacketTooBig(reply, packet, mtu)
  }

  // ---------------------------------------------------------------- the code

  /** Storing the two IPv4 checksums, IP header first. */
  method SealIpv4(out: array<byte>)
    requires IPV4_HEADER_LEN + ICMP_HEADER_LEN <= out.Length <= MAX_SAFE_LEN
    requires out[10] == out[11] == 0 && out[22] == out[23] == 0
    modifies out
    ensures Verifies(out[..IPV4_HEADER_LEN]) && Verifies(out[IPV4_HEADER_LEN..])
    ensures forall i :: 0 <= i < out.Length && i !in {10, 11, 22, 23} ==> out[i] == old(out[i])
  {
    ghost var header, message := out[..IPV4_HEADER_LEN], out[IPV4_HEADER_LEN..];
    var ipChecksum := Checksum(out[..IPV4_HEADER_LEN]);
    CopyFromSlice(out, 10, Be16(ipChecksum));
    assert out[IPV4_HEADER_LEN..] == message;
    var icmpChecksum := Checksum(out[IPV4_HEADER_LEN..]);
    CopyFromSlice(out, 22, Be16(icmpChecksum));
    assert out[..IPV4_HEADER_LEN] == Splice(header, 10, Be16(ipChecksum));
    assert out[IPV4_HEADER_LEN..] == Splice(message, 2, Be16(icmpChecksum));
    StoredFieldVerifies(header, 10);
    StoredFieldVerifies(message, 2);
  }

  /** `icmpv6_checksum`. */
  method Icmpv6Checksum(source: seq<byte>, destination: seq<byte>, icmp: seq<byte>) returns (c: nat)
    requires |source| == |destination| == 16 && |icmp| + 40 <= MAX_SAFE_LEN
    ensures c == ChecksumOf(PseudoHeader(source, destination, icmp))
  {
    var pseudo := source;
    pseudo := pseudo + destination;
    pseudo := pseudo + Be32(|icmp|);
    pseudo := pseudo + [0, 0, 0, 58];
    pseudo := pseudo + icmp;
    c := Checksum(pseudo);
  }

  lemma PseudoHeaderSplice(source: seq<byte>, destination: seq<byte>, icmp: seq<byte>, v: nat)
    requires |source| == |destination| == 16 && 4 <= |icmp| < 0x1_0000_0000 && v < 0x1_0000
    ensures PseudoHeader(source, destination, Splice(icmp, 2, Be16(v)))
            == Splice(PseudoHeader(source, destination, icmp), 42, Be16(v))
  {
    var head := source + destination + Be32(|icmp|) + [0, 0, 0, 58];
    assert |head| == 40;
    SpliceAfter(head, icmp, 2, Be16(v));
  }

  lemma SpliceAfter(head: seq<byte>, tail: seq<byte>, at: nat, field: seq<byte>)
    requires at + |field| <= |tail|
    ensures head + Splice(tail, at, field) == Splice(head + tail, |head| + at, field)
  {
  }

  /** Storing the ICMPv6 checksum. */
  method SealIpv6(out: array<byte>)
    requires IPV6_HEADER_LEN + ICMP_HEADER_LEN <= out.Length < 0x1_0000
    requires out[42] == out[43] == 0
    modifies out
    ensures Verifies(PseudoHeader(old(out[8..24]), old(out[24..40]), out[IPV6_HEADER_LEN..]))
    ensures forall i :: 0 <= i < out.Length && i !in {42, 43} ==> out[i] == old(out[i])
  {
    ghost var source, destination, message := out[8..24], out[24..40], out[IPV6_HEADER_LEN..];
    ghost var pseudo := PseudoHeader(source, destination, message);
    var icmpChecksum := Icmpv6Checksum(out[8..24], out[24..40], out[IPV6_HEADER_LEN..]);
    CopyFromSlice(out, 42, Be16(icmpChecksum));
    assert out[IPV6_HEADER_LEN..] == Splice(message, 2, Be16(icmpChecksum));
    PseudoHeaderSplice(source, destination, message, icmpChecksum);
    assert pseudo[42] == message[2] && pseudo[43] == message[3];
    StoredFieldVerifies(pseudo, 42);
  }

  /** The IPv4 header writes shared by both IPv4 packets: everything but the checksum. */
  method WriteIpv4Header(out: array<byte>, source: seq<byte>, destination: seq<byte>)
    requires IPV4_HEADER_LEN + ICMP_HEADER_LEN <= out.Length < 0x1_0000
    requires forall i :: 0 <= i < out.Length ==> out[i] == 0
    requires |source| == |destination| == 4
    modifies out
    ensures Ipv4Fields(out[..], source, destination, 64) && out[10] == out[11] == 0
    ensures forall i :: IPV4_HEADER_LEN <= i < out.Length ==> out[i] == 0
  {
    out[0] := 0x45;
    CopyFromSlice(out, 2, Be16(out.Length));
    out[8] := 64;
    out[9] := 1;
    CopyFromSlice(out, 12, source);
    CopyFromSlice(out, 16, destination);
    assert out[..][12..16] == source && out[..][16..20] == destination;
  }

  method WriteIpv6Header(out: array<byte>, source: seq<byte>, destination: seq<byte>)
    requires IPV6_HEADER_LEN + ICMP_HEADER_LEN <= out.Length < 0x1_0000
    requires forall i :: 0 <= i < out.Length ==> out[i] == 0
    requires |source| == |destination| == 16
    modifies out
    ensures Ipv6Fields(out[..], source, destination, 64)
    ensures forall i :: IPV6_HEADER_LEN <= i < out.Length ==> out[i] == 0
  {
    out[0] := 0x60;
    CopyFromSlice(out, 4, Be16(out.Length - IPV6_HEADER_LEN));
    out[6] := 58;
    out[7] := 64;
    CopyFromSlice(out, 8, source);
    CopyFromSlice(out, 24, destination);
    assert out[..][8..24] == source && out[..][24..40] == destination;
  }

  /** Fields are untouched by anything that only writes the checksum bytes or the message. */
  lemma Ipv4FieldsKept(p: seq<byte>, q: seq<byte>, source: seq<byte>, destination: seq<byte>, ttl: byte)
    requires Ipv4Fields(p, source, destination, ttl) && |q| == |p|
    requires forall i :: 0 <= i < 20 && i != 10 && i != 11 ==> q[i] == p[i]
    ensures Ipv4Fields(q, source, destination, ttl)
  {
    assert q[12..16] == p[12..16] && q[16..20] == p[16..20];
  }

  lemma Ipv6FieldsKept(p: seq<byte>, q: seq<byte>, source: seq<byte>, destination: seq<byte>, hopLimit: byte)
    requires Ipv6Fields(p, source, destination, hopLimit) && |q| == |p|
    requires forall i :: 0 <= i < 40 ==> q[i] == p[i]
    ensures Ipv6Fields(q, source, destination, hopLimit)
  {
    assert q[8..24] == p[8..24] && q[24..40] == p[24..40];
  }

  /** The ICMP part of a "fragmentation needed" reply, its checksum still zero. */
  ghost predicate FragNeededMessage(m: seq<byte>, quote: seq<byte>, mtuField: seq<byte>) {
    && |m| == ICMP_HEADER_LEN + |quote|
    && m[0] == ICMP_TYPE_DEST_UNREACHABLE && m[1] == ICMP_CODE_FRAG_NEEDED
    && m[4..6] == mtuField && m[6] == m[7] == 0
    && m[8..] == quote
  }

  method WriteFragNeeded(out: array<byte>, mtuField: seq<byte>, quote: seq<byte>)
    requires out.Length == IPV4_HEADER_LEN + ICMP_HEADER_LEN + |quote| && |mtuField| == 2
    requires forall i :: IPV4_HEADER_LEN <= i < out.Length ==> out[i] == 0
    modifies out
    ensures forall i :: 0 <= i < IPV4_HEADER_LEN ==> out[i] == old(out[i])
    ensures out[22] == out[23] == 0 && FragNeededMessage(out[IPV4_HEADER_LEN..], quote, mtuField)
  {
    out[20] := ICMP_TYPE_DEST_UNREACHABLE;
    out[21] := ICMP_CODE_FRAG_NEEDED;
    CopyFromSlice(out, 24, mtuField);
    CopyFromSlice(out, 28, quote);
    assert out[24..26] == mtuField && out[28..] == quote;
    assert out[IPV4_HEADER_LEN..][4..6] == out[24..26] && out[IPV4_HEADER_LEN..][8..] == out[28..];
  }

  /** A message is what it was but for its checksum bytes. */
  lemma FragNeededKept(m: seq<byte>, n: seq<byte>, quote: seq<byte>, mtuField: seq<byte>)
    requires FragNeededMessage(m, quote, mtuField) && |n| == |m|
    requires forall i :: 0 <= i < |m| && i != 2 && i != 3 ==> n[i] == m[i]
    ensures FragNeededMessage(n, quote, mtuField)
  {
    assert n[4..6] == m[4..6] && n[8..] == m[8..];
  }

  lemma FragNeededFrom(reply: seq<byte>, packet: seq<byte>, mtu: nat, quoteLen: nat)
    requires IPV4_HEADER_LEN <= |packet| && quoteLen == (if |packet| <= 548 then |packet| else 548)
    requires ValidIpv4Icmp(reply, packet[16..20], packet[12..16], 64) && mtu < 0x1_0000
    requires FragNeededMessage(reply[IPV4_HEADER_LEN..], packet[..quoteLen], Be16(mtu))
    ensures FragNeeded(reply, packet, mtu) && (NextHopMtu(reply) == mtu <==> mtu == 0)
  {
    var field := reply[IPV4_HEADER_LEN..][4..6];
    assert field[0] == reply[24] && field[1] == reply[25];
    assert reply[28..] == reply[IPV4_HEADER_LEN..][8..];
  }

  /**
   `compose_ipv4_frag_needed`. The MTU goes into bytes 24..26, the half of the word that section 4 of
   RFC 1191 leaves unused: read by the standard, the reply reports its MTU exactly when that is zero.
   */
  method ComposeIpv4FragNeeded(packet: seq<byte>, mtu: nat) returns (r: Option<seq<byte>>)
    requires mtu < 0x1_0000
    ensures r.None? <==> |packet| < IPV4_HEADER_LEN
    ensures r.Some? ==> FragNeeded(r.value, packet, mtu)
    ensures r.Some? ==> (NextHopMtu(r.value) == mtu <==> mtu == 0)
  {
    if |packet| < IPV4_HEADER_LEN {
      return None;
    }
    var src := packet[12..16];
    var dst := packet[16..20];
    var limit := IPV4_REPLY_MAX - (IPV4_HEADER_LEN + ICMP_HEADER_LEN);
    var quoteLen := if |packet| <= limit then |packet| else limit;
    var totalLen := IPV4_HEADER_LEN + ICMP_HEADER_LEN + quoteLen;
    var out := new byte[totalLen](_ => 0);
    WriteIpv4Header(out, dst, src);
    ghost var header := out[..];
    WriteFragNeeded(out, Be16(mtu), packet[..quoteLen]);
    ghost var message := out[IPV4_HEADER_LEN..];
    SealIpv4(out);
    Ipv4FieldsKept(header, out[..], dst, src, 64);
    FragNeededKept(message, out[IPV4_HEADER_LEN..], packet[..quoteLen], Be16(mtu));
    r := Some(out[..]);
    assert r.value[IPV4_HEADER_LEN..] == out[IPV4_HEADER_LEN..] && r.value[..IPV4_HEADER_LEN] == out[..IPV4_HEADER_LEN];
    FragNeededFrom(r.value, packet, mtu, quoteLen);
  }

  /** The ICMPv6 part of a "packet too big" reply, its checksum still zero. */
  ghost predicate PacketTooBigMessage(m: seq<byte>, quote: seq<byte>, mtuField: seq<byte>) {
    && |m| == ICMP_HEADER_LEN + |quote|
    && m[0] == ICMPV6_TYPE_PACKET_TOO_BIG && m[1] == 0
    && m[4..8] == mtuField
    && m[8..] == quote
  }

  method WritePacketTooBig(out: array<byte>, mtuField: seq<byte>, quote: seq<byte>)
    requires out.Length == IPV6_HEADER_LEN + ICMP_HEADER_LEN + |quote| && |mtuField| == 4
    requires forall i :: IPV6_HEADER_LEN <= i < out.Length ==> out[i] == 0
    modifies out
    ensures forall i :: 0 <= i < IPV6_HEADER_LEN ==> out[i] == old(out[i])
    ensures out[42] == out[43] == 0 && PacketTooBigMessage(out[IPV6_HEADER_LEN..], quote, mtuField)
  {
    out[40] := ICMPV6_TYPE_PACKET_TOO_BIG;
    out[41] := 0;
    CopyFromSlice(out, 44, mtuField);
    CopyFromSlice(out, 48, quote);
    assert out[44..48] == mtuField && out[48..] == quote;
    assert out[IPV6_HEADER_LEN..][4..8] == out[44..48] && out[IPV6_HEADER_LEN..][8..] == out[48..];
  }

  lemma PacketTooBigKept(m: seq<byte>, n: seq<byte>, quote: seq<byte>, mtuField: seq<byte>)
    requires PacketTooBigMessage(m, quote, mtuField) && |n| == |m|
    requires forall i :: 0 <= i < |m| && i != 2 && i != 3 ==> n[i] == m[i]
    ensures PacketTooBigMessage(n, quote, mtuField)
  {
    assert n[4..8] == m[4..8] && n[8..] == m[8..];
  }

  lemma PacketTooBigFrom(reply: seq<byte>, packet: seq<byte>, mtu: nat, quoteLen: nat)
    requires IPV6_HEADER_LEN <= |packet| && mtu < 0x1_0000
    requires quoteLen == (if |packet| <= IPV6_QUOTE_MAX then |packet| else IPV6_QUOTE_MAX)
    requires ValidIpv6Icmp(reply, packet[24..40], packet[8..24], 64)
    requires PacketTooBigMessage(reply[IPV6_HEADER_LEN..], packet[..quoteLen], Be32(mtu))
    ensures PacketTooBig(reply, packet, mtu)
  {
    var word := reply[IPV6_HEADER_LEN..][4..8];
    assert word[0] == reply[44] && word[1] == reply[45] && word[2] == reply[46] && word[3] == reply[47];
    assert reply[48..] == reply[IPV6_HEADER_LEN..][8..];
  }

  /** `compose_ipv6_packet_too_big`. */
  method ComposeIpv6PacketTooBig(packet: seq<byte>, mtu: nat) returns (r: Option<seq<byte>>)
    requires mtu < 0x1_0000
    ensures r.None? <==> |packet| < IPV6_HEADER_LEN
    ensures r.Some? ==> PacketTooBig(r.value, packet, mtu)
  {
    if |packet| < IPV6_HEADER_LEN {
      return None;
    }
    var src := packet[8..24];
    var dst := packet[24..40];
    var quoteLen := if |packet| <= IPV6_QUOTE_MAX then |packet| else IPV6_QUOTE_MAX;
    var payloadLen := ICMP_HEADER_LEN + quoteLen;
    var totalLen := IPV6_HEADER_LEN + payloadLen;
    var out := new byte[totalLen](_ => 0);
    WriteIpv6Header(out, dst, src);
    ghost var header := out[..];
    WritePacketTooBig(out, Be32(mtu), packet[..quoteLen]);
    ghost var message := out[IPV6_HEADER_LEN..];
    Ipv6FieldsKept(header, out[..], dst, src, 64);
    assert out[8..24] == out[..][8..24] && out[24..40] == out[..][24..40];
    SealIpv6(out);
    Ipv6FieldsKept(header, out[..], dst, src, 64);
    PacketTooBigKept(message, out[IPV6_HEADER_LEN..], packet[..quoteLen], Be32(mtu));
    r := Some(out[..]);
    assert r.value[IPV6_HEADER_LEN..] == out[IPV6_HEADER_LEN..];
    PacketTooBigFrom(r.value, packet, mtu, quoteLen);
  }

  /** `compose_icmp_too_large`: a reply exists exactly for packets `validate_incoming` accepts. */
  method ComposeIcmpTooLarge(packet: seq<byte>, mtu: nat) returns (r: Option<seq<byte>>)
    requires mtu < 0x1_0000
    ensures r.Some? <==> ValidateIncoming(packet).Accepted?
    ensures r.Some? ==> if IpVersion(packet) == 4 then FragNeeded(r.value, packet, mtu)
                        else PacketTooBig(r.value, packet, mtu)
  {
    if |packet| == 0 {
      return None;
    }
    if packet[0] / 16 == 4 {
      r := ComposeIpv4FragNeeded(packet, mtu);
    } else if packet[0] / 16 == 6 {
      r := ComposeIpv6PacketTooBig(packet, mtu);
    } else {
      r := None;
    }
  }

  /** The IPv4 arm of `compose_echo_request`. */
  method ComposeEcho4(source: Octets4, destination: Octets4, sequence: nat) returns (p: seq<byte>)
    requires sequence < 0x1_0000
    ensures ValidEcho4(p, source, destination, sequence, 64)
  {
    var out := new byte[IPV4_HEADER_LEN + ICMP_HEADER_LEN](_ => 0);
    WriteIpv4Header(out, source, destination);
    ghost var header := out[..];
    out[20] := ICMP_TYPE_ECHO_REQUEST;
    CopyFromSlice(out, 24, Be16(ECHO_IDENTIFIER));
    CopyFromSlice(out, 26, Be16(sequence));
    SealIpv4(out);
    Ipv4FieldsKept(header, out[..], source, destination, 64);
    p := out[..];
    assert p[20..] == out[20..] && p[..20] == out[..20];
  }

  /** The IPv6 arm of `compose_echo_request`. */
  method ComposeEcho6(source: Octets16, destination: Octets16, sequence: nat) returns (p: seq<byte>)
    requires sequence < 0x1_0000
    ensures ValidEcho6(p, source, destination, sequence, 64)
  {
    var out := new byte[IPV6_HEADER_LEN + ICMP_HEADER_LEN](_ => 0);
    WriteIpv6Header(out, source, destination);
    ghost var header := out[..];
    out[40] := ICMPV6_TYPE_ECHO_REQUEST;
    CopyFromSlice(out, 44, Be16(ECHO_IDENTIFIER));
    CopyFromSlice(out, 46, Be16(sequence));
    Ipv6FieldsKept(header, out[..], source, destination, 64);
    assert out[8..24] == out[..][8..24] && out[24..40] == out[..][24..40];
    SealIpv6(out);
    Ipv6FieldsKept(header, out[..], source, destination, 64);
    p := out[..];
    assert p[40..] == out[40..];
  }

  /** `compose_echo_request`: refused exactly for mixed address families. */
  method ComposeEchoRequest(source: IpAddr, destination: IpAddr, sequence: nat) returns (r: Option<seq<byte>>)
    requires sequence < 0x1_0000
    ensures r.None? <==> source.V4? != destination.V4?
    ensures r.Some? && source.V4? ==> ValidEcho4(r.value, source.octets4, destination.octets4, sequence, 64)
    ensures r.Some? && source.V6? ==> ValidEcho6(r.value, source.octets16, destination.octets16, sequence, 64)
  {
    match (source, destination)
    case (V4(s), V4(d)) =>
      var p := ComposeEcho4(s, d, sequence);
      r := Some(p);
    case (V6(s), V6(d)) =>
      var p := ComposeEcho6(s, d, sequence);
      r := Some(p);
    case (_, _) =>
      r := None;
  }

  // ---------------------------------------------------------------- across the two modules

  /** An IPv4 echo request is never refused by the TTL rewrite and leaves it still valid. */
  lemma Echo4SurvivesPrepare(p: seq<byte>, source: Octets4, destination: Octets4, sequence: nat)
    requires ValidEcho4(p, source, destination, sequence, 64)
    ensures OutgoingVerdict(p) == Accepted(4)
    ensures ValidEcho4(Prepared(p), source, destination, sequence, 63)
  {
    var r := Prepared(p);
    PreparedAges(p);
    PreparedHeaderVerifies(p);
    assert forall i :: 0 <= i < |p| && i != 8 && i != 10 && i != 11 ==> r[i] == p[i];
    assert p[..20] == p[..HeaderLen(p)] && r[..20] == r[..HeaderLen(r)];
    assert r[20..] == p[20..];
    assert r[12..16] == p[12..16] && r[16..20] == p[16..20];
  }

  /** The ICMPv6 checksum does not cover the hop limit, so the rewrite cannot break it. */
  lemma Echo6SurvivesPrepare(p: seq<byte>, source: Octets16, destination: Octets16, sequence: nat)
    requires ValidEcho6(p, source, destination, sequence, 64)
    ensures OutgoingVerdict(p) == Accepted(6)
    ensures ValidEcho6(Prepared(p), source, destination, sequence, 63)
  {
    var r := Prepared(p);
    PreparedAges(p);
    assert r == p[7 := 63];
    assert r[40..] == p[40..] && r[8..24] == p[8..24] && r[24..40] == p[24..40];
  }

  /**
   The path of an activation probe: composed as an echo request, then rewritten in place on its way
   out. The rewrite cannot refuse it, and what leaves is still a valid echo request, one hop older.
   */
  method PrepareProbe(source: IpAddr, destination: IpAddr, sequence: nat) returns (r: Option<seq<byte>>)
    requires sequence < 0x1_0000
    ensures r.None? <==> source.V4? != destination.V4?
    ensures r.Some? && source.V4? ==> ValidEcho4(r.value, source.octets4, destination.octets4, sequence, 63)
    ensures r.Some? && source.V6? ==> ValidEcho6(r.value, source.octets16, destination.octets16, sequence, 63)
  {
    var probe := ComposeEchoRequest(source, destination, sequence);
    if probe.None? {
      return None;
    }
    if source.V4? {
      Echo4SurvivesPrepare(probe.value, source.octets4, destination.octets4, sequence);
    } else {
      Echo6SurvivesPrepare(probe.value, source.octets16, destination.octets16, sequence);
    }
    var p := probe.value;
    var buf := new byte[|p|](i requires 0 <= i < |p| => p[i]);
    assert buf[0..|p|] == p;
    var v := PrepareOutgoing(buf, 0, |p|);
    assert v.Accepted?;
    r := Some(buf[0..|p|]);
  }
}
