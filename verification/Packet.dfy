/** IP packet checks and the TTL rewrite (`packet.rs`). */
module Packet {
  import opened Bytes
  import opened InternetChecksum

  const IPV4_HEADER_LEN := 20
  const IPV6_HEADER_LEN := 40

  datatype PacketError =
    | Empty
    | UnknownVersion(version: nat)
    | TooShort(shortVersion: nat, len: nat)
    | TtlExpired(ttl: byte)

  datatype Verdict = Accepted(version: nat) | Rejected(error: PacketError)

  function IpVersion(p: seq<byte>): nat
    requires |p| > 0
  {
    p[0] / 16
  }

  /** The bytes `calculate_ipv4_checksum` covers: 4 * IHL of them, or all when the packet is shorter. */
  function HeaderLen(p: seq<byte>): (n: nat)
    requires |p| > 0
    ensures n <= |p| && n <= 60
  {
    var ihl := 4 * (p[0] % 16);
    if ihl <= |p| then ihl else |p|
  }

  /** A header with its checksum field (bytes 10 and 11) read as zero. */
  function Blanked(h: seq<byte>): (r: seq<byte>)
    ensures |r| == |h|
    ensures forall i :: 0 <= i < |h| ==> r[i] == if i == 10 || i == 11 then 0 else h[i]
  {
    seq(|h|, i requires 0 <= i < |h| => if i == 10 || i == 11 then 0 else h[i])
  }

  /** `validate_incoming`. */
  function ValidateIncoming(p: seq<byte>): (v: Verdict)
    ensures v.Accepted? <==> |p| > 0 && ((IpVersion(p) == 4 && |p| >= IPV4_HEADER_LEN)
                                         || (IpVersion(p) == 6 && |p| >= IPV6_HEADER_LEN))
    ensures v.Accepted? ==> v.version == IpVersion(p)
  {
    if |p| == 0 then Rejected(Empty)
    else if IpVersion(p) == 4 then
      if |p| < IPV4_HEADER_LEN then Rejected(TooShort(4, |p|)) else Accepted(4)
    else if IpVersion(p) == 6 then
      if |p| < IPV6_HEADER_LEN then Rejected(TooShort(6, |p|)) else Accepted(6)
    else Rejected(UnknownVersion(IpVersion(p)))
  }

  /** Where each version keeps its hop count. */
  function HopField(version: nat): nat {
    if version == 4 then 8 else 7
  }

  /** The verdict of `prepare_outgoing`: an acceptable packet whose hop count is above one. */
  function OutgoingVerdict(p: seq<byte>): (v: Verdict)
    ensures v.Accepted? ==> v == ValidateIncoming(p) && p[HopField(v.version)] > 1
  {
    var v := ValidateIncoming(p);
    if v.Accepted? && p[HopField(v.version)] <= 1 then Rejected(TtlExpired(p[HopField(v.version)])) else v
  }

  /** What is wrong with a packet, its hop count aside. */
  ghost predicate Malformed(p: seq<byte>, e: PacketError) {
    || (e == Empty && |p| == 0)
    || (e == TooShort(4, |p|) && 0 < |p| < 20 && p[0] / 16 == 4)
    || (e == TooShort(6, |p|) && 0 < |p| < 40 && p[0] / 16 == 6)
    || (|p| > 0 && e == UnknownVersion(p[0] / 16) && p[0] / 16 != 4 && p[0] / 16 != 6)
  }

  /** Which packets the tunnel takes from the network, and what it says of the others. */
  lemma IncomingVerdictIs(p: seq<byte>)
    ensures ValidateIncoming(p).Accepted? <==>
              |p| > 0 && ((p[0] / 16 == 4 && |p| >= 20) || (p[0] / 16 == 6 && |p| >= 40))
    ensures ValidateIncoming(p).Accepted? ==> ValidateIncoming(p).version == p[0] / 16
    ensures ValidateIncoming(p).Rejected? ==> Malformed(p, ValidateIncoming(p).error)
  {
  }

  /** Which packets it uploads, those of a hop count above one, and what it says of the others. */
  lemma OutgoingVerdictIs(p: seq<byte>)
    ensures OutgoingVerdict(p).Accepted? <==>
              |p| > 0 && ((p[0] / 16 == 4 && |p| >= 20 && p[8] > 1) || (p[0] / 16 == 6 && |p| >= 40 && p[7] > 1))
    ensures OutgoingVerdict(p).Accepted? ==> OutgoingVerdict(p).version == p[0] / 16
    ensures OutgoingVerdict(p).Rejected? ==>
              || Malformed(p, OutgoingVerdict(p).error)
              || (|p| >= 20 && p[0] / 16 == 4 && p[8] <= 1 && OutgoingVerdict(p).error == TtlExpired(p[8]))
              || (|p| >= 40 && p[0] / 16 == 6 && p[7] <= 1 && OutgoingVerdict(p).error == TtlExpired(p[7]))
  {
  }

  /**
   The packet `prepare_outgoing` must leave behind, in terms of the RFC 1071 reference checksum:
   one hop less, and for IPv4 the checksum of the header with its field read as zero.
   A rejected packet is left alone.
   */
  function Prepared(p: seq<byte>): (r: seq<byte>)
    ensures |r| == |p|
    ensures OutgoingVerdict(p).Rejected? ==> r == p
  {
    var v := OutgoingVerdict(p);
    if v.Rejected? then p
    else
      var aged := p[HopField(v.version) := p[HopField(v.version)] - 1];
      if v.version == 4
      then Splice(aged, 10, Be16(ChecksumOf(Blanked(aged[..HeaderLen(aged)]))))
      else aged
  }

  // ---------------------------------------------------------------- the code

  /** The sum of a header's words from index i on, the checksum field read as zero. */
  function TailSum(h: seq<byte>, i: nat): nat {
    if i <= |h| then WordSum(Blanked(h)[i..]) else 0
  }

  lemma TailSumStep(h: seq<byte>, i: nat)
    requires i < |h| && i % 2 == 0
    ensures TailSum(h, i) == TailSum(h, i + 2) +
                             if i == 10 then 0 else U16(h[i], if i + 1 < |h| then h[i + 1] else 0)
  {
    var b := Blanked(h);
    if i + 1 < |h| {
      assert b[i..][2..] == b[i + 2..];
    }
  }

  /** The loop of `calculate_ipv4_checksum`, which jumps over the checksum field. */
  method SumHeader(header: seq<byte>, len: nat) returns (sum: nat)
    requires len <= |header| && len <= 60
    ensures sum == WordSum(Blanked(header[..len])) < U32_MODULUS
  {
    ghost var h := header[..len];
    var i: nat := 0;
    sum := 0;
    while i < len
      invariant i % 2 == 0
      invariant sum + TailSum(h, i) == TailSum(h, 0)
      decreases len - i
    {
      TailSumStep(h, i);
      if i == 10 {
        i := i + 2;
        continue;
      }
      var word := if i + 1 < len then U16(header[i], header[i + 1]) else U16(header[i], 0);
      sum := sum + word;
      i := i + 2;
    }
    assert Blanked(h)[0..] == Blanked(h);
    WordSumBound(Blanked(h));
  }

  /**
   `calculate_ipv4_checksum` agrees with the other checksum implementation applied to the same
   bytes with the checksum field zeroed.
   */
  method CalculateIpv4Checksum(header: seq<byte>) returns (c: nat)
    requires |header| > 0
    ensures c == ChecksumOf(Blanked(header[..HeaderLen(header)]))
  {
    var ihl := 4 * (header[0] % 16);
    var sum := SumHeader(header, if ihl <= |header| then ihl else |header|);
    c := FoldAndComplement(sum);
  }

  /** The IPv4 arm of `prepare_outgoing` once the packet is known to be acceptable. */
  method AgeIpv4(buf: array<byte>, lo: nat, hi: nat)
    requires lo <= hi <= buf.Length
    requires OutgoingVerdict(buf[lo..hi]) == Accepted(4)
    modifies buf
    ensures buf[lo..hi] == Prepared(old(buf[lo..hi]))
    ensures buf[..lo] == old(buf[..lo]) && buf[hi..] == old(buf[hi..])
  {
    ghost var p := buf[lo..hi];
    buf[lo + 8] := buf[lo + 8] - 1;
    var aged := buf[lo..hi];
    assert aged == p[8 := p[8] - 1];
    var c := CalculateIpv4Checksum(aged);
    PreparedIpv4(p, aged, c);
    CopyFromSlice(buf, lo + 10, Be16(c));
    assert buf[lo..hi] == Splice(aged, 10, Be16(c));
  }

  lemma PreparedIpv4(p: seq<byte>, aged: seq<byte>, c: nat)
    requires OutgoingVerdict(p) == Accepted(4) && aged == p[8 := p[8] - 1]
    requires c == ChecksumOf(Blanked(aged[..HeaderLen(aged)]))
    ensures |p| >= 12 && Prepared(p) == Splice(aged, 10, Be16(c))
  {
  }

  /** `prepare_outgoing` on the slice buf[lo..hi] of a reusable buffer. */
  method PrepareOutgoing(buf: array<byte>, lo: nat, hi: nat) returns (v: Verdict)
    requires lo <= hi <= buf.Length
    modifies buf
    ensures v == OutgoingVerdict(old(buf[lo..hi]))
    ensures buf[lo..hi] == Prepared(old(buf[lo..hi]))
    ensures buf[..lo] == old(buf[..lo]) && buf[hi..] == old(buf[hi..])
  {
    ghost var p := buf[lo..hi];
    if lo == hi {
      return Rejected(Empty);
    }
    var version := buf[lo] / 16;
    if version == 4 {
      if hi - lo < IPV4_HEADER_LEN {
        return Rejected(TooShort(4, hi - lo));
      }
      var ttl := buf[lo + 8];
      if ttl <= 1 {
        return Rejected(TtlExpired(ttl));
      }
      AgeIpv4(buf, lo, hi);
      v := Accepted(4);
    } else if version == 6 {
      if hi - lo < IPV6_HEADER_LEN {
        return Rejected(TooShort(6, hi - lo));
      }
      var hopLimit := buf[lo + 7];
      if hopLimit <= 1 {
        return Rejected(TtlExpired(hopLimit));
      }
      buf[lo + 7] := hopLimit - 1;
      assert buf[lo..hi] == p[7 := hopLimit - 1];
      v := Accepted(6);
    } else {
      v := Rejected(UnknownVersion(version));
    }
  }

  // ---------------------------------------------------------------- what the rewrite achieves

  /** The IPv4 header a receiver checks: as many words as the IHL says, or all there is. */
  predicate HeaderVerifies(p: seq<byte>)
    requires |p| > 0
  {
    var ihl := 4 * (p[0] % 16);
    Verifies(if ihl <= |p| then p[..ihl] else p)
  }

  /** Only the hop count and, for IPv4, the two checksum bytes change. */
  lemma PreparedFrame(p: seq<byte>, i: nat)
    requires i < |p| && Prepared(p)[i] != p[i]
    ensures OutgoingVerdict(p).Accepted?
    ensures if OutgoingVerdict(p).version == 4 then i in {8, 10, 11} else i == 7
  {
  }

  lemma PreparedAges(p: seq<byte>)
    requires OutgoingVerdict(p).Accepted?
    ensures if p[0] / 16 == 4 then Prepared(p)[8] == p[8] - 1 else Prepared(p)[7] == p[7] - 1
    ensures Prepared(p)[0] == p[0]
    ensures ValidateIncoming(Prepared(p)).Accepted?
  {
  }

  /**
   A rewritten IPv4 packet carries a verifying header exactly when its header length covers the
   checksum field (IHL of three or more), or when the few bytes a shorter IHL covers happened to
   verify before the call: such a range contains neither the TTL nor the checksum.
   */
  lemma PreparedHeaderVerifies(p: seq<byte>)
    requires OutgoingVerdict(p) == Accepted(4)
    ensures HeaderVerifies(Prepared(p)) <==> p[0] % 16 >= 3 || HeaderVerifies(p)
  {
    PreparedRangeVerifies(p);
    HeaderIsRange(p);
    HeaderIsRange(Prepared(p));
  }

  lemma HeaderIsRange(p: seq<byte>)
    requires |p| > 0
    ensures HeaderVerifies(p) <==> Verifies(p[..HeaderLen(p)])
  {
    assert p[..|p|] == p;
  }

  lemma PreparedRangeVerifies(p: seq<byte>)
    requires OutgoingVerdict(p) == Accepted(4)
    ensures var n := HeaderLen(p);
            HeaderLen(Prepared(p)) == n && (Verifies(Prepared(p)[..n]) <==> p[0] % 16 >= 3 || Verifies(p[..n]))
  {
    var aged := p[8 := p[8] - 1];
    var n := HeaderLen(p);
    var c := ChecksumOf(Blanked(aged[..n]));
    var r := Splice(aged, 10, Be16(c));
    assert r == Prepared(p) && HeaderLen(r) == n == HeaderLen(aged);
    if p[0] % 16 >= 3 {
      assert n >= 12;
      var b := Blanked(aged[..n]);
      assert r[..n] == Splice(b, 10, Be16(c));
      StoredFieldVerifies(b, 10);
    } else {
      assert r[..n] == p[..n];
    }
  }

  lemma ShortHeaderSum()
    ensures WordSum([0x41, 0, 0, 0]) == 0x4100
  {
    var h: seq<byte> := [0x41, 0, 0, 0];
    assert h[2..] == [0, 0] && h[2..][2..] == [];
  }

  lemma ShortHeaderFails(p: seq<byte>)
    requires |p| >= 4 && p[..4] == [0x41, 0, 0, 0]
    ensures !HeaderVerifies(p)
  {
    ShortHeaderSum();
    VerifiesIff(p[..4]);
    assert p[0] == p[..4][0];
  }

  /** The shorter-IHL case is real: a packet claiming a 4-byte header leaves with a bad one. */
  lemma ShortIhlBreaksHeader() returns (p: seq<byte>)
    ensures p == [0x41 as byte] + Zeros(7) + [64] + Zeros(11)
    ensures OutgoingVerdict(p) == Accepted(4) && !HeaderVerifies(Prepared(p))
  {
    p := [0x41 as byte] + Zeros(7) + [64] + Zeros(11);
    ShortHeaderFails(p);
    PreparedHeaderVerifies(p);
  }
}
