/** The path of a single packet outside the pump (`masque.rs: send_packet_datagram`). */
module OnePacket {
  import opened Bytes
  import opened Packet
  import opened Icmp
  import opened ConnectIp

  const MAX_TRIES: nat := 512

  /**
   What one try meets: whether quiche's DATAGRAM queue is full, whether quiche takes the datagram if
   it is not, and whether the I/O made while it is full goes well and leaves the connection open.
   */
  datatype Try = Try(full: bool, takes: bool, flushed: bool, drained: bool, closed: bool, received: bool)

  /** The answers for one packet: the writable length, if any is known, and those of each try. */
  datatype Answers = Answers(writable: Option<nat>, tries: nat -> Try)

  /** How it ends: `Ok(true)` with the datagram quiche took, `Ok(false)` or an error. */
  datatype SendEnd = Queued(dgram: seq<byte>) | Dropped | Broken

  /** The wait for queue space goes well. */
  predicate WaitsOn(t: Try) {
    t.flushed && t.drained && !t.closed && t.received
  }

  /** The tries from `attempt` on. */
  function EndFrom(dgram: seq<byte>, tries: nat -> Try, attempt: nat): SendEnd
    decreases MAX_TRIES - attempt
  {
    if attempt >= MAX_TRIES then Dropped
    else if !tries(attempt).full then (if tries(attempt).takes then Queued(dgram) else Dropped)
    else if WaitsOn(tries(attempt)) then EndFrom(dgram, tries, attempt + 1)
    else Broken
  }

  /** The datagram does not fit the path. */
  predicate TooLong(prefix: seq<byte>, p: seq<byte>, writable: Option<nat>) {
    writable.Some? && |prefix| + |p| > writable.value
  }

  function EndOf(prefix: seq<byte>, p: seq<byte>, a: Answers): SendEnd {
    if OutgoingVerdict(p).Rejected? || TooLong(prefix, p, a.writable) then Dropped
    else EndFrom(prefix + Prepared(p), a.tries, 0)
  }

  // ---------------------------------------------------------------- when it succeeds

  /** Every try before the n-th finds the queue full and gets through its wait. */
  ghost predicate StillFull(tries: nat -> Try, from: nat, n: nat) {
    forall i :: from <= i < n ==>
      && tries(i).full && tries(i).flushed && tries(i).drained && !tries(i).closed && tries(i).received
  }

  /** A try within the limit finds room, before any failure, and quiche takes the datagram. */
  ghost predicate RoomInTime(tries: nat -> Try, from: nat) {
    exists n :: from <= n < 512 && StillFull(tries, from, n) && !tries(n).full && tries(n).takes
  }

  /** The wait fails at some try within the limit, all before it having found the queue full. */
  ghost predicate FailsInTime(tries: nat -> Try, from: nat) {
    exists n :: from <= n < 512 && StillFull(tries, from, n) && tries(n).full &&
                (!tries(n).flushed || !tries(n).drained || tries(n).closed || !tries(n).received)
  }

  lemma StillFullFrom(tries: nat -> Try, from: nat, n: nat)
    requires from < n && tries(from).full && WaitsOn(tries(from))
    ensures StillFull(tries, from, n) <==> StillFull(tries, from + 1, n)
  {
  }

  lemma {:induction false} EndFromIff(dgram: seq<byte>, tries: nat -> Try, from: nat)
    requires from <= MAX_TRIES
    ensures EndFrom(dgram, tries, from).Queued? <==> RoomInTime(tries, from)
    ensures EndFrom(dgram, tries, from).Broken? <==> FailsInTime(tries, from)
    ensures EndFrom(dgram, tries, from).Queued? ==> EndFrom(dgram, tries, from).dgram == dgram
    decreases MAX_TRIES - from
  {
    if from < MAX_TRIES {
      if tries(from).full && WaitsOn(tries(from)) {
        EndFromIff(dgram, tries, from + 1);
        forall n | from < n ensures StillFull(tries, from, n) <==> StillFull(tries, from + 1, n) {
          StillFullFrom(tries, from, n);
        }
      } else {
        assert StillFull(tries, from, from);
      }
    }
  }

  /**
   A packet reaches quiche exactly if it can be aged, its datagram fits the path, and within 512 tries
   and before any failure the queue has room and quiche takes it. An error is a wait that fails; in
   every other case the packet is counted as dropped.
   */
  lemma ReachesQuicheIff(prefix: seq<byte>, p: seq<byte>, a: Answers)
    ensures var sendable := OutgoingVerdict(p).Accepted? && (a.writable.None? || |prefix| + |p| <= a.writable.value);
            && (EndOf(prefix, p, a).Queued? <==> sendable && RoomInTime(a.tries, 0))
            && (EndOf(prefix, p, a).Broken? <==> sendable && FailsInTime(a.tries, 0))
    ensures EndOf(prefix, p, a).Queued? ==> EndOf(prefix, p, a).dgram == prefix + Prepared(p)
  {
    EndFromIff(prefix + Prepared(p), a.tries, 0);
  }

  /** What quiche was given parses back, under the same flow id, to the packet one hop older. */
  lemma PeerRecoversPacket(flowId: nat, p: seq<byte>, a: Answers)
    requires flowId < VARINT_LIMIT && EndOf(FlowPrefix(flowId), p, a).Queued?
    ensures ParseDatagram(EndOf(FlowPrefix(flowId), p, a).dgram, flowId) == Some(Prepared(p))
    ensures ValidateIncoming(Prepared(p)).Accepted?
    ensures Prepared(p)[HopField(IpVersion(p))] == p[HopField(IpVersion(p))] - 1
  {
    ReachesQuicheIff(FlowPrefix(flowId), p, a);
    FramingRoundTrip(flowId, flowId, Prepared(p));
    PreparedAges(p);
  }

  // ---------------------------------------------------------------- the code

  /** One session's counters, what quiche took on this path, and the ICMP replies written to the TUN device. */
  class PacketSender {
    const prefix: seq<byte>
    var accepted: seq<seq<byte>>
    var replies: seq<seq<byte>>
    var dropped: nat
    var txPackets: nat
    var txBytes: nat

    constructor (prefix: seq<byte>)
      ensures this.prefix == prefix && accepted == [] && replies == []
      ensures dropped == txPackets == txBytes == 0
    {
      this.prefix := prefix;
      accepted, replies := [], [];
      dropped, txPackets, txBytes := 0, 0, 0;
    }

    /** The retry loop: the datagram is offered as soon as the queue has room. */
    method Retry(dgram: seq<byte>, ipLen: nat, tries: nat -> Try) returns (end: SendEnd)
      modifies `accepted, `dropped, `txPackets, `txBytes
      ensures end == EndFrom(dgram, tries, 0)
      ensures accepted == old(accepted) + (if end.Queued? then [dgram] else [])
      ensures dropped == old(dropped) + (if end.Dropped? then 1 else 0)
      ensures txPackets == old(txPackets) + (if end.Queued? then 1 else 0)
      ensures txBytes == old(txBytes) + (if end.Queued? then ipLen else 0)
    {
      for attempt := 0 to MAX_TRIES
        invariant EndFrom(dgram, tries, 0) == EndFrom(dgram, tries, attempt)
        invariant accepted == old(accepted) && dropped == old(dropped)
        invariant txPackets == old(txPackets) && txBytes == old(txBytes)
      {
        var t := tries(attempt);
        if !t.full {
          if t.takes {
            accepted := accepted + [dgram];
            txPackets, txBytes := txPackets + 1, txBytes + ipLen;
            return Queued(dgram);
          }
          dropped := dropped + 1;
          return Dropped;
        }
        if !t.flushed || !t.drained {
          return Broken;
        }
        if t.closed {
          return Broken;
        }
        if !t.received {
          return Broken;
        }
      }
      dropped := dropped + 1;
      end := Dropped;
    }

    /** The branch for a datagram longer than the path allows: count it and answer it. */
    method AnswerTooLong(aged: seq<byte>, mtu: nat)
      requires ValidateIncoming(aged).Accepted? && mtu < 0x1_0000
      modifies `replies, `dropped
      ensures dropped == old(dropped) + 1
      ensures |replies| == |old(replies)| + 1 && replies[..|old(replies)|] == old(replies)
      ensures ReplyTo(replies[|old(replies)|], aged, mtu)
    {
      dropped := dropped + 1;
      var reply := ComposeIcmpTooLarge(aged, mtu);
      if reply.Some? {
        replies := replies + [reply.value];
      }
    }

    /**
     `send_packet_datagram`: ages the packet in place and gives quiche its datagram, if it can; a
     packet too long for the path is answered with the interface's MTU.
     */
    method SendPacketDatagram(pkt: array<byte>, answers: Answers, mtu: nat) returns (end: SendEnd)
      requires mtu < 0x1_0000
      modifies pkt, `accepted, `replies, `dropped, `txPackets, `txBytes
      ensures pkt[..] == Prepared(old(pkt[..])) && end == EndOf(prefix, old(pkt[..]), answers)
      ensures accepted == old(accepted) + (if end.Queued? then [end.dgram] else [])
      ensures dropped == old(dropped) + (if end.Dropped? then 1 else 0)
      ensures txPackets == old(txPackets) + (if end.Queued? then 1 else 0)
      ensures txBytes == old(txBytes) + (if end.Queued? then pkt.Length else 0)
      ensures if OutgoingVerdict(old(pkt[..])).Accepted? && TooLong(prefix, old(pkt[..]), answers.writable)
              then && |replies| == |old(replies)| + 1 && replies[..|old(replies)|] == old(replies)
                   && ValidateIncoming(pkt[..]).Accepted? && ReplyTo(replies[|old(replies)|], pkt[..], mtu)
              else replies == old(replies)
    {
      ghost var p := pkt[..];
      assert pkt[0..pkt.Length] == p;
      var v := PrepareOutgoing(pkt, 0, pkt.Length);
      var aged := pkt[..];
      assert aged == pkt[0..pkt.Length] == Prepared(p);
      if v.Rejected? {
        dropped := dropped + 1;
        return Dropped;
      }
      PreparedAges(p);
      var dgram := prefix + aged;
      if answers.writable.Some? && |dgram| > answers.writable.value {
        AnswerTooLong(aged, mtu);
        return Dropped;
      }
      end := Retry(dgram, pkt.Length, answers.tries);
      EndFromIff(dgram, answers.tries, 0);
    }
  }
}
