/** The loops of the packet pump, proved against the steps of its transition system. */
module PumpCode {
  import opened Bytes
  import opened Packet
  import opened Icmp
  import opened ConnectIp
  import opened Pump
  import opened PumpInvariants
  import NativeTun

  // ---------------------------------------------------------------- the reader's buffer

  /**
   One turn of the TUN reader on a recycled buffer: the prefix, then the packet the device wrote
   behind it, then the packet rewritten in place. Stale bytes beyond it stay.
   */
  method ReadInto(buf: array<byte>, prefix: seq<byte>, packet: seq<byte>) returns (v: Verdict)
    requires |prefix| + |packet| <= buf.Length
    modifies buf
    ensures v == OutgoingVerdict(packet)
    ensures var filled := Splice(Splice(old(buf[..]), 0, prefix), |prefix|, packet);
            buf[..] == if v.Accepted? then Splice(filled, |prefix|, Prepared(packet)) else filled
  {
    var lo, hi := |prefix|, |prefix| + |packet|;
    ghost var start := buf[..];
    CopyFromSlice(buf, 0, prefix);
    assert buf[..] == Splice(start, 0, prefix);
    CopyFromSlice(buf, lo, packet);
    ghost var filled := buf[..];
    assert filled == Splice(Splice(start, 0, prefix), lo, packet);
    assert buf[lo..hi] == packet;
    v := PrepareOutgoing(buf, lo, hi);
    SpliceFromParts(filled, buf[..], lo, Prepared(packet));
    SpliceFromParts(filled, filled, lo, packet);
  }

  lemma SpliceFromParts(before: seq<byte>, after: seq<byte>, lo: nat, part: seq<byte>)
    requires lo + |part| <= |before| == |after|
    requires after[..lo] == before[..lo] && after[lo..lo + |part|] == part
    requires after[lo + |part|..] == before[lo + |part|..]
    ensures after == Splice(before, lo, part)
  {
    assert after == after[..lo] + after[lo..lo + |part|] + after[lo + |part|..];
  }

  // ---------------------------------------------------------------- the upload burst

  /** What a burst leaves behind; `tooBig` lists the packets dropped for exceeding the path. */
  datatype BurstResult = BurstResult(tx: Upload, queued: nat, backpressure: bool, tooBig: seq<seq<byte>>)

  /** The packet to report as too big, if this answer drops the item for its length. */
  function TooBig(c: Config, item: TxDatagram, q: Quiche): seq<seq<byte>>
    requires item.wireLen <= |item.bytes|
  {
    if q.maxWritable.Some? && item.wireLen > q.maxWritable.value && item.wireLen >= |c.prefix|
    then [item.bytes[|c.prefix|..item.wireLen]] else []
  }

  /** A burst as the transition system runs it: pop, answer, until the budget, the queue or quiche ends it. */
  function UploadBurst(c: Config, tx: Upload, readerAlive: bool, budget: nat, answers: seq<Quiche>): BurstResult
    requires |answers| >= |tx.queue|
    requires forall i :: 0 <= i < |tx.queue| ==> tx.queue[i].wireLen <= |tx.queue[i].bytes|
    decreases |tx.queue|
  {
    if budget == 0 || tx.queue == [] then BurstResult(tx, 0, false, [])
    else
      var item := tx.queue[0];
      var o := OutcomeOf(item, answers[0]);
      var next := Resolve(c, tx.(queue := tx.queue[1..]), readerAlive, item, o);
      if o.PushedBack? then BurstResult(next, 0, true, [])
      else
        var r := UploadBurst(c, next, readerAlive, if o.Queued? then budget - 1 else budget, answers[1..]);
        r.(queued := r.queued + (if o.Queued? then 1 else 0), tooBig := TooBig(c, item, answers[0]) + r.tooBig)
  }

  /** A reply per too-big packet that can be answered, in order. */
  ghost predicate RepliesTo(icmp: seq<seq<byte>>, packets: seq<seq<byte>>, mtu: nat) {
    if |packets| == 0 then icmp == []
    else
      var n := |packets| - 1;
      if ValidateIncoming(packets[n]).Accepted?
      then |icmp| > 0 && ReplyTo(icmp[|icmp| - 1], packets[n], mtu) && RepliesTo(icmp[..|icmp| - 1], packets[..n], mtu)
      else RepliesTo(icmp, packets[..n], mtu)
  }

  /**
   What the MTU in such a reply is worth: after a packet was refused at writable length w, the packets
   up to that MTU are not refused for their length exactly if the MTU leaves room for the prefix. The
   reply carries the interface's MTU at that moment, so this holds once the interface follows w.
   */
  lemma AdviceHelps(c: Config, w: nat, mtu: nat)
    requires mtu <= c.bufLen
    ensures (forall next: TxDatagram, q: Quiche :: ItemOk(c, next) && next.ipLen <= mtu && q.maxWritable == Some(w) ==>
              TooBig(c, next, q) == []) <==> mtu + |c.prefix| <= w
    ensures forall maximum ::
              0 <= maximum <= NativeTun.U16_MAX && NativeTun.CapTunMtu(w, |c.prefix|, maximum) == Some(mtu) ==>
                mtu + |c.prefix| <= w
  {
    if mtu + |c.prefix| > w {
      var next := TxDatagram(Zeros(BufferLen(c)), |c.prefix| + mtu, mtu);
      assert ItemOk(c, next) && TooBig(c, next, Quiche(Some(w), false, SendOk)) != [];
    }
  }

  /**
   Until it does, the sender may be told the length it has just used. With the interface still at 1280
   and a path of 1200, a packet of 1280 bytes is refused and the reply reports 1280; the next packet of
   that length, which the reply allows, is refused again.
   */
  lemma StaleAdvice(c: Config, first: Buffer, second: Buffer, q: Quiche, mtu: nat)
    returns (refused: TxDatagram, next: TxDatagram)
    requires |first| == |second| == BufferLen(c) && c.bufLen >= 1280 && mtu == 1280 && q.maxWritable == Some(1200)
    ensures ItemOk(c, refused) && refused.bytes == first && refused.ipLen == mtu
    ensures ItemOk(c, next) && next.bytes == second && next.ipLen == mtu
    ensures OutcomeOf(refused, q).Discarded? && OutcomeOf(next, q).Discarded?
    ensures TooBig(c, refused, q) == [first[|c.prefix|..|c.prefix| + mtu]]
    ensures TooBig(c, next, q) == [second[|c.prefix|..|c.prefix| + mtu]]
    ensures forall icmp :: RepliesTo(icmp, TooBig(c, refused, q), mtu) && |icmp| == 1 ==>
              ValidateIncoming(TooBig(c, refused, q)[0]).Accepted?
              && ReplyTo(icmp[0], TooBig(c, refused, q)[0], next.ipLen)
    ensures forall maximum :: 0 <= maximum <= NativeTun.U16_MAX ==>
              NativeTun.CapTunMtu(1200, |c.prefix|, maximum) != Some(mtu)
  {
    refused, next := TxDatagram(first, |c.prefix| + mtu, mtu), TxDatagram(second, |c.prefix| + mtu, mtu);
    var tooBig := TooBig(c, refused, q);
    assert tooBig[..0] == [];
    forall icmp | RepliesTo(icmp, tooBig, mtu) && |icmp| == 1
      ensures ValidateIncoming(tooBig[0]).Accepted? && ReplyTo(icmp[0], tooBig[0], next.ipLen)
    {
      assert RepliesTo(icmp, tooBig[..0], mtu) ==> icmp == [];
    }
  }

  /** What `dgram_recv_buf` answers. */
  datatype RecvResult = Datagram(bytes: seq<byte>) | NoDatagram | RecvError

  /** The datagrams a receive burst takes: the leading ones, at most `left`. */
  function Taken(results: seq<RecvResult>, left: nat): (r: seq<seq<byte>>)
    ensures |r| <= left && |r| <= |results|
  {
    if left == 0 || |results| == 0 || !results[0].Datagram? then []
    else [results[0].bytes] + Taken(results[1..], left - 1)
  }

  /** They are the first answers, as they came, and the next one is no datagram unless the burst is full. */
  lemma {:induction false} TakenAreTheFirst(results: seq<RecvResult>, left: nat)
    ensures var r := Taken(results, left);
            && (forall i :: 0 <= i < |r| ==> results[i] == Datagram(r[i]))
            && (|r| == left || |r| == |results| || !results[|r|].Datagram?)
  {
    if left > 0 && |results| > 0 && results[0].Datagram? {
      TakenAreTheFirst(results[1..], left - 1);
      var r := Taken(results, left);
      assert forall i :: 1 <= i < |r| ==> results[i] == results[1..][i - 1];
      assert |r| < |results| ==> results[|r|] == results[1..][|r| - 1];
    }
  }

  lemma RepliesAppend(
    icmp: seq<seq<byte>>, packets: seq<seq<byte>>, packet: seq<byte>, reply: Option<seq<byte>>, mtu: nat)
    requires RepliesTo(icmp, packets, mtu)
    requires reply.Some? <==> ValidateIncoming(packet).Accepted?
    requires reply.Some? ==> ReplyTo(reply.value, packet, mtu)
    ensures RepliesTo(if reply.Some? then icmp + [reply.value] else icmp, packets + [packet], mtu)
  {
    assert (packets + [packet])[..|packets|] == packets;
    if reply.Some? {
      assert (icmp + [reply.value])[..|icmp|] == icmp;
    }
  }

  lemma DeliverableAppend(c: Config, before: seq<seq<byte>>, dgrams: seq<seq<byte>>, d: seq<byte>)
    ensures before + Deliverable(c, dgrams) + Deliverable(c, [d]) == before + Deliverable(c, dgrams + [d])
  {
    assert (dgrams + [d])[..|dgrams|] == dgrams;
    assert Deliverable(c, [d][..0]) == [];
    assert Deliverable(c, dgrams + [d]) == Deliverable(c, dgrams) + Deliverable(c, [d]);
  }

  /** A receive burst `all` of which `done` has been taken, with room for `left` more. */
  ghost predicate Splits(all: seq<seq<byte>>, done: seq<seq<byte>>, rest: seq<RecvResult>, left: nat) {
    all == done + Taken(rest, left)
  }

  lemma SplitsStep(all: seq<seq<byte>>, done: seq<seq<byte>>, rest: seq<RecvResult>, left: nat)
    requires Splits(all, done, rest, left)
    ensures if left == 0 || |rest| == 0 || !rest[0].Datagram? then all == done
            else |all| > |done| && Splits(all, done + [rest[0].bytes], rest[1..], left - 1)
  {
    if left > 0 && |rest| > 0 && rest[0].Datagram? {
      var later := Taken(rest[1..], left - 1);
      assert done + ([rest[0].bytes] + later) == done + [rest[0].bytes] + later;
    }
  }

  /** The mutable state `queue_tx_datagrams` and `drain_incoming_datagrams` work on. */
  class PumpState {
    const c: Config
    var free: seq<Buffer>
    var txQueue: seq<TxDatagram>
    var accepted: seq<seq<byte>>
    var delivered: seq<seq<byte>>
    var dropped: nat
    var txPackets: nat
    var rxPackets: nat
    var budgetHits: nat

    constructor (c: Config)
      ensures this.c == c && View() == Start(c).tx && delivered == [] && txPackets == 0 && rxPackets == 0
    {
      this.c := c;
      free := seq(c.poolSize, _ => Zeros(BufferLen(c)));
      txQueue, accepted, delivered := [], [], [];
      dropped, txPackets, rxPackets, budgetHits := 0, 0, 0, 0;
    }

    /** The upload side as the transition system sees it. */
    function View(): Upload
      reads this
    {
      Upload(free, txQueue, accepted, dropped)
    }

    /** `recycle_tx.try_send`, its error ignored. */
    method Return(buffer: Buffer, readerAlive: bool)
      modifies `free
      ensures View() == Recycle(c, old(View()), readerAlive, buffer)
    {
      if readerAlive && |free| < c.poolSize {
        free := free + [buffer];
      }
    }

    /** The branch for a datagram longer than the path allows: count it, answer it if possible, recycle. */
    method DropTooLong(
      item: TxDatagram, readerAlive: bool, mtu: nat, icmp: seq<seq<byte>>, ghost tooBig: seq<seq<byte>>)
      returns (icmp': seq<seq<byte>>)
      requires ItemOk(c, item) && mtu < 0x1_0000 && RepliesTo(icmp, tooBig, mtu)
      modifies `free, `dropped
      ensures View() == Resolve(c, old(View()), readerAlive, item, Discarded)
      ensures RepliesTo(icmp', tooBig + [item.bytes[|c.prefix|..item.wireLen]], mtu)
    {
      dropped := dropped + 1;
      var packet := item.bytes[|c.prefix|..item.wireLen];
      var reply := ComposeIcmpTooLarge(packet, mtu);
      RepliesAppend(icmp, tooBig, packet, reply, mtu);
      icmp' := if reply.Some? then icmp + [reply.value] else icmp;
      Return(item.bytes, readerAlive);
    }

    /** The branches for a datagram offered to quiche. */
    method Offer(item: TxDatagram, q: Quiche, readerAlive: bool) returns (o: Outcome)
      requires ItemOk(c, item) && !(q.maxWritable.Some? && item.wireLen > q.maxWritable.value)
      modifies `free, `txQueue, `accepted, `dropped, `txPackets
      ensures o == OutcomeOf(item, q) && View() == Resolve(c, old(View()), readerAlive, item, o)
      ensures txPackets == old(txPackets) + Sends(o)
      ensures !q.queueFull && q.send.SendOk? ==>
                && accepted == old(accepted) + [item.bytes[..item.wireLen]] && txPackets == old(txPackets) + 1
                && txQueue == old(txQueue) && dropped == old(dropped) && o.Queued?
      ensures q.queueFull || q.send.SendDone? ==>
                && txQueue == [item] + old(txQueue) && free == old(free)
                && accepted == old(accepted) && dropped == old(dropped) && o.PushedBack?
      ensures !q.queueFull && q.send.SendError? ==>
                && dropped == old(dropped) + 1 && accepted == old(accepted)
                && txQueue == old(txQueue) && o.Discarded?
    {
      if q.queueFull {
        txQueue := [item] + txQueue;
        return PushedBack;
      }
      match q.send
      case SendOk =>
        txPackets := txPackets + 1;
        accepted := accepted + [item.bytes[..item.wireLen]];
        Return(item.bytes, readerAlive);
        o := Queued;
      case SendDone =>
        txQueue := [item] + txQueue;
        o := PushedBack;
      case SendError =>
        dropped := dropped + 1;
        Return(item.bytes, readerAlive);
        o := Discarded;
    }

    /** One turn of the loop of `queue_tx_datagrams`. */
    method SendNext(q: Quiche, readerAlive: bool, mtu: nat, icmp: seq<seq<byte>>, ghost tooBig: seq<seq<byte>>)
      returns (o: Outcome, icmp': seq<seq<byte>>, ghost tooBig': seq<seq<byte>>)
      requires ItemsOk(c, txQueue) && txQueue != [] && mtu < 0x1_0000 && RepliesTo(icmp, tooBig, mtu)
      modifies `free, `txQueue, `accepted, `dropped, `txPackets
      ensures o == OutcomeOf(old(txQueue)[0], q)
      ensures View() == NextTx(c, old(View()), readerAlive, q)
      ensures tooBig' == tooBig + TooBig(c, old(txQueue)[0], q) && RepliesTo(icmp', tooBig', mtu)
      ensures txPackets == old(txPackets) + Sends(o)
    {
      var item := txQueue[0];
      assert ItemOk(c, item);
      txQueue := txQueue[1..];
      if q.maxWritable.Some? && item.wireLen > q.maxWritable.value {
        icmp' := DropTooLong(item, readerAlive, mtu, icmp, tooBig);
        o := Discarded;
        tooBig' := tooBig + [item.bytes[|c.prefix|..item.wireLen]];
      } else {
        o := Offer(item, q, readerAlive);
        icmp', tooBig' := icmp, tooBig;
      }
    }

    /** ... which leaves less of the burst `whole` to be done. */
    method TurnOfLoop(answers: seq<Quiche>, readerAlive: bool, mtu: nat, icmp: seq<seq<byte>>,
                      ghost whole: BurstResult, ghost budget: nat, ghost queued: nat, ghost tooBig: seq<seq<byte>>)
      returns (o: Outcome, icmp': seq<seq<byte>>, ghost tooBig': seq<seq<byte>>)
      requires Adds(whole, c, View(), readerAlive, false, budget, answers, queued, tooBig)
      requires txQueue != [] && budget > 0 && mtu < 0x1_0000 && RepliesTo(icmp, tooBig, mtu)
      modifies `free, `txQueue, `accepted, `dropped, `txPackets
      ensures |answers| > 0 && RepliesTo(icmp', tooBig', mtu) && txPackets == old(txPackets) + Sends(o)
      ensures |txQueue| <= |old(txQueue)| && (!o.PushedBack? ==> |txQueue| < |old(txQueue)|)
      ensures Adds(whole, c, View(), readerAlive, o.PushedBack?, budget - Sends(o), answers[1..],
                   queued + Sends(o), tooBig')
    {
      TurnOfBurst(whole, c, View(), readerAlive, budget, answers, queued, tooBig);
      o, icmp', tooBig' := SendNext(answers[0], readerAlive, mtu, icmp, tooBig);
    }

    /** `queue_tx_datagrams`: exactly the burst of the transition system, plus the ICMP replies it owes. */
    method QueueTxDatagrams(answers: seq<Quiche>, readerAlive: bool, mtu: nat)
      returns (queued: nat, backpressure: bool, icmpPackets: seq<seq<byte>>)
      requires c.burst >= 1 && ItemsOk(c, txQueue) && |answers| >= |txQueue| && mtu < 0x1_0000
      modifies `free, `txQueue, `accepted, `dropped, `txPackets
      ensures var r := UploadBurst(c, old(View()), readerAlive, c.burst, answers);
              && View() == r.tx && queued == r.queued && backpressure == r.backpressure
              && RepliesTo(icmpPackets, r.tooBig, mtu)
      ensures txPackets == old(txPackets) + queued
    {
      queued, backpressure, icmpPackets := 0, false, [];
      ghost var whole := UploadBurst(c, View(), readerAlive, c.burst, answers);
      var rest := answers;
      ghost var tooBig: seq<seq<byte>> := [];
      ghost var budget := c.burst;
      AddsAtStart(c, View(), readerAlive, c.burst, answers);
      while queued < c.burst && txQueue != [] && !backpressure
        invariant txPackets == old(txPackets) + queued && budget == c.burst - queued
        invariant RepliesTo(icmpPackets, tooBig, mtu)
        invariant Adds(whole, c, View(), readerAlive, backpressure, budget, rest, queued, tooBig)
        decreases !backpressure, |txQueue|
      {
        var o;
        o, icmpPackets, tooBig := TurnOfLoop(rest, readerAlive, mtu, icmpPackets, whole, budget, queued, tooBig);
        rest := rest[1..];
        backpressure := o.PushedBack?;
        queued, budget := queued + Sends(o), budget - Sends(o);
      }
      AddsAtEnd(whole, c, View(), readerAlive, backpressure, budget, rest, queued, tooBig);
    }

    /** The body of the receive loop: a datagram that frames a plausible IP packet goes to the TUN device. */
    method Deliver(dgram: seq<byte>)
      modifies `delivered, `rxPackets
      ensures delivered == old(delivered) + Deliverable(c, [dgram])
      ensures rxPackets - old(rxPackets) == |delivered| - |old(delivered)|
    {
      var ip := ParseDatagram(dgram, c.flowId);
      assert Deliverable(c, [dgram][..0]) == [];
      if ip.Some? && ValidateIncoming(ip.value).Accepted? {
        rxPackets := rxPackets + 1;
        delivered := delivered + [ip.value];
      }
    }

    /**
     `drain_incoming_datagrams`: writes to the TUN device the packets the transition system delivers
     for the datagrams taken, and reports whether the burst was full.
     */
    method DrainIncoming(results: seq<RecvResult>) returns (exhausted: bool)
      modifies `delivered, `rxPackets, `budgetHits
      ensures delivered == old(delivered) + Deliverable(c, Taken(results, RX_DGRAM_DRAIN_BURST))
      ensures exhausted <==> |Taken(results, RX_DGRAM_DRAIN_BURST)| == RX_DGRAM_DRAIN_BURST
      ensures rxPackets - old(rxPackets) == |delivered| - |old(delivered)|
    {
      var drained: nat, rest := 0, results;
      ghost var all := Taken(results, RX_DGRAM_DRAIN_BURST);
      ghost var before, done: seq<seq<byte>> := delivered, [];
      while drained < RX_DGRAM_DRAIN_BURST
        invariant drained == |done| <= RX_DGRAM_DRAIN_BURST
        invariant Splits(all, done, rest, RX_DGRAM_DRAIN_BURST - drained)
        invariant delivered == before + Deliverable(c, done)
        invariant rxPackets - old(rxPackets) == |delivered| - |before|
      {
        SplitsStep(all, done, rest, RX_DGRAM_DRAIN_BURST - drained);
        if rest == [] || !rest[0].Datagram? {
          return false;
        }
        var dgram := rest[0].bytes;
        Deliver(dgram);
        DeliverableAppend(c, before, done, dgram);
        drained, rest, done := drained + 1, rest[1..], done + [dgram];
      }
      SplitsStep(all, done, rest, 0);
      budgetHits := budgetHits + 1;
      exhausted := true;
    }
  }

  /** A burst result seen from `queued` sends and these too-big packets earlier. */
  function Later(r: BurstResult, queued: nat, tooBig: seq<seq<byte>>): BurstResult {
    BurstResult(r.tx, queued + r.queued, r.backpressure, tooBig + r.tooBig)
  }

  function Sends(o: Outcome): nat {
    if o.Queued? then 1 else 0
  }

  /** What is left of a burst: nothing once quiche has pushed back. */
  function Remaining(c: Config, tx: Upload, readerAlive: bool, pushedBack: bool, budget: nat, answers: seq<Quiche>)
    : BurstResult
    requires |answers| >= |tx.queue| || pushedBack
    requires forall i :: 0 <= i < |tx.queue| ==> tx.queue[i].wireLen <= |tx.queue[i].bytes|
  {
    if pushedBack then BurstResult(tx, 0, true, []) else UploadBurst(c, tx, readerAlive, budget, answers)
  }

  lemma LaterLater(r: BurstResult, queued: nat, tooBig: seq<seq<byte>>, n: nat, more: seq<seq<byte>>)
    ensures Later(Later(r, n, more), queued, tooBig) == Later(r, queued + n, tooBig + more)
  {
    assert tooBig + (more + r.tooBig) == tooBig + more + r.tooBig;
  }

  lemma BurstUnfolds(c: Config, tx: Upload, readerAlive: bool, budget: nat, answers: seq<Quiche>)
    requires |answers| >= |tx.queue| > 0 && budget > 0 && ItemsOk(c, tx.queue)
    ensures var item := tx.queue[0];
            var o := OutcomeOf(item, answers[0]);
            var next := Resolve(c, tx.(queue := tx.queue[1..]), readerAlive, item, o);
            && next.queue == (if o.PushedBack? then tx.queue else tx.queue[1..])
            && ItemsOk(c, next.queue)
            && UploadBurst(c, tx, readerAlive, budget, answers)
               == Later(Remaining(c, next, readerAlive, o.PushedBack?, budget - Sends(o), answers[1..]),
                        Sends(o), TooBig(c, item, answers[0]))
  {
    assert tx.queue == [tx.queue[0]] + tx.queue[1..];
  }

  /** The upload side after the first datagram in the queue has been offered. */
  function NextTx(c: Config, tx: Upload, readerAlive: bool, q: Quiche): Upload
    requires tx.queue != [] && ItemOk(c, tx.queue[0])
  {
    Resolve(c, tx.(queue := tx.queue[1..]), readerAlive, tx.queue[0], OutcomeOf(tx.queue[0], q))
  }

  /** The burst `whole` is `queued` sends and `tooBig` so far, and what the rest of it will add. */
  ghost predicate Adds(whole: BurstResult, c: Config, tx: Upload, readerAlive: bool, pushedBack: bool,
                       budget: int, answers: seq<Quiche>, queued: nat, tooBig: seq<seq<byte>>) {
    && budget >= 0 && ItemsOk(c, tx.queue) && (|answers| >= |tx.queue| || pushedBack)
    && whole == Later(Remaining(c, tx, readerAlive, pushedBack, budget, answers), queued, tooBig)
  }

  lemma AddsAtStart(c: Config, tx: Upload, readerAlive: bool, budget: nat, answers: seq<Quiche>)
    requires ItemsOk(c, tx.queue) && |answers| >= |tx.queue|
    ensures Adds(UploadBurst(c, tx, readerAlive, budget, answers), c, tx, readerAlive, false, budget, answers, 0, [])
  {
  }

  /** One turn of the loop, seen against the burst as a whole. */
  lemma TurnOfBurst(whole: BurstResult, c: Config, tx: Upload, readerAlive: bool, budget: nat, answers: seq<Quiche>,
                    queued: nat, tooBig: seq<seq<byte>>)
    requires Adds(whole, c, tx, readerAlive, false, budget, answers, queued, tooBig)
    requires tx.queue != [] && budget > 0
    ensures var o := OutcomeOf(tx.queue[0], answers[0]);
            var next := NextTx(c, tx, readerAlive, answers[0]);
            && |next.queue| <= |tx.queue| && (!o.PushedBack? ==> |next.queue| < |tx.queue|)
            && Adds(whole, c, next, readerAlive, o.PushedBack?, budget - Sends(o), answers[1..],
                    queued + Sends(o), tooBig + TooBig(c, tx.queue[0], answers[0]))
  {
    BurstUnfolds(c, tx, readerAlive, budget, answers);
    var item := tx.queue[0];
    var o := OutcomeOf(item, answers[0]);
    var next := Resolve(c, tx.(queue := tx.queue[1..]), readerAlive, item, o);
    LaterLater(Remaining(c, next, readerAlive, o.PushedBack?, budget - Sends(o), answers[1..]),
               queued, tooBig, Sends(o), TooBig(c, item, answers[0]));
  }

  /** When the loop ends there is nothing left to add. */
  lemma AddsAtEnd(whole: BurstResult, c: Config, tx: Upload, readerAlive: bool, pushedBack: bool,
                  budget: nat, answers: seq<Quiche>, queued: nat, tooBig: seq<seq<byte>>)
    requires Adds(whole, c, tx, readerAlive, pushedBack, budget, answers, queued, tooBig)
    requires pushedBack || budget == 0 || tx.queue == []
    ensures whole == BurstResult(tx, queued, pushedBack, tooBig)
  {
    assert tooBig + [] == tooBig;
  }

  // ---------------------------------------------------------------- the loop and the system agree

  ghost predicate Leads(c: Config, s: State, states: seq<State>, steps: seq<Step>, t: State) {
    IsPath(c, states, steps) && states[0] == s && states[|steps|] == t
  }

  lemma LeadsConcat(
    c: Config, s: State, a: seq<State>, aSteps: seq<Step>, m: State, b: seq<State>, bSteps: seq<Step>, t: State)
    requires Leads(c, s, a, aSteps, m) && Leads(c, m, b, bSteps, t)
    ensures Leads(c, s, a + b[1..], aSteps + bSteps, t)
  {
    var states, steps := a + b[1..], aSteps + bSteps;
    forall i | 0 <= i < |steps| ensures Takes(c, states, steps, i) {
      if i < |aSteps| {
        assert Takes(c, a, aSteps, i);
      } else {
        assert Takes(c, b, bSteps, i - |aSteps|);
        assert states[i] == b[i - |aSteps|];
      }
    }
  }

  /** The parts of the state a burst does not touch. */
  ghost predicate SameElsewhere(s: State, t: State) {
    t.reader == s.reader && t.channel == s.channel && t.delivered == s.delivered
  }

  lemma EndOfBurst(c: Config, s: State) returns (t: State)
    requires s.pump.Burst? && (s.pump.queued >= c.burst || s.tx.queue == [])
    ensures Leads(c, s, [s, t], [BurstEnd], t) && SameElsewhere(s, t)
    ensures t.tx == s.tx && t.pump == Check(s.pump.queued, false)
  {
    t := After(c, s, BurstEnd);
    assert Takes(c, [s, t], [BurstEnd], 0);
  }

  lemma PopAndAnswer(c: Config, s: State, q: Quiche) returns (m: State, t: State)
    requires s.pump.Burst? && s.pump.queued < c.burst && s.tx.queue != [] && ItemOk(c, s.tx.queue[0])
    ensures Leads(c, s, [s, m, t], [Pop, Answer(q)], t) && SameElsewhere(s, t)
    ensures var o := OutcomeOf(s.tx.queue[0], q);
            && t.tx == Resolve(c, s.tx.(queue := s.tx.queue[1..]), !s.reader.Exited?, s.tx.queue[0], o)
            && t.pump == if o.PushedBack? then Check(s.pump.queued, true) else Burst(s.pump.queued + Sends(o))
  {
    m := After(c, s, Pop);
    t := After(c, m, Answer(q));
    assert Takes(c, [s, m, t], [Pop, Answer(q)], 0);
    assert Takes(c, [s, m, t], [Pop, Answer(q)], 1);
  }

  /**
   The burst is a run of the transition system: from the start of a burst, popping and answering
   with the reader standing still ends where `UploadBurst` says, ready to be checked.
   */
  lemma {:induction false} BurstIsRun(c: Config, s: State, answers: seq<Quiche>)
    returns (states: seq<State>, steps: seq<Step>, t: State)
    requires s.pump.Burst? && s.pump.queued <= c.burst && ItemsOk(c, s.tx.queue) && |answers| >= |s.tx.queue|
    ensures Leads(c, s, states, steps, t) && SameElsewhere(s, t)
    ensures var r := UploadBurst(c, s.tx, !s.reader.Exited?, c.burst - s.pump.queued, answers);
            t.tx == r.tx && t.pump == Check(s.pump.queued + r.queued, r.backpressure)
    decreases |s.tx.queue|
  {
    if s.pump.queued == c.burst || s.tx.queue == [] {
      t := EndOfBurst(c, s);
      states, steps := [s, t], [BurstEnd];
    } else {
      BurstUnfolds(c, s.tx, !s.reader.Exited?, c.burst - s.pump.queued, answers);
      var m, next := PopAndAnswer(c, s, answers[0]);
      states, steps := [s, m, next], [Pop, Answer(answers[0])];
      if next.pump.Check? {
        t := next;
      } else {
        var more, rest;
        more, rest, t := BurstIsRun(c, next, answers[1..]);
        LeadsConcat(c, s, states, steps, next, more, rest, t);
        states, steps := states + more[1..], steps + rest;
      }
    }
  }
}
