/** What every step of the packet pump keeps. */
module PumpInvariants {
  import opened Bytes
  import opened Packet
  import opened History
  import opened Pump

  // ---------------------------------------------------------------- where packets and buffers are

  /** Datagrams between the reader and quiche, oldest first: pump's hand, queue, channel, reader. */
  function Pipeline(s: State): seq<TxDatagram> {
    Hand(s) + s.tx.queue + s.channel + Held(s)
  }

  function Hand(s: State): seq<TxDatagram> {
    if s.pump.InHand? then [s.pump.item] else []
  }

  function Held(s: State): seq<TxDatagram> {
    if s.reader.Sending? then [s.reader.item] else []
  }

  /** Buffers the two tasks can still account for. */
  function Buffers(s: State): nat {
    |s.tx.free| + (if s.reader.Reading? || s.reader.Sending? then 1 else 0)
    + |s.channel| + |s.tx.queue| + |Hand(s)|
  }

  // ---------------------------------------------------------------- the invariants

  predicate ItemOk(c: Config, item: TxDatagram) {
    |item.bytes| == BufferLen(c) && item.ipLen <= c.bufLen && item.wireLen == |c.prefix| + item.ipLen
  }

  ghost predicate ItemsOk(c: Config, items: seq<TxDatagram>) {
    forall i :: 0 <= i < |items| ==> ItemOk(c, items[i])
  }

  ghost predicate FreeOk(c: Config, free: seq<Buffer>) {
    forall i :: 0 <= i < |free| ==> |free[i]| == BufferLen(c)
  }

  /** Every buffer has the one length; a buffer being read into starts with the flow prefix. */
  ghost predicate Shape(c: Config, s: State) {
    && FreeOk(c, s.tx.free)
    && (s.reader.Reading? ==> |s.reader.buffer| == BufferLen(c) && s.reader.buffer[..|c.prefix|] == c.prefix)
    && ItemsOk(c, Hand(s)) && ItemsOk(c, s.tx.queue) && ItemsOk(c, s.channel) && ItemsOk(c, Held(s))
  }

  /** No buffer is lost while the reader lives, and every container respects its capacity. */
  ghost predicate Conserved(c: Config, s: State) {
    && (if s.reader.Exited? then Buffers(s) <= c.poolSize else Buffers(s) == c.poolSize)
    && |s.channel| <= c.channelLen
    && |s.tx.queue| + |Hand(s)| <= c.queueLen
  }

  /** What the pump knows at each point of its loop. */
  ghost predicate InControl(c: Config, s: State) {
    && (s.readerClosed ==> s.reader.Exited? && s.channel == [])
    && s.lastReceived <= RX_DGRAM_DRAIN_BURST
    && match s.pump {
         case Feed(left) =>
           left <= TX_CHANNEL_DRAIN_BURST && (left < TX_CHANNEL_DRAIN_BURST ==> s.tx.queue != [])
         case Check(queued, backpressure) =>
           if backpressure then s.tx.queue != [] else queued >= c.burst || s.tx.queue == []
         case Parked(pushedBack) =>
           (s.tx.queue == [] || pushedBack) && s.lastReceived < RX_DGRAM_DRAIN_BURST
           && !(s.readerClosed && s.tx.queue == [])
         case _ => true
       }
  }

  /** The stages take turns: each has run as often as the others, give or take the current turn. */
  ghost predicate InTurn(s: State) {
    var r := s.rounds;
    match s.pump
    case Control => r.controls == r.receives == r.feeds == r.bursts
    case Receive => r.controls == r.receives + 1 && r.receives == r.feeds == r.bursts
    case Maintain => r.controls == r.receives && r.feeds == r.bursts && r.receives == r.feeds + 1
    case Feed(_) => r.controls == r.receives && r.feeds == r.bursts && r.receives == r.feeds + 1
    case Burst(_) => r.controls == r.receives == r.feeds && r.feeds == r.bursts + 1
    case InHand(_, _) => r.controls == r.receives == r.feeds && r.feeds == r.bursts + 1
    case Check(_, _) => r.controls == r.receives == r.feeds == r.bursts
    case Parked(_) => r.controls == r.receives == r.feeds == r.bursts
    case Stopped => true
  }

  function Wires(c: Config, packets: seq<seq<byte>>): (r: seq<seq<byte>>)
    ensures |r| == |packets|
    ensures forall i :: 0 <= i < |packets| ==> r[i] == Wire(c, packets[i])
  {
    seq(|packets|, i requires 0 <= i < |packets| => Wire(c, packets[i]))
  }

  /** The datagrams are the encodings of these packets, whatever else their buffers hold. */
  ghost predicate Carries(c: Config, items: seq<TxDatagram>, packets: seq<seq<byte>>) {
    && |items| == |packets|
    && forall i :: 0 <= i < |items| ==>
         items[i].wireLen <= |items[i].bytes| && items[i].bytes[..items[i].wireLen] == Wire(c, packets[i])
  }

  /** Only packets `prepare_outgoing` accepts are ever pending or sent. */
  ghost predicate Vetted(l: Ledger)
    requires |l.read| == |l.fates|
  {
    forall i :: 0 <= i < |l.read| && l.fates[i] != Dropped ==> OutgoingVerdict(l.read[i]).Accepted?
  }

  /** Quiche has the sent packets, encoded and in order; the counter has the dropped ones. */
  ghost predicate Books(c: Config, l: Ledger, accepted: seq<seq<byte>>, dropped: nat) {
    && |l.read| == |l.fates|
    && Fifo(l.fates) && Vetted(l)
    && accepted == Wires(c, Pick(l.read, l.fates, Sent))
    && dropped == |Pick(l.read, l.fates, Dropped)|
  }

  /** ... and the pipeline has the rest, in order too, until the session ends. */
  ghost predicate Accounted(c: Config, s: State) {
    && Books(c, s.ledger, s.tx.accepted, s.tx.dropped)
    && (!s.pump.Stopped? ==> Carries(c, Pipeline(s), Pick(s.ledger.read, s.ledger.fates, Pending)))
  }

  ghost predicate Inv(c: Config, s: State) {
    Shape(c, s) && Conserved(c, s) && InControl(c, s) && InTurn(s) && Accounted(c, s)
  }

  // ---------------------------------------------------------------- steps keep them

  predicate ReaderStep(step: Step) {
    step.TakeBuffer? || step.TunPacket? || step.TunEnd? || step.SendToPump? || step.ReaderAborted?
  }

  /** Steps that move a datagram from the channel or the queue. */
  predicate TransferStep(step: Step) {
    step.FeedOne? || step.Pop? || step.WakeRecv?
  }

  /** Steps of the pump that leave every container alone. */
  predicate LoopStep(step: Step) {
    !ReaderStep(step) && !TransferStep(step) && !step.Answer?
  }

  lemma RecycleOk(c: Config, tx: Upload, readerAlive: bool, buffer: Buffer)
    requires FreeOk(c, tx.free) && |buffer| == BufferLen(c)
    ensures FreeOk(c, Recycle(c, tx, readerAlive, buffer).free)
  {
  }

  lemma AnswerShape(c: Config, s: State, q: Quiche)
    requires Shape(c, s) && Enabled(c, s, Answer(q))
    ensures Shape(c, After(c, s, Answer(q)))
  {
    var item := s.pump.item;
    assert ItemOk(c, Hand(s)[0]);
    RecycleOk(c, s.tx.(accepted := s.tx.accepted + [item.bytes[..item.wireLen]]), !s.reader.Exited?, item.bytes);
    RecycleOk(c, s.tx.(dropped := s.tx.dropped + 1), !s.reader.Exited?, item.bytes);
  }

  lemma ReaderShape(c: Config, s: State, step: Step)
    requires Shape(c, s) && Enabled(c, s, step)
    requires ReaderStep(step)
    ensures Shape(c, After(c, s, step))
  {
    match step
    case TakeBuffer =>
      var taken := Splice(s.tx.free[0], 0, c.prefix);
      assert taken[..|c.prefix|] == taken[0..0 + |c.prefix|] == c.prefix;
    case TunPacket(packet) =>
      RecycleOk(c, s.tx.(dropped := s.tx.dropped + 1), true, Splice(s.reader.buffer, |c.prefix|, packet));
    case SendToPump =>
      assert ItemOk(c, Held(s)[0]);
    case _ =>
  }

  lemma TransferShape(c: Config, s: State, step: Step)
    requires Shape(c, s) && Enabled(c, s, step) && TransferStep(step)
    ensures Shape(c, After(c, s, step))
  {
  }

  lemma LoopShape(c: Config, s: State, step: Step)
    requires Shape(c, s) && Enabled(c, s, step) && LoopStep(step)
    ensures Shape(c, After(c, s, step))
  {
    LoopLeavesContainers(c, s, step);
  }

  /** A loop step changes neither the containers nor the books. */
  lemma LoopLeavesContainers(c: Config, s: State, step: Step)
    requires Enabled(c, s, step) && LoopStep(step)
    ensures var t := After(c, s, step);
            && t.tx == s.tx && t.reader == s.reader && t.channel == s.channel && t.ledger == s.ledger
            && Hand(t) == Hand(s)
  {
  }

  lemma ShapeStep(c: Config, s: State, step: Step)
    requires Shape(c, s) && Enabled(c, s, step)
    ensures Shape(c, After(c, s, step))
  {
    if step.Answer? {
      AnswerShape(c, s, step.quiche);
    } else if ReaderStep(step) {
      ReaderShape(c, s, step);
    } else if TransferStep(step) {
      TransferShape(c, s, step);
    } else {
      LoopShape(c, s, step);
    }
  }

  /** The bytes of a buffer once a packet has been read into it and aged. */
  lemma KeepsPrefix(c: Config, s: State, packet: seq<byte>)
    requires Shape(c, s) && Enabled(c, s, TunPacket(packet))
    ensures var filled := Splice(s.reader.buffer, |c.prefix|, packet);
            var aged := Splice(filled, |c.prefix|, Prepared(packet));
            aged[..|c.prefix| + |packet|] == Wire(c, packet)
  {
    var filled := Splice(s.reader.buffer, |c.prefix|, packet);
    var aged := Splice(filled, |c.prefix|, Prepared(packet));
    assert aged[..|c.prefix|] == filled[..|c.prefix|] == s.reader.buffer[..|c.prefix|] == c.prefix;
    assert aged[|c.prefix|..|c.prefix| + |packet|] == Prepared(packet);
    assert aged[..|c.prefix| + |packet|] == aged[..|c.prefix|] + aged[|c.prefix|..|c.prefix| + |packet|];
  }

  lemma ReaderConserves(c: Config, s: State, step: Step)
    requires Conserved(c, s) && Enabled(c, s, step) && ReaderStep(step)
    ensures Conserved(c, After(c, s, step))
  {
  }

  lemma AnswerConserves(c: Config, s: State, q: Quiche)
    requires Conserved(c, s) && Enabled(c, s, Answer(q))
    ensures Conserved(c, After(c, s, Answer(q)))
  {
  }

  lemma TransferConserves(c: Config, s: State, step: Step)
    requires Conserved(c, s) && Enabled(c, s, step) && TransferStep(step)
    ensures Conserved(c, After(c, s, step))
  {
  }

  lemma ConservedStep(c: Config, s: State, step: Step)
    requires Conserved(c, s) && Enabled(c, s, step)
    ensures Conserved(c, After(c, s, step))
  {
    if step.Answer? {
      AnswerConserves(c, s, step.quiche);
    } else if ReaderStep(step) {
      ReaderConserves(c, s, step);
    } else if TransferStep(step) {
      TransferConserves(c, s, step);
    } else {
      LoopLeavesContainers(c, s, step);
    }
  }

  lemma ReaderInControl(c: Config, s: State, step: Step)
    requires InControl(c, s) && Enabled(c, s, step) && ReaderStep(step)
    ensures InControl(c, After(c, s, step))
  {
  }

  lemma PumpInControl(c: Config, s: State, step: Step)
    requires InControl(c, s) && Enabled(c, s, step) && c.burst >= 1 && !ReaderStep(step)
    ensures InControl(c, After(c, s, step))
  {
  }

  lemma InControlStep(c: Config, s: State, step: Step)
    requires InControl(c, s) && Enabled(c, s, step) && c.burst >= 1
    ensures InControl(c, After(c, s, step))
  {
    if ReaderStep(step) {
      ReaderInControl(c, s, step);
    } else {
      PumpInControl(c, s, step);
    }
  }

  lemma InTurnStep(c: Config, s: State, step: Step)
    requires InTurn(s) && Enabled(c, s, step)
    ensures InTurn(After(c, s, step))
  {
  }

  // The ledger: a step moves packets along the pipeline, adds one at the end, or takes the oldest.

  /** The step leaves the ledger alone and the datagrams in the same order. */
  ghost predicate KeepsOrder(s: State, t: State) {
    && Pipeline(t) == Pipeline(s) && t.ledger == s.ledger
    && t.tx.accepted == s.tx.accepted && t.tx.dropped == s.tx.dropped
  }

  lemma PopKeepsOrder(c: Config, s: State)
    requires Enabled(c, s, Pop)
    ensures KeepsOrder(s, After(c, s, Pop))
  {
    assert s.tx.queue == [s.tx.queue[0]] + s.tx.queue[1..];
  }

  lemma FeedKeepsOrder(c: Config, s: State, step: Step)
    requires Enabled(c, s, step) && (step.FeedOne? || step.WakeRecv?)
    ensures KeepsOrder(s, After(c, s, step))
  {
    assert s.channel == [s.channel[0]] + s.channel[1..];
  }

  lemma ReaderKeepsOrder(c: Config, s: State, step: Step)
    requires Enabled(c, s, step) && (step.TakeBuffer? || step.TunEnd? || step.SendToPump?)
    ensures KeepsOrder(s, After(c, s, step))
  {
  }

  lemma PushBackKeepsOrder(c: Config, s: State, q: Quiche)
    requires Enabled(c, s, Answer(q)) && OutcomeOf(s.pump.item, q).PushedBack?
    ensures KeepsOrder(s, After(c, s, Answer(q)))
  {
  }

  lemma MovesKeepOrder(c: Config, s: State, step: Step)
    requires Enabled(c, s, step) && !step.TunPacket? && !step.ReaderAborted?
    requires step.Answer? ==> OutcomeOf(s.pump.item, step.quiche).PushedBack?
    ensures KeepsOrder(s, After(c, s, step))
  {
    if step.Answer? {
      PushBackKeepsOrder(c, s, step.quiche);
    } else if ReaderStep(step) {
      ReaderKeepsOrder(c, s, step);
    } else if step.Pop? {
      PopKeepsOrder(c, s);
    } else if TransferStep(step) {
      FeedKeepsOrder(c, s, step);
    } else {
      LoopLeavesContainers(c, s, step);
    }
  }

  /** The books after one more packet has been read. */
  lemma BooksArrive(c: Config, l: Ledger, accepted: seq<seq<byte>>, dropped: nat, packet: seq<byte>)
    requires Books(c, l, accepted, dropped)
    ensures var rejected := OutgoingVerdict(packet).Rejected?;
            var after := Ledger(l.read + [packet], l.fates + [if rejected then Dropped else Pending]);
            && Books(c, after, accepted, dropped + (if rejected then 1 else 0))
            && Pick(after.read, after.fates, Pending)
               == Pick(l.read, l.fates, Pending) + (if rejected then [] else [packet])
  {
    var fate := if OutgoingVerdict(packet).Rejected? then Dropped else Pending;
    PickAppend(l.read, l.fates, packet, fate, Pending);
    PickAppend(l.read, l.fates, packet, fate, Sent);
    PickAppend(l.read, l.fates, packet, fate, Dropped);
  }

  lemma CarriesAppend(c: Config, items: seq<TxDatagram>, packets: seq<seq<byte>>, item: TxDatagram, packet: seq<byte>)
    requires Carries(c, items, packets)
    requires item.wireLen <= |item.bytes| && item.bytes[..item.wireLen] == Wire(c, packet)
    ensures Carries(c, items + [item], packets + [packet])
  {
  }

  /** What a packet read from the device does to the ledger, the counters and the pipeline. */
  ghost predicate Arrived(c: Config, s: State, t: State, packet: seq<byte>, rejected: bool) {
    && t.pump == s.pump && t.tx.accepted == s.tx.accepted
    && t.tx.dropped == s.tx.dropped + (if rejected then 1 else 0)
    && t.ledger == Ledger(s.ledger.read + [packet], s.ledger.fates + [if rejected then Dropped else Pending])
    && (if rejected then Pipeline(t) == Pipeline(s)
        else && t.reader.Sending? && Pipeline(t) == Pipeline(s) + [t.reader.item]
             && t.reader.item.wireLen <= |t.reader.item.bytes|
             && t.reader.item.bytes[..t.reader.item.wireLen] == Wire(c, packet))
  }

  lemma RejectionEffect(c: Config, s: State, packet: seq<byte>)
    requires Enabled(c, s, TunPacket(packet)) && OutgoingVerdict(packet).Rejected?
    ensures Arrived(c, s, OnTunPacket(c, s, packet), packet, true)
  {
  }

  lemma AcceptanceEffect(c: Config, s: State, packet: seq<byte>)
    requires Shape(c, s) && Enabled(c, s, TunPacket(packet)) && OutgoingVerdict(packet).Accepted?
    ensures Arrived(c, s, OnTunPacket(c, s, packet), packet, false)
  {
    KeepsPrefix(c, s, packet);
  }

  lemma ArrivalEffect(c: Config, s: State, packet: seq<byte>)
    requires Shape(c, s) && Enabled(c, s, TunPacket(packet))
    ensures Arrived(c, s, OnTunPacket(c, s, packet), packet, OutgoingVerdict(packet).Rejected?)
  {
    if OutgoingVerdict(packet).Rejected? {
      RejectionEffect(c, s, packet);
    } else {
      AcceptanceEffect(c, s, packet);
    }
  }

  lemma ArrivalAccounted(c: Config, s: State, packet: seq<byte>)
    requires Shape(c, s) && Accounted(c, s) && Enabled(c, s, TunPacket(packet))
    ensures Accounted(c, After(c, s, TunPacket(packet)))
  {
    var t := OnTunPacket(c, s, packet);
    ArrivalEffect(c, s, packet);
    BooksArrive(c, s.ledger, s.tx.accepted, s.tx.dropped, packet);
    if !s.pump.Stopped? && t.reader.Sending? {
      CarriesAppend(c, Pipeline(s), Pick(s.ledger.read, s.ledger.fates, Pending), t.reader.item, packet);
    }
  }

  lemma BooksSettle(c: Config, l: Ledger, accepted: seq<seq<byte>>, dropped: nat, f: Fate)
    requires Books(c, l, accepted, dropped) && Pick(l.read, l.fates, Pending) != [] && f != Pending
    ensures var after := l.(fates := Settle(l.fates, f));
            var pending := Pick(l.read, l.fates, Pending);
            && (f == Sent ==> Books(c, after, accepted + [Wire(c, pending[0])], dropped))
            && (f == Dropped ==> Books(c, after, accepted, dropped + 1))
            && Pick(after.read, after.fates, Pending) == pending[1..]
  {
    SettleEffect(l.read, l.fates, f);
    SettleKeepsFifo(l.fates, f);
    WiresAppend(c, Pick(l.read, l.fates, Sent), Pick(l.read, l.fates, Pending)[0]);
  }

  /** What an answer other than push-back does to the ledger, the counters and the pipeline. */
  lemma DepartureEffect(c: Config, s: State, q: Quiche)
    requires Enabled(c, s, Answer(q)) && !OutcomeOf(s.pump.item, q).PushedBack?
    ensures var t := After(c, s, Answer(q));
            var sent := OutcomeOf(s.pump.item, q).Queued?;
            && t.pump.Burst? && Pipeline(s) == [s.pump.item] + Pipeline(t)
            && t.ledger == s.ledger.(fates := Settle(s.ledger.fates, if sent then Sent else Dropped))
            && t.tx.accepted == s.tx.accepted + (if sent then [s.pump.item.bytes[..s.pump.item.wireLen]] else [])
            && t.tx.dropped == s.tx.dropped + (if sent then 0 else 1)
  {
    var t := After(c, s, Answer(q));
    assert t.tx.queue == s.tx.queue && t.channel == s.channel && t.reader == s.reader;
  }

  /** Quiche accepts or refuses the datagram in hand, which is the oldest one pending. */
  lemma DepartureAccounted(c: Config, s: State, q: Quiche)
    requires Accounted(c, s) && Enabled(c, s, Answer(q))
    requires !OutcomeOf(s.pump.item, q).PushedBack?
    ensures Accounted(c, After(c, s, Answer(q)))
  {
    var t := After(c, s, Answer(q));
    var l := s.ledger;
    DepartureEffect(c, s, q);
    CarriesTail(c, s.pump.item, Pipeline(t), Pick(l.read, l.fates, Pending));
    BooksSettle(c, l, s.tx.accepted, s.tx.dropped, if OutcomeOf(s.pump.item, q).Queued? then Sent else Dropped);
  }

  lemma CarriesTail(c: Config, item: TxDatagram, items: seq<TxDatagram>, packets: seq<seq<byte>>)
    requires Carries(c, [item] + items, packets)
    ensures packets != [] && item.wireLen <= |item.bytes| && item.bytes[..item.wireLen] == Wire(c, packets[0])
    ensures Carries(c, items, packets[1..])
  {
    var all := [item] + items;
    assert all[0] == item;
    assert forall i :: 0 <= i < |items| ==> items[i] == all[i + 1];
  }

  lemma WiresAppend(c: Config, packets: seq<seq<byte>>, p: seq<byte>)
    ensures Wires(c, packets + [p]) == Wires(c, packets) + [Wire(c, p)]
  {
  }

  lemma AccountedStep(c: Config, s: State, step: Step)
    requires Shape(c, s) && Accounted(c, s) && Enabled(c, s, step)
    ensures Accounted(c, After(c, s, step))
  {
    if step.TunPacket? {
      ArrivalAccounted(c, s, step.packet);
    } else if step.Answer? && !OutcomeOf(s.pump.item, step.quiche).PushedBack? {
      DepartureAccounted(c, s, step.quiche);
    } else if !step.ReaderAborted? {
      MovesKeepOrder(c, s, step);
    }
  }

  lemma StartInv(c: Config)
    requires WellFormed(c)
    ensures Inv(c, Start(c))
  {
    var s := Start(c);
    assert |s.tx.free| == c.poolSize;
    assert Pick(s.ledger.read, s.ledger.fates, Sent) == [];
  }

  lemma StepInv(c: Config, s: State, step: Step)
    requires WellFormed(c) && Inv(c, s) && Enabled(c, s, step)
    ensures Inv(c, After(c, s, step))
  {
    ShapeStep(c, s, step);
    ConservedStep(c, s, step);
    InControlStep(c, s, step);
    InTurnStep(c, s, step);
    AccountedStep(c, s, step);
  }

  /** Every state of every run satisfies the invariant. */
  lemma {:induction false} Reachable(c: Config, states: seq<State>, steps: seq<Step>, i: nat)
    requires WellFormed(c) && IsRun(c, states, steps) && i < |states|
    ensures Inv(c, states[i])
  {
    if i == 0 {
      StartInv(c);
    } else {
      Reachable(c, states, steps, i - 1);
      assert Takes(c, states, steps, i - 1);
      StepInv(c, states[i - 1], steps[i - 1]);
    }
  }
}
