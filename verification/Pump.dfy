/**
 The packet pump (`masque.rs: data_loop`) as a transition system. A reader task and the pump task
 share a bounded pool of reusable buffers and a bounded channel; every step below is one that either
 task takes between two points where the other can run. Quiche, the TUN device and the sockets are
 oracles: their answers are arguments of the step.
 */
module Pump {
  import opened Arithmetic
  import opened Bytes
  import opened Packet
  import opened ConnectIp
  import opened History
  import opened H3Control

  const MAX_PACKET_BUFFER_POOL_SIZE: nat := 16384
  const RX_DGRAM_DRAIN_BURST: nat := 32
  const TX_CHANNEL_DRAIN_BURST: nat := 256

  // ---------------------------------------------------------------- configuration

  datatype Config = Config(
    flowId: nat, connectStream: nat, prefix: seq<byte>, bufLen: nat,
    poolSize: nat, queueLen: nat, channelLen: nat, burst: nat)

  /** The sizes `run_tunnel_session` and `data_loop` derive from the options and the CONNECT stream. */
  function Configure(streamId: nat, mtu: nat, poolOption: nat, queueOption: nat, burstOption: nat): (c: Config)
    requires streamId < 0x1_0000_0000_0000_0000
    ensures WellFormed(c) && c.connectStream == streamId && 4 * c.flowId <= streamId < 4 * c.flowId + 4
    ensures 1 <= poolOption <= 16384 ==> c.poolSize == poolOption
    ensures poolOption == 0 ==> c.poolSize == 1
    ensures poolOption > 16384 ==> c.poolSize == 16384
    ensures c.queueLen == c.channelLen && (1 <= queueOption <= c.poolSize ==> c.queueLen == queueOption)
    ensures queueOption > c.poolSize ==> c.queueLen == c.poolSize
    ensures burstOption > 0 ==> c.burst == burstOption
  {
    var pool := Min(Max(poolOption, 1), MAX_PACKET_BUFFER_POOL_SIZE);
    var queue := Min(Max(queueOption, 1), pool);
    Config(FlowId(streamId), streamId, FlowPrefix(FlowId(streamId)), mtu + 128,
           pool, queue, Max(Min(queue, pool), 1), Max(burstOption, 1))
  }

  predicate WellFormed(c: Config) {
    && c.flowId < VARINT_LIMIT && c.prefix == FlowPrefix(c.flowId)
    && 1 <= c.channelLen <= c.poolSize && 1 <= c.queueLen <= c.poolSize && 1 <= c.burst
  }

  function BufferLen(c: Config): nat {
    |c.prefix| + c.bufLen
  }

  // ---------------------------------------------------------------- state

  type Buffer = seq<byte>

  datatype TxDatagram = TxDatagram(bytes: Buffer, wireLen: nat, ipLen: nat)

  /** What the reader task is doing: waiting for a buffer, for the TUN device, or for channel room. */
  datatype Reader = NeedBuffer | Reading(buffer: Buffer) | Sending(item: TxDatagram) | Exited

  /** Where the pump is in its loop. */
  datatype Phase =
    | Control                                  // drain_quic, flush_quic, poll_h3
    | Receive                                  // drain_incoming_datagrams
    | Maintain                                 // H3 report, path MTU
    | Feed(left: nat)                          // channel into tx_queue
    | Burst(queued: nat)                       // queue_tx_datagrams
    | InHand(queued: nat, item: TxDatagram)    // ... between pop_front and its outcome
    | Check(queued: nat, backpressure: bool)   // flush, closed checks, continue?
    | Parked(pushedBack: bool)                 // tokio::select!
    | Stopped

  /** The upload side: the free pool, the queue, what quiche accepted, the drop counter. */
  datatype Upload = Upload(free: seq<Buffer>, queue: seq<TxDatagram>, accepted: seq<seq<byte>>, dropped: nat)

  /** How often each stage of the loop has completed. */
  datatype Rounds = Rounds(controls: nat, receives: nat, feeds: nat, bursts: nat)

  /** Every packet read from the TUN device and what became of it. */
  datatype Ledger = Ledger(read: seq<seq<byte>>, fates: seq<Fate>)

  datatype State = State(
    tx: Upload, reader: Reader, channel: seq<TxDatagram>, pump: Phase, readerClosed: bool,
    lastReceived: nat, delivered: seq<seq<byte>>, rounds: Rounds, ledger: Ledger)

  function Start(c: Config): State {
    State(Upload(seq(c.poolSize, _ => Zeros(BufferLen(c))), [], [], 0), NeedBuffer, [], Control, false,
          0, [], Rounds(0, 0, 0, 0), Ledger([], []))
  }

  /** The DATAGRAM a packet must become: the flow prefix, then the packet one hop older. */
  function Wire(c: Config, packet: seq<byte>): seq<byte> {
    c.prefix + Prepared(packet)
  }

  // ---------------------------------------------------------------- the pieces of a step

  /** `recycle_tx.try_send(buffer)`, whose failure the code ignores: the buffer is then lost. */
  function Recycle(c: Config, tx: Upload, readerAlive: bool, buffer: Buffer): Upload {
    if readerAlive && |tx.free| < c.poolSize then tx.(free := tx.free + [buffer]) else tx
  }

  datatype SendResult = SendOk | SendDone | SendError

  /** What quiche answers while one datagram is in hand. */
  datatype Quiche = Quiche(maxWritable: Option<nat>, queueFull: bool, send: SendResult)

  datatype Outcome = Queued | Discarded | PushedBack

  /** The branch of `queue_tx_datagrams` taken for an item. */
  function OutcomeOf(item: TxDatagram, q: Quiche): Outcome {
    if q.maxWritable.Some? && item.wireLen > q.maxWritable.value then Discarded
    else if q.queueFull then PushedBack
    else if q.send.SendOk? then Queued
    else if q.send.SendDone? then PushedBack
    else Discarded
  }

  /** Its effect on the upload side. */
  function Resolve(c: Config, tx: Upload, readerAlive: bool, item: TxDatagram, o: Outcome): Upload
    requires item.wireLen <= |item.bytes|
  {
    match o
    case Queued =>
      Recycle(c, tx.(accepted := tx.accepted + [item.bytes[..item.wireLen]]), readerAlive, item.bytes)
    case Discarded => Recycle(c, tx.(dropped := tx.dropped + 1), readerAlive, item.bytes)
    case PushedBack => tx.(queue := [item] + tx.queue)
  }

  /** The packets of a receive burst that are written to the TUN device. */
  function Deliverable(c: Config, dgrams: seq<seq<byte>>): seq<seq<byte>> {
    if |dgrams| == 0 then []
    else
      var rest := Deliverable(c, dgrams[..|dgrams| - 1]);
      var ip := ParseDatagram(dgrams[|dgrams| - 1], c.flowId);
      if ip.Some? && ValidateIncoming(ip.value).Accepted? then rest + [ip.value] else rest
  }

  // ---------------------------------------------------------------- steps

  datatype Step =
    // the reader task
    | TakeBuffer
    | TunPacket(packet: seq<byte>)
    | TunEnd                                   // EOF, or a device error
    | SendToPump
    | ReaderAborted
    // the pump task
    | RunControl(polls: seq<Poll>, ioFailed: bool)
    | RunReceive(dgrams: seq<seq<byte>>)
    | RunMaintain(failed: bool)
    | FeedOne
    | FeedEnd
    | Pop
    | BurstEnd
    | Answer(quiche: Quiche)
    | Finish(failed: bool)
    | WakeRecv
    | WakeReaderGone
    | WakeOther(failed: bool)

  predicate Enabled(c: Config, s: State, step: Step) {
    match step
    case TakeBuffer => s.reader.NeedBuffer? && s.tx.free != [] && |s.tx.free[0]| >= |c.prefix|
    case TunPacket(packet) =>
      s.reader.Reading? && 0 < |packet| <= c.bufLen && |s.reader.buffer| == BufferLen(c)
    case TunEnd => s.reader.Reading?
    case SendToPump => s.reader.Sending? && |s.channel| < c.channelLen
    case ReaderAborted => s.pump.Stopped?
    case RunControl(_, _) => s.pump.Control?
    case RunReceive(dgrams) => s.pump.Receive? && |dgrams| <= RX_DGRAM_DRAIN_BURST
    case RunMaintain(_) => s.pump.Maintain?
    case FeedOne => s.pump.Feed? && s.pump.left > 0 && |s.tx.queue| < c.queueLen && s.channel != []
    case FeedEnd => s.pump.Feed? && (s.pump.left == 0 || |s.tx.queue| >= c.queueLen || s.channel == [])
    case Pop => s.pump.Burst? && s.pump.queued < c.burst && s.tx.queue != []
    case BurstEnd => s.pump.Burst? && (s.pump.queued >= c.burst || s.tx.queue == [])
    case Answer(_) => s.pump.InHand? && s.pump.item.wireLen <= |s.pump.item.bytes|
    case Finish(_) => s.pump.Check?
    case WakeRecv => ReceiveArmed(c, s) && s.channel != []
    case WakeReaderGone => ReceiveArmed(c, s) && s.channel == [] && s.reader.Exited?
    case WakeOther(_) => s.pump.Parked?
  }

  /** The guard of the `tx_rx.recv()` arm of `select!`. */
  predicate ReceiveArmed(c: Config, s: State) {
    s.pump.Parked? && !s.readerClosed && |s.tx.queue| < c.queueLen
  }

  /** The reader got a packet: age it, then hand it on or drop it and recycle the buffer. */
  function OnTunPacket(c: Config, s: State, packet: seq<byte>): State
    requires Enabled(c, s, TunPacket(packet))
  {
    var filled := Splice(s.reader.buffer, |c.prefix|, packet);
    if OutgoingVerdict(packet).Rejected? then
      s.(tx := Recycle(c, s.tx.(dropped := s.tx.dropped + 1), true, filled), reader := NeedBuffer,
         ledger := Ledger(s.ledger.read + [packet], s.ledger.fates + [Dropped]))
    else
      var aged := Splice(filled, |c.prefix|, Prepared(packet));
      s.(reader := Sending(TxDatagram(aged, |c.prefix| + |packet|, |packet|)),
         ledger := Ledger(s.ledger.read + [packet], s.ledger.fates + [Pending]))
  }

  /** One turn of the upload loop with an item in hand. */
  function OnAnswer(c: Config, s: State, q: Quiche): State
    requires Enabled(c, s, Answer(q))
  {
    var item := s.pump.item;
    var o := OutcomeOf(item, q);
    var tx := Resolve(c, s.tx, !s.reader.Exited?, item, o);
    match o
    case Queued =>
      s.(tx := tx, pump := Burst(s.pump.queued + 1), ledger := s.ledger.(fates := Settle(s.ledger.fates, Sent)))
    case Discarded =>
      s.(tx := tx, pump := Burst(s.pump.queued), ledger := s.ledger.(fates := Settle(s.ledger.fates, Dropped)))
    case PushedBack =>
      s.(tx := tx, pump := Check(s.pump.queued, true), rounds := s.rounds.(bursts := s.rounds.bursts + 1))
  }

  /** The end of an iteration: stop, go round again at once, or wait in `select!`. */
  function OnFinish(c: Config, s: State, failed: bool): State
    requires s.pump.Check?
  {
    if failed || (s.readerClosed && s.tx.queue == []) then s.(pump := Stopped)
    else if s.lastReceived == RX_DGRAM_DRAIN_BURST
            || (s.tx.queue != [] && s.pump.queued >= c.burst && !s.pump.backpressure)
    then s.(pump := Control)
    else s.(pump := Parked(s.pump.backpressure))
  }

  function After(c: Config, s: State, step: Step): State
    requires Enabled(c, s, step)
  {
    match step
    case TakeBuffer =>
      s.(reader := Reading(Splice(s.tx.free[0], 0, c.prefix)), tx := s.tx.(free := s.tx.free[1..]))
    case TunPacket(packet) => OnTunPacket(c, s, packet)
    case TunEnd => s.(reader := Exited)
    case SendToPump => s.(reader := NeedBuffer, channel := s.channel + [s.reader.item])
    case ReaderAborted => s.(reader := Exited)
    case RunControl(polls, ioFailed) =>
      if ioFailed || PollFails(c.connectStream, polls) then s.(pump := Stopped)
      else s.(pump := Receive, rounds := s.rounds.(controls := s.rounds.controls + 1))
    case RunReceive(dgrams) =>
      s.(pump := Maintain, lastReceived := |dgrams|, delivered := s.delivered + Deliverable(c, dgrams),
         rounds := s.rounds.(receives := s.rounds.receives + 1))
    case RunMaintain(failed) => s.(pump := if failed then Stopped else Feed(TX_CHANNEL_DRAIN_BURST))
    case FeedOne =>
      s.(pump := Feed(s.pump.left - 1), channel := s.channel[1..], tx := s.tx.(queue := s.tx.queue + [s.channel[0]]))
    case FeedEnd =>
      s.(pump := Burst(0),
         readerClosed := s.readerClosed ||
                         (s.pump.left > 0 && |s.tx.queue| < c.queueLen && s.channel == [] && s.reader.Exited?),
         rounds := s.rounds.(feeds := s.rounds.feeds + 1))
    case Pop => s.(pump := InHand(s.pump.queued, s.tx.queue[0]), tx := s.tx.(queue := s.tx.queue[1..]))
    case BurstEnd => s.(pump := Check(s.pump.queued, false), rounds := s.rounds.(bursts := s.rounds.bursts + 1))
    case Answer(q) => OnAnswer(c, s, q)
    case Finish(failed) => OnFinish(c, s, failed)
    case WakeRecv => s.(pump := Control, channel := s.channel[1..], tx := s.tx.(queue := s.tx.queue + [s.channel[0]]))
    case WakeReaderGone => s.(pump := Control, readerClosed := true)
    case WakeOther(failed) => s.(pump := if failed then Stopped else Control)
  }

  // ---------------------------------------------------------------- runs

  /** The i-th step is enabled and has the effect it should. */
  ghost predicate Takes(c: Config, states: seq<State>, steps: seq<Step>, i: nat)
    requires i < |steps| && i + 1 < |states|
  {
    Enabled(c, states[i], steps[i]) && states[i + 1] == After(c, states[i], steps[i])
  }

  ghost predicate IsPath(c: Config, states: seq<State>, steps: seq<Step>) {
    && |states| == |steps| + 1
    && forall i :: 0 <= i < |steps| ==> Takes(c, states, steps, i)
  }

  /** A run is any interleaving of enabled steps from the start of `data_loop`. */
  ghost predicate IsRun(c: Config, states: seq<State>, steps: seq<Step>) {
    IsPath(c, states, steps) && states[0] == Start(c)
  }
}
