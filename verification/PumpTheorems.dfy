/** What the packet pump guarantees over every run. */
module PumpTheorems {
  import opened Arithmetic
  import opened Bytes
  import opened Packet
  import opened ConnectIp
  import opened H3Control
  import opened History
  import opened Pump
  import opened PumpInvariants
  import NativeTun

  // ---------------------------------------------------------------- buffers

  /**
   While the reader lives no buffer is lost: the pool is always exactly the free buffers, the one
   the reader holds, the channel, the queue and the pump's hand. Hence whenever either task is about
   to return a buffer the free channel has room for it, so the ignored `try_send` cannot fail.
   */
  lemma BuffersConserved(c: Config, states: seq<State>, steps: seq<Step>, i: nat)
    requires WellFormed(c) && IsRun(c, states, steps) && i < |states|
    ensures var s := states[i];
            && |s.tx.queue| + |Hand(s)| <= c.queueLen && |s.channel| <= c.channelLen
            && (!s.reader.Exited? ==>
                  |s.tx.free| + (if s.reader.Reading? || s.reader.Sending? then 1 else 0)
                  + |s.channel| + |s.tx.queue| + |Hand(s)| == c.poolSize)
            && (s.reader.Reading? || (s.pump.InHand? && !s.reader.Exited?) ==> |s.tx.free| < c.poolSize)
  {
    Reachable(c, states, steps, i);
  }

  /** The size checks that guard a step are never what disables it. */
  lemma BuffersAlwaysFit(c: Config, states: seq<State>, steps: seq<Step>, i: nat)
    requires WellFormed(c) && IsRun(c, states, steps) && i < |states|
    ensures var s := states[i];
            && (s.reader.NeedBuffer? && s.tx.free != [] ==> Enabled(c, s, TakeBuffer))
            && (forall p :: s.reader.Reading? && 0 < |p| <= c.bufLen ==> Enabled(c, s, TunPacket(p)))
            && (forall q :: s.pump.InHand? ==> Enabled(c, s, Answer(q)))
  {
    Reachable(c, states, steps, i);
    var s := states[i];
    if s.pump.InHand? {
      assert ItemOk(c, Hand(s)[0]);
    }
  }

  /**
   A reader buffer takes any packet the interface can hand over: buffers are sized for the MTU
   ceiling of the accepted options, which the interface never exceeds.
   */
  lemma TunPacketsFit(a: NativeTun.Args, link: NativeTun.Interface, streamId: nat, pool: nat, queue: nat, burst: nat,
                      states: seq<State>, steps: seq<Step>, i: nat, packet: seq<byte>)
    requires NativeTun.ArgsAccepted(a) && NativeTun.Safe(link, a.maxTunMtu)
    requires streamId < 0x1_0000_0000_0000_0000
    requires IsRun(Configure(streamId, a.maxTunMtu, pool, queue, burst), states, steps) && i < |states|
    requires states[i].reader.Reading? && 0 < |packet| <= link.mtu
    ensures Enabled(Configure(streamId, a.maxTunMtu, pool, queue, burst), states[i], TunPacket(packet))
  {
    Reachable(Configure(streamId, a.maxTunMtu, pool, queue, burst), states, steps, i);
  }

  // ---------------------------------------------------------------- packets

  /** These datagrams are what packets at increasing positions of `read` must become. */
  ghost predicate EncodesSubsequence(c: Config, datagrams: seq<seq<byte>>, read: seq<seq<byte>>, idx: seq<nat>) {
    && Increasing(idx, |read|) && |idx| == |datagrams|
    && forall k :: 0 <= k < |idx| ==>
         OutgoingVerdict(read[idx[k]]).Accepted? && datagrams[k] == c.prefix + Prepared(read[idx[k]])
  }

  /**
   Exactly once and in order: whatever stale bytes the pooled buffers held, the datagrams quiche has
   accepted are the encodings of a subsequence of the packets read; and until the session ends every
   packet read is accepted, counted as dropped, or still between the reader and quiche.
   */
  lemma ExactlyOnceInOrder(c: Config, states: seq<State>, steps: seq<Step>, i: nat) returns (idx: seq<nat>)
    requires WellFormed(c) && IsRun(c, states, steps) && i < |states|
    ensures var s := states[i];
            && EncodesSubsequence(c, s.tx.accepted, s.ledger.read, idx)
            && (!s.pump.Stopped? ==>
                  |s.ledger.read| == |s.tx.accepted| + s.tx.dropped
                                     + |Held(s)| + |s.channel| + |s.tx.queue| + |Hand(s)|)
  {
    Reachable(c, states, steps, i);
    var l := states[i].ledger;
    idx := Positions(l.fates, Sent);
    PickIsSubsequence(l.read, l.fates, Sent);
    FatesPartition(l.read, l.fates);
  }

  /**
   End to end: the peer, parsing an accepted datagram under the same flow id, recovers the packet
   read from the TUN device one hop older, and accepts it.
   */
  lemma PeerRecoversPackets(c: Config, datagrams: seq<seq<byte>>, read: seq<seq<byte>>, idx: seq<nat>, k: nat)
    requires WellFormed(c) && EncodesSubsequence(c, datagrams, read, idx) && k < |datagrams|
    ensures var p := read[idx[k]];
            && ParseDatagram(datagrams[k], c.flowId) == Some(Prepared(p))
            && ValidateIncoming(Prepared(p)).Accepted?
            && Prepared(p)[HopField(IpVersion(p))] == p[HopField(IpVersion(p))] - 1
            && (IpVersion(p) == 4 && p[0] % 16 >= 3 ==> HeaderVerifies(Prepared(p)))
  {
    var p := read[idx[k]];
    FramingRoundTrip(c.flowId, c.flowId, Prepared(p));
    PreparedAges(p);
    if IpVersion(p) == 4 {
      PreparedHeaderVerifies(p);
    }
  }

  /** The packet this datagram brings: framed under the flow id, with any legal widths, and plausible. */
  ghost predicate Brings(c: Config, dgram: seq<byte>, p: seq<byte>) {
    ValidateIncoming(p).Accepted? && exists w: nat, u: nat :: Frames(dgram, c.flowId, p, w, u)
  }

  lemma BringsIff(c: Config, dgram: seq<byte>, p: seq<byte>)
    ensures Brings(c, dgram, p) <==> ParseDatagram(dgram, c.flowId) == Some(p) && ValidateIncoming(p).Accepted?
  {
    ParserLanguage(dgram, c.flowId, p);
  }

  /** The packets `out` are those the datagrams at these positions bring, and no other brings one. */
  ghost predicate Picks(c: Config, dgrams: seq<seq<byte>>, out: seq<seq<byte>>, idx: seq<nat>) {
    && Increasing(idx, |dgrams|) && |idx| == |out|
    && (forall k :: 0 <= k < |idx| ==> Brings(c, dgrams[idx[k]], out[k]))
    && (forall i: nat, p :: i < |dgrams| && Brings(c, dgrams[i], p) ==> i in idx)
  }

  lemma PicksOneMore(c: Config, dgrams: seq<seq<byte>>, out: seq<seq<byte>>, idx: seq<nat>, d: seq<byte>, p: seq<byte>)
    requires Picks(c, dgrams, out, idx) && Brings(c, d, p)
    ensures Picks(c, dgrams + [d], out + [p], idx + [|dgrams|])
  {
    var n := |dgrams|;
    forall i: nat, q | i <= n && Brings(c, (dgrams + [d])[i], q) ensures i in idx + [n] {
      assert i < n ==> (dgrams + [d])[i] == dgrams[i];
    }
  }

  lemma PicksNoMore(c: Config, dgrams: seq<seq<byte>>, out: seq<seq<byte>>, idx: seq<nat>, d: seq<byte>)
    requires Picks(c, dgrams, out, idx) && forall p :: !Brings(c, d, p)
    ensures Picks(c, dgrams + [d], out, idx)
  {
    forall i: nat, q | i <= |dgrams| && Brings(c, (dgrams + [d])[i], q) ensures i in idx {
      assert i < |dgrams| ==> (dgrams + [d])[i] == dgrams[i];
    }
  }

  /**
   Downstream, what reaches the TUN device in a receive burst is, in order and once each, the packet
   of every datagram that brings one.
   */
  lemma {:induction false} DeliveredExactly(c: Config, dgrams: seq<seq<byte>>) returns (idx: seq<nat>)
    ensures Picks(c, dgrams, Deliverable(c, dgrams), idx)
  {
    idx := [];
    if |dgrams| > 0 {
      var n := |dgrams| - 1;
      var before, d := dgrams[..n], dgrams[n];
      assert dgrams == before + [d];
      idx := DeliveredExactly(c, before);
      forall p ensures Brings(c, d, p) <==> ParseDatagram(d, c.flowId) == Some(p) && ValidateIncoming(p).Accepted? {
        BringsIff(c, d, p);
      }
      var ip := ParseDatagram(d, c.flowId);
      if ip.Some? && ValidateIncoming(ip.value).Accepted? {
        PicksOneMore(c, before, Deliverable(c, before), idx, d, ip.value);
        idx := idx + [n];
      } else {
        PicksNoMore(c, before, Deliverable(c, before), idx, d);
      }
    }
  }

  // ---------------------------------------------------------------- waiting

  /** A reader that has to wait for a buffer leaves the pump something to do: the whole pool. */
  lemma StarvedReaderImpliesWork(c: Config, states: seq<State>, steps: seq<Step>, i: nat)
    requires WellFormed(c) && IsRun(c, states, steps) && i < |states|
    requires states[i].reader.NeedBuffer? && states[i].tx.free == []
    ensures |states[i].channel| + |states[i].tx.queue| + |Hand(states[i])| == c.poolSize >= 1
  {
    Reachable(c, states, steps, i);
  }

  /** The reader cannot move without the pump. */
  predicate ReaderBlocked(c: Config, s: State) {
    || (s.reader.NeedBuffer? && s.tx.free == [])
    || (s.reader.Sending? && |s.channel| >= c.channelLen)
  }

  /** The pump is in `select!` and no datagram can wake it. */
  predicate PumpAsleep(c: Config, s: State) {
    s.pump.Parked? && !Enabled(c, s, WakeRecv)
  }

  /**
   The pump never sleeps on sendable work: it reaches `select!` only after a receive burst that was
   not full and with an empty queue or a push-back from quiche; and if a datagram is waiting in the
   channel or the queue while nothing but the network can wake the pump, quiche pushed back. So the
   two tasks can only ever wait for each other while quiche refuses datagrams.
   */
  lemma NeverSleepsOnWork(c: Config, states: seq<State>, steps: seq<Step>, i: nat)
    requires WellFormed(c) && IsRun(c, states, steps) && i < |states|
    ensures var s := states[i];
            && (s.pump.Parked? ==> s.lastReceived < RX_DGRAM_DRAIN_BURST && (s.tx.queue == [] || s.pump.pushedBack))
            && (PumpAsleep(c, s) && (s.channel != [] || s.tx.queue != []) ==> s.pump.pushedBack && s.tx.queue != [])
            && (PumpAsleep(c, s) && ReaderBlocked(c, s) ==> s.pump.pushedBack && s.tx.queue != [])
  {
    Reachable(c, states, steps, i);
  }

  /**
   Received traffic cannot starve the upload: when a receive burst starts, and it takes at most 32
   datagrams, the channel drain and the upload burst have each run once for every earlier receive
   burst, and the control stage once more.
   */
  lemma ReceiveCannotStarveUpload(c: Config, states: seq<State>, steps: seq<Step>, i: nat)
    requires WellFormed(c) && IsRun(c, states, steps) && i < |steps| && steps[i].RunReceive?
    ensures var r := states[i].rounds;
            r.feeds == r.receives && r.bursts == r.receives && r.controls == r.receives + 1
    ensures |steps[i].dgrams| <= RX_DGRAM_DRAIN_BURST
  {
    Reachable(c, states, steps, i);
    assert Takes(c, states, steps, i);
  }

  // ---------------------------------------------------------------- the end of a session

  /** A stopped pump stays stopped: nothing more reaches quiche or the TUN device. */
  lemma {:induction false} StoppedIsFinal(c: Config, states: seq<State>, steps: seq<Step>, i: nat, j: nat)
    requires IsRun(c, states, steps) && i <= j < |states| && states[i].pump.Stopped?
    ensures states[j].pump.Stopped?
    ensures states[j].tx.accepted == states[i].tx.accepted && states[j].delivered == states[i].delivered
    decreases j
  {
    if i < j {
      var k := j - 1;
      StoppedIsFinal(c, states, steps, i, k);
      assert Takes(c, states, steps, k);
      StoppedStep(c, states[k], steps[k]);
    }
  }

  lemma StoppedStep(c: Config, s: State, step: Step)
    requires s.pump.Stopped? && Enabled(c, s, step)
    ensures var t := After(c, s, step);
            t.pump.Stopped? && t.tx.accepted == s.tx.accepted && t.delivered == s.delivered
  {
  }

  /**
   The tunnel lives as long as its CONNECT-IP stream: once a poll reports that stream finished or
   reset, or fails, no later packet is queued to quiche or delivered to the TUN device.
   */
  lemma StreamEndStopsTraffic(c: Config, states: seq<State>, steps: seq<Step>, i: nat, j: nat)
    requires IsRun(c, states, steps) && i < |steps| && i < j < |states|
    requires steps[i].RunControl? && PollFails(c.connectStream, steps[i].polls)
    ensures states[j].pump.Stopped?
    ensures states[j].tx.accepted == states[i].tx.accepted && states[j].delivered == states[i].delivered
  {
    assert Takes(c, states, steps, i);
    StoppedIsFinal(c, states, steps, i + 1, j);
  }

  /**
   A session that ends because the reader ended abandons no packet: every packet read was accepted by
   quiche or counted as dropped.
   */
  lemma ReaderEndLosesNothing(c: Config, states: seq<State>, steps: seq<Step>, i: nat)
    requires WellFormed(c) && IsRun(c, states, steps) && i < |steps|
    requires steps[i] == Finish(false) && states[i + 1].pump.Stopped?
    ensures |states[i + 1].ledger.read| == |states[i + 1].tx.accepted| + states[i + 1].tx.dropped
  {
    Reachable(c, states, steps, i);
    assert Takes(c, states, steps, i);
    var idx := ExactlyOnceInOrder(c, states, steps, i);
  }

  // ---------------------------------------------------------------- progress

  /** Datagrams the pump has not yet got rid of, the next one to go first. */
  function Lane(s: State): seq<TxDatagram> {
    Hand(s) + s.tx.queue + s.channel
  }

  predicate Intact(items: seq<TxDatagram>) {
    forall i :: 0 <= i < |items| ==> items[i].wireLen <= |items[i].bytes|
  }

  /** What quiche was given of these datagrams, if it took those marked and refused the others. */
  function Given(items: seq<TxDatagram>, taken: seq<bool>): (r: seq<seq<byte>>)
    requires Intact(items) && |items| == |taken|
    ensures |r| + Refusals(taken) == |items|
  {
    if |items| == 0 then []
    else
      var n := |items| - 1;
      Given(items[..n], taken[..n]) + (if taken[n] then [items[n].bytes[..items[n].wireLen]] else [])
  }

  function Refusals(taken: seq<bool>): nat {
    if |taken| == 0 then 0
    else Refusals(taken[..|taken| - 1]) + (if taken[|taken| - 1] then 0 else 1)
  }

  /** How far the pump is from the next answer of quiche. */
  function Distance(c: Config, s: State): (d: nat)
    ensures d <= 8
  {
    match s.pump
    case InHand(_, _) => 0
    case Burst(queued) => if queued < c.burst && s.tx.queue != [] then 1 else 8
    case Feed(_) => 2
    case Maintain => 3
    case Receive => 4
    case Control => 5
    case Parked(_) => 6
    case Check(_, _) => 7
    case Stopped => 0
  }

  /** A bound on the number of steps the pump still needs to settle the datagram at position k of the lane. */
  function Remaining(c: Config, s: State, k: nat): nat {
    4096 * (k + 1) + 300 * Distance(c, s) + (if s.pump.Feed? then Min(s.pump.left, 256) else 0)
  }

  /** A step of the pump in which nothing fails, whatever quiche answers. */
  predicate Friendly(step: Step) {
    match step
    case RunControl(polls, ioFailed) => !ioFailed
    case RunReceive(_) => true
    case RunMaintain(failed) => !failed
    case FeedOne => true
    case FeedEnd => true
    case Pop => true
    case BurstEnd => true
    case Answer(_) => true
    case Finish(failed) => !failed
    case WakeRecv => true
    case WakeReaderGone => true
    case WakeOther(failed) => !failed
    case _ => false
  }

  ghost predicate GoodStep(c: Config, s: State, step: Step) {
    Friendly(step) && Enabled(c, s, step)
    && (step.RunControl? ==> !PollFails(c.connectStream, step.polls))
  }

  /** Quiche has no room for the datagram in hand. */
  predicate PushesBack(s: State, step: Step) {
    step.Answer? && s.pump.InHand? && OutcomeOf(s.pump.item, step.quiche).PushedBack?
  }

  /** What a step may add to the bound: a push-back costs the pump one more round. */
  function Cost(s: State, step: Step): nat {
    if PushesBack(s, step) then 4096 else 0
  }

  /** The step leaves the lane as it is, or only adds to its end, and gives quiche nothing. */
  ghost predicate KeepsLane(s: State, t: State) {
    Lane(s) <= Lane(t) && t.tx.accepted == s.tx.accepted && t.tx.dropped >= s.tx.dropped
  }

  /** The first datagram of the lane has left it: to quiche if `taken`, dropped otherwise. */
  ghost predicate SettlesFirst(s: State, t: State, taken: bool) {
    && Lane(s) != [] && Lane(s) == [Lane(s)[0]] + Lane(t)
    && Lane(s)[0].wireLen <= |Lane(s)[0].bytes|
    && t.tx.accepted == s.tx.accepted + (if taken then [Lane(s)[0].bytes[..Lane(s)[0].wireLen]] else [])
    && t.tx.dropped == s.tx.dropped + (if taken then 0 else 1)
  }

  /** What the reader does meanwhile only adds to the end of the lane; it costs the pump nothing. */
  lemma ReaderOnlyAppends(c: Config, s: State, step: Step, k: nat)
    requires Enabled(c, s, step) && ReaderStep(step) && !s.pump.Stopped?
    ensures KeepsLane(s, After(c, s, step))
    ensures Remaining(c, After(c, s, step), k) == Remaining(c, s, k) && After(c, s, step).pump == s.pump
  {
    var t := After(c, s, step);
    assert t.pump == s.pump && t.tx.queue == s.tx.queue && s.channel <= t.channel;
  }

  /**
   While a datagram waits at position k, every pump step in which nothing fails, whichever it is and
   whatever quiche answers, uses up some of the bound: an acceptance or a refusal moves the lane up by
   one, a push-back adds its cost, and any other step brings the pump nearer to an answer.
   */
  lemma GoodStepProgresses(c: Config, s: State, step: Step, k: nat)
    requires WellFormed(c) && Inv(c, s) && !s.pump.Stopped? && GoodStep(c, s, step) && k < |Lane(s)|
    ensures var t := After(c, s, step);
            && !t.pump.Stopped?
            && if step.Answer? && !PushesBack(s, step)
               then && SettlesFirst(s, t, OutcomeOf(s.pump.item, step.quiche).Queued?)
                    && (k > 0 ==> Remaining(c, t, k - 1) < Remaining(c, s, k))
               else && Lane(t) == Lane(s) && KeepsLane(s, t)
                    && Remaining(c, t, k) < Remaining(c, s, k) + Cost(s, step)
  {
    if step.Answer? {
      AnswerProgresses(c, s, step.quiche, k);
    } else if TransferStep(step) {
      TransferProgresses(c, s, step, k);
    } else {
      LoopLeavesContainers(c, s, step);
      LoopProgresses(c, s, step, k);
    }
  }

  lemma TransferProgresses(c: Config, s: State, step: Step, k: nat)
    requires InControl(c, s) && Enabled(c, s, step) && TransferStep(step)
    ensures var t := After(c, s, step);
            && !t.pump.Stopped? && Lane(t) == Lane(s) && t.tx.accepted == s.tx.accepted && t.tx.dropped == s.tx.dropped
            && Remaining(c, t, k) < Remaining(c, s, k)
  {
    if step.Pop? {
      PopKeepsOrder(c, s);
      assert s.tx.queue == [s.tx.queue[0]] + s.tx.queue[1..];
    } else {
      assert s.channel == [s.channel[0]] + s.channel[1..];
    }
  }

  lemma LoopProgresses(c: Config, s: State, step: Step, k: nat)
    requires WellFormed(c) && InControl(c, s) && !s.pump.Stopped? && GoodStep(c, s, step) && Lane(s) != []
    requires LoopStep(step) && Lane(After(c, s, step)) == Lane(s)
    ensures Remaining(c, After(c, s, step), k) < Remaining(c, s, k)
    ensures !After(c, s, step).pump.Stopped?
  {
  }

  lemma AnswerProgresses(c: Config, s: State, q: Quiche, k: nat)
    requires Enabled(c, s, Answer(q))
    ensures var t := After(c, s, Answer(q));
            && !t.pump.Stopped?
            && if OutcomeOf(s.pump.item, q).PushedBack?
               then && Lane(t) == Lane(s) && t.tx.accepted == s.tx.accepted && t.tx.dropped == s.tx.dropped
                    && Remaining(c, t, k) < Remaining(c, s, k) + 4096
               else && SettlesFirst(s, t, OutcomeOf(s.pump.item, q).Queued?)
                    && (k > 0 ==> Remaining(c, t, k - 1) < Remaining(c, s, k))
  {
    var t := After(c, s, Answer(q));
    assert t.channel == s.channel;
    assert Lane(s)[0] == s.pump.item;
    if !OutcomeOf(s.pump.item, q).PushedBack? {
      assert t.tx.queue == s.tx.queue;
    }
  }

  /** There always is such a step. */
  lemma GoodStepExists(c: Config, s: State) returns (step: Step)
    requires WellFormed(c) && Inv(c, s) && !s.pump.Stopped?
    ensures GoodStep(c, s, step)
  {
    match s.pump
    case Control => step := RunControl([], false);
    case Receive => step := RunReceive([]);
    case Maintain => step := RunMaintain(false);
    case Feed(left) => step := if left > 0 && |s.tx.queue| < c.queueLen && s.channel != [] then FeedOne else FeedEnd;
    case Burst(queued) => step := if queued < c.burst && s.tx.queue != [] then Pop else BurstEnd;
    case InHand(_, item) =>
      assert ItemOk(c, Hand(s)[0]);
      step := Answer(Quiche(None, false, SendOk));
    case Check(_, _) => step := Finish(false);
    case Parked(_) => step := WakeOther(false);
  }

  /** A run from any state in which the pump's steps are good ones and the reader does what it likes. */
  ghost predicate IsGoodRun(c: Config, states: seq<State>, steps: seq<Step>) {
    && IsPath(c, states, steps)
    && forall i :: 0 <= i < |steps| ==> ReaderStep(steps[i]) || GoodStep(c, states[i], steps[i])
  }

  /** How many of the first n steps are the pump's. */
  function PumpSteps(steps: seq<Step>, n: nat): nat
    requires n <= |steps|
  {
    if n == 0 then 0 else PumpSteps(steps, n - 1) + (if ReaderStep(steps[n - 1]) then 0 else 1)
  }

  /** How many of them are push-backs. */
  function PushBacks(states: seq<State>, steps: seq<Step>, n: nat): nat
    requires n <= |steps| <= |states|
  {
    if n == 0 then 0 else PushBacks(states, steps, n - 1) + (if PushesBack(states[n - 1], steps[n - 1]) then 1 else 0)
  }

  /**
   By step i this many datagrams at the front of the lane have been settled, in order: those marked
   went to quiche, the others were dropped and counted. Those behind them have moved up.
   */
  ghost predicate Settled(states: seq<State>, i: nat, taken: seq<bool>) {
    && i < |states| && |taken| <= |Lane(states[0])| && Intact(Lane(states[0])[..|taken|])
    && states[i].tx.accepted == states[0].tx.accepted + Given(Lane(states[0])[..|taken|], taken)
    && states[i].tx.dropped >= states[0].tx.dropped + Refusals(taken)
    && Lane(states[0])[|taken|..] <= Lane(states[i])
  }

  lemma SettledOneMore(states: seq<State>, i: nat, taken: seq<bool>, next: bool)
    requires Settled(states, i, taken) && |taken| < |Lane(states[0])|
    requires i + 1 < |states| && SettlesFirst(states[i], states[i + 1], next)
    ensures Settled(states, i + 1, taken + [next])
  {
    var lane, n := Lane(states[0]), |taken|;
    assert lane[n..][0] == Lane(states[i])[0];
    assert lane[..n + 1] == lane[..n] + [lane[n]];
    assert (lane[..n + 1])[..n] == lane[..n] && (taken + [next])[..n] == taken;
    assert lane[n..] == [lane[n]] + lane[n + 1..];
  }

  lemma SettledNoMore(states: seq<State>, i: nat, taken: seq<bool>)
    requires Settled(states, i, taken) && i + 1 < |states| && KeepsLane(states[i], states[i + 1])
    ensures Settled(states, i + 1, taken)
  {
  }

  /** A good run starts from a state that satisfies the invariant; so do all its states. */
  ghost predicate IsSoundRun(c: Config, states: seq<State>, steps: seq<Step>) {
    WellFormed(c) && IsGoodRun(c, states, steps) && Inv(c, states[0])
  }

  lemma {:induction false} SoundRunInv(c: Config, states: seq<State>, steps: seq<Step>, i: nat)
    requires IsSoundRun(c, states, steps) && i < |states|
    ensures Inv(c, states[i])
  {
    if i > 0 {
      SoundRunInv(c, states, steps, i - 1);
      assert Takes(c, states, steps, i - 1);
      StepInv(c, states[i - 1], steps[i - 1]);
    }
  }

  /** From s to t the datagram at position k has come to k', or is settled if that is negative. */
  ghost predicate MovesUp(s: State, t: State, k: nat, k': int, next: bool) {
    (k' == k && KeepsLane(s, t)) || (k' == k - 1 && SettlesFirst(s, t, next))
  }

  /** What one step does for the datagram at position k. */
  lemma OneStepOn(c: Config, s: State, step: Step, k: nat) returns (k': int, next: bool)
    requires WellFormed(c) && Inv(c, s) && !s.pump.Stopped? && k < |Lane(s)|
    requires Enabled(c, s, step) && (ReaderStep(step) || GoodStep(c, s, step))
    ensures MovesUp(s, After(c, s, step), k, k', next) && !After(c, s, step).pump.Stopped?
    ensures (if k' < 0 then 0 else Remaining(c, After(c, s, step), k')) + (if ReaderStep(step) then 0 else 1)
            <= Remaining(c, s, k) + Cost(s, step)
  {
    if ReaderStep(step) {
      ReaderOnlyAppends(c, s, step, k);
      return k, false;
    }
    GoodStepProgresses(c, s, step, k);
    k', next := k, false;
    if step.Answer? && !PushesBack(s, step) {
      k', next := k - 1, OutcomeOf(s.pump.item, step.quiche).Queued?;
    }
  }

  /** ... and so at step i of a run. */
  lemma StepOfRun(c: Config, states: seq<State>, steps: seq<Step>, i: nat, k: nat) returns (k': int, next: bool)
    requires IsSoundRun(c, states, steps) && i < |steps| && !states[i].pump.Stopped? && k < |Lane(states[i])|
    ensures i + 1 < |states| && MovesUp(states[i], states[i + 1], k, k', next) && !states[i + 1].pump.Stopped?
    ensures (if k' < 0 then 0 else Remaining(c, states[i + 1], k')) + PumpSteps(steps, i + 1)
            <= Remaining(c, states[i], k) + PumpSteps(steps, i)
               + 4096 * (PushBacks(states, steps, i + 1) - PushBacks(states, steps, i))
  {
    SoundRunInv(c, states, steps, i);
    assert Takes(c, states, steps, i);
    k', next := OneStepOn(c, states[i], steps[i], k);
  }

  /**
   Nothing gets stuck. In any interleaving of the two tasks in which no pump step fails, whatever
   quiche answers and whatever the reader adds behind it, the datagram at position k of the lane is
   given to quiche or dropped, after those before it, within a bounded number of pump steps, to which
   each push-back adds at most 4096.
   */
  lemma EveryPacketSettles(c: Config, states: seq<State>, steps: seq<Step>, k: nat) returns (i: nat, taken: seq<bool>)
    requires IsSoundRun(c, states, steps) && !states[0].pump.Stopped? && k < |Lane(states[0])|
    requires PumpSteps(steps, |steps|) >= Remaining(c, states[0], k) + 4096 * PushBacks(states, steps, |steps|)
    ensures i <= |steps| && PumpSteps(steps, i) <= Remaining(c, states[0], k) + 4096 * PushBacks(states, steps, i)
    ensures |taken| == k + 1 && Settled(states, i, taken)
  {
    i, taken := 0, [];
    ghost var at: int := k;
    while at >= 0
      invariant i <= |steps| && at == k - |taken| >= -1 && Settled(states, i, taken) && !states[i].pump.Stopped?
      invariant PumpSteps(steps, i) + (if at < 0 then 0 else Remaining(c, states[i], at))
                <= Remaining(c, states[0], k) + 4096 * PushBacks(states, steps, i)
      decreases |steps| - i
    {
      var at', next := StepOfRun(c, states, steps, i, at);
      taken := SettledNext(states, i, taken, at, at', next);
      i, at := i + 1, at';
    }
  }

  lemma SettledNext(states: seq<State>, i: nat, taken: seq<bool>, k: nat, k': int, next: bool)
    returns (taken': seq<bool>)
    requires Settled(states, i, taken) && k + |taken| < |Lane(states[0])|
    requires i + 1 < |states| && MovesUp(states[i], states[i + 1], k, k', next)
    ensures Settled(states, i + 1, taken') && k' + |taken'| == k + |taken|
  {
    if k' == k {
      SettledNoMore(states, i, taken);
      taken' := taken;
    } else {
      SettledOneMore(states, i, taken, next);
      taken' := taken + [next];
    }
  }

  /** What a pump step takes from the lane is accepted or counted as dropped. */
  lemma PumpKeepsCount(c: Config, s: State, step: Step)
    requires GoodStep(c, s, step)
    ensures var t := After(c, s, step);
            |t.tx.accepted| + t.tx.dropped + |Lane(t)| == |s.tx.accepted| + s.tx.dropped + |Lane(s)|
  {
    if step.Answer? {
      AnswerProgresses(c, s, step.quiche, 0);
    } else if !TransferStep(step) {
      LoopLeavesContainers(c, s, step);
    }
  }

  lemma {:induction false} QuietRunKeepsCount(c: Config, states: seq<State>, steps: seq<Step>, i: nat)
    requires IsGoodRun(c, states, steps) && i < |states|
    requires forall j :: 0 <= j < |steps| ==> !ReaderStep(steps[j])
    ensures |states[i].tx.accepted| + states[i].tx.dropped + |Lane(states[i])|
            == |states[0].tx.accepted| + states[0].tx.dropped + |Lane(states[0])|
  {
    if i > 0 {
      QuietRunKeepsCount(c, states, steps, i - 1);
      assert Takes(c, states, steps, i - 1);
      PumpKeepsCount(c, states[i - 1], steps[i - 1]);
    }
  }

  /**
   So if the reader adds nothing meanwhile, channel, queue and hand are emptied within the bound of
   the last datagram.
   */
  lemma EveryQuietRunDrains(c: Config, states: seq<State>, steps: seq<Step>) returns (i: nat)
    requires IsSoundRun(c, states, steps) && !states[0].pump.Stopped? && Lane(states[0]) != []
    requires PumpSteps(steps, |steps|)
             >= Remaining(c, states[0], |Lane(states[0])| - 1) + 4096 * PushBacks(states, steps, |steps|)
    requires forall j :: 0 <= j < |steps| ==> !ReaderStep(steps[j])
    ensures i < |states| && Lane(states[i]) == []
  {
    var taken;
    i, taken := EveryPacketSettles(c, states, steps, |Lane(states[0])| - 1);
    QuietRunKeepsCount(c, states, steps, i);
  }

  // ---------------------------------------------------------------- the reader's end reaches the pump

  /** With nothing left to send, how many steps the pump needs at most to notice that the reader has gone, and stop. */
  function StepsToStop(s: State): nat {
    match s.pump
    case Parked(_) => 7
    case Control => 6
    case Receive => 5
    case Maintain => 4
    case Feed(_) => 3
    case Burst(_) => if s.readerClosed then 2 else 9
    case Check(_, _) => if s.readerClosed then 1 else 8
    case InHand(_, _) => 10
    case Stopped => 0
  }

  /** ... and with something left, after it has settled the last datagram. */
  function EndBound(c: Config, s: State): nat {
    if Lane(s) == [] then StepsToStop(s) else 10 + Remaining(c, s, |Lane(s)| - 1)
  }

  lemma IdleStep(c: Config, s: State, step: Step)
    requires Enabled(c, s, step) && !s.pump.Stopped? && s.reader.Exited? && Lane(s) == []
    ensures LoopStep(step)
    ensures Lane(After(c, s, step)) == [] && After(c, s, step).reader.Exited?
  {
    LoopLeavesContainers(c, s, step);
  }

  lemma NearerToStop(c: Config, s: State, step: Step)
    requires WellFormed(c) && InControl(c, s) && !s.pump.Stopped? && s.reader.Exited? && GoodStep(c, s, step)
    requires Lane(s) == [] && LoopStep(step)
    ensures StepsToStop(After(c, s, step)) < StepsToStop(s)
    ensures After(c, s, step).pump.Stopped? ==> step == Finish(false)
  {
  }

  lemma OneStepToEnd(c: Config, s: State, step: Step)
    requires WellFormed(c) && Inv(c, s) && !s.pump.Stopped? && s.reader.Exited? && GoodStep(c, s, step)
    ensures After(c, s, step).pump.Stopped? ==> step == Finish(false)
    ensures EndBound(c, After(c, s, step)) < EndBound(c, s) + Cost(s, step)
  {
    if Lane(s) == [] {
      IdleStep(c, s, step);
      NearerToStop(c, s, step);
    } else {
      GoodStepProgresses(c, s, step, |Lane(s)| - 1);
    }
  }

  lemma StepOfRunToEnd(c: Config, states: seq<State>, steps: seq<Step>, i: nat)
    requires IsSoundRun(c, states, steps) && i < |steps| && !states[i].pump.Stopped? && states[i].reader.Exited?
    ensures i + 1 < |states| && states[i + 1].reader.Exited?
    ensures states[i + 1].pump.Stopped? ==> steps[i] == Finish(false)
    ensures EndBound(c, states[i + 1]) + 1
            <= EndBound(c, states[i]) + 4096 * (PushBacks(states, steps, i + 1) - PushBacks(states, steps, i))
  {
    SoundRunInv(c, states, steps, i);
    assert Takes(c, states, steps, i);
    assert !ReaderStep(steps[i]);
    OneStepToEnd(c, states[i], steps[i]);
  }

  /**
   Once the reader has gone, and if no pump step fails, the pump settles what is left and ends the
   session of itself, within a bounded number of steps, to which each push-back adds at most 4096.
   */
  lemma ReaderEndStopsPump(c: Config, states: seq<State>, steps: seq<Step>) returns (i: nat)
    requires IsSoundRun(c, states, steps) && states[0].reader.Exited? && !states[0].pump.Stopped?
    requires |steps| >= EndBound(c, states[0]) + 4096 * PushBacks(states, steps, |steps|)
    ensures 0 < i <= |steps| && states[i].pump.Stopped? && steps[i - 1] == Finish(false)
    ensures i <= EndBound(c, states[0]) + 4096 * PushBacks(states, steps, i)
  {
    i := 0;
    ghost var left := EndBound(c, states[0]);
    EndBoundPositive(c, states[0]);
    while !states[i].pump.Stopped?
      invariant i <= |steps| && states[i].reader.Exited? && left == EndBound(c, states[i])
      invariant if states[i].pump.Stopped? then i > 0 && steps[i - 1] == Finish(false) else left > 0
      invariant i + left <= EndBound(c, states[0]) + 4096 * PushBacks(states, steps, i)
      decreases |steps| - i
    {
      StepOfRunToEnd(c, states, steps, i);
      i := i + 1;
      left := EndBound(c, states[i]);
      EndBoundPositive(c, states[i]);
    }
  }

  lemma EndBoundPositive(c: Config, s: State)
    ensures !s.pump.Stopped? ==> EndBound(c, s) > 0
  {
  }
}
