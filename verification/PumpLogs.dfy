/** What quiche and the TUN device are given over a run of the packet pump, read off the answers themselves. */
module PumpLogs {
  import opened Bytes
  import opened Packet
  import opened Pump
  import opened PumpInvariants
  import opened PumpTheorems

  // ---------------------------------------------------------------- towards quiche

  /**
   What each answer of quiche does to the datagram in hand. It is taken if it fits the path, the queue
   has room and the send succeeds; it goes back to the front of the queue if it fits and the queue is
   full or the send reports nothing done; it is dropped if it is too long, or if it could be offered
   and the send fails.
   */
  lemma AnswerMeans(c: Config, s: State, q: Quiche)
    requires Enabled(c, s, Answer(q))
    ensures var t, item := After(c, s, Answer(q)), s.pump.item;
            var fits := q.maxWritable.None? || item.wireLen <= q.maxWritable.value;
            && (fits && !q.queueFull && q.send.SendOk? ==>
                  && t.tx.accepted == s.tx.accepted + [item.bytes[..item.wireLen]]
                  && t.tx.queue == s.tx.queue && t.tx.dropped == s.tx.dropped
                  && t.pump == Burst(s.pump.queued + 1))
            && (fits && (q.queueFull || q.send.SendDone?) ==>
                  && t.tx.queue == [item] + s.tx.queue && t.tx.accepted == s.tx.accepted
                  && t.tx.dropped == s.tx.dropped && t.tx.free == s.tx.free
                  && t.pump == Check(s.pump.queued, true))
            && (!fits || (!q.queueFull && q.send.SendError?) ==>
                  && t.tx.dropped == s.tx.dropped + 1 && t.tx.accepted == s.tx.accepted
                  && t.tx.queue == s.tx.queue && t.pump == Burst(s.pump.queued))
  {
  }

  /** Quiche says yes to the datagram in hand. */
  predicate QuicheTakes(s: State, step: Step) {
    && s.pump.InHand? && step.Answer? && s.pump.item.wireLen <= |s.pump.item.bytes|
    && (step.quiche.maxWritable.None? || s.pump.item.wireLen <= step.quiche.maxWritable.value)
    && !step.quiche.queueFull && step.quiche.send.SendOk?
  }

  /** The datagram in hand is longer than the path, or the send fails. */
  predicate QuicheRefuses(s: State, step: Step) {
    && s.pump.InHand? && step.Answer?
    && if step.quiche.maxWritable.Some? && s.pump.item.wireLen > step.quiche.maxWritable.value then true
       else !step.quiche.queueFull && step.quiche.send.SendError?
  }

  /** The reader gets a packet that may not be uploaded. */
  predicate ReaderRejects(step: Step) {
    step.TunPacket? && OutgoingVerdict(step.packet).Rejected?
  }

  /** The datagrams quiche took in the first n steps. */
  function TakenByQuiche(states: seq<State>, steps: seq<Step>, n: nat): seq<seq<byte>>
    requires n <= |steps| <= |states|
  {
    if n == 0 then []
    else
      var s, step := states[n - 1], steps[n - 1];
      TakenByQuiche(states, steps, n - 1)
      + (if QuicheTakes(s, step) then [s.pump.item.bytes[..s.pump.item.wireLen]] else [])
  }

  /** How many packets were lost in them, and to what. */
  function Losses(states: seq<State>, steps: seq<Step>, n: nat): nat
    requires n <= |steps| <= |states|
  {
    if n == 0 then 0
    else
      var s, step := states[n - 1], steps[n - 1];
      Losses(states, steps, n - 1) + (if QuicheRefuses(s, step) || ReaderRejects(step) then 1 else 0)
  }

  lemma LogStep(c: Config, s: State, step: Step)
    requires Enabled(c, s, step)
    ensures var t := After(c, s, step);
            && t.tx.accepted == s.tx.accepted +
                                (if QuicheTakes(s, step) then [s.pump.item.bytes[..s.pump.item.wireLen]] else [])
            && t.tx.dropped == s.tx.dropped + (if QuicheRefuses(s, step) || ReaderRejects(step) then 1 else 0)
  {
    if step.Answer? {
      AnswerMeans(c, s, step.quiche);
    }
  }

  /**
   In every run, what the model calls accepted is exactly what quiche said yes to, in that order, and
   the drop counter counts the datagrams it refused for good and the packets the reader rejected.
   */
  lemma {:induction false} AcceptedIsWhatQuicheTook(c: Config, states: seq<State>, steps: seq<Step>, i: nat)
    requires IsRun(c, states, steps) && i < |states|
    ensures states[i].tx.accepted == TakenByQuiche(states, steps, i)
    ensures states[i].tx.dropped == Losses(states, steps, i)
  {
    if i > 0 {
      AcceptedIsWhatQuicheTook(c, states, steps, i - 1);
      assert Takes(c, states, steps, i - 1);
      LogStep(c, states[i - 1], steps[i - 1]);
    }
  }

  /** The pump goes round again without waiting only after a full receive burst or a full upload burst. */
  lemma SpinsOnlyOnWork(c: Config, states: seq<State>, steps: seq<Step>, i: nat)
    requires IsRun(c, states, steps) && i < |steps| && steps[i].Finish? && states[i + 1].pump.Control?
    ensures states[i].pump.Check?
    ensures || states[i].lastReceived == 32
            || (states[i].tx.queue != [] && states[i].pump.queued >= c.burst && !states[i].pump.backpressure)
  {
    assert Takes(c, states, steps, i);
  }

  // ---------------------------------------------------------------- towards the TUN device

  /** The datagrams taken by the receive bursts among the first n steps. */
  function Received(steps: seq<Step>, n: nat): seq<seq<byte>>
    requires n <= |steps|
  {
    if n == 0 then []
    else Received(steps, n - 1) + (if steps[n - 1].RunReceive? then steps[n - 1].dgrams else [])
  }

  lemma {:induction false} DeliverableConcat(c: Config, a: seq<seq<byte>>, b: seq<seq<byte>>)
    ensures Deliverable(c, a + b) == Deliverable(c, a) + Deliverable(c, b)
  {
    if |b| == 0 {
      assert a + b == a;
    } else {
      var n := |b| - 1;
      DeliverableConcat(c, a, b[..n]);
      assert (a + b)[..|a + b| - 1] == a + b[..n];
    }
  }

  lemma DeliveredStep(c: Config, s: State, step: Step)
    requires Enabled(c, s, step)
    ensures After(c, s, step).delivered == s.delivered + (if step.RunReceive? then Deliverable(c, step.dgrams) else [])
  {
  }

  lemma {:induction false} DeliveredIsDeliverable(c: Config, states: seq<State>, steps: seq<Step>, i: nat)
    requires IsRun(c, states, steps) && i < |states|
    ensures states[i].delivered == Deliverable(c, Received(steps, i))
  {
    if i > 0 {
      DeliveredIsDeliverable(c, states, steps, i - 1);
      DeliveredAtStep(c, states, steps, i - 1);
    }
  }

  lemma DeliveredAtStep(c: Config, states: seq<State>, steps: seq<Step>, i: nat)
    requires IsRun(c, states, steps) && i < |steps| && states[i].delivered == Deliverable(c, Received(steps, i))
    ensures states[i + 1].delivered == Deliverable(c, Received(steps, i + 1))
  {
    assert Takes(c, states, steps, i);
    DeliveredStep(c, states[i], steps[i]);
    DeliverableConcat(c, Received(steps, i), if steps[i].RunReceive? then steps[i].dgrams else []);
    assert states[i].delivered + [] == states[i].delivered;
  }

  /**
   In every run, what reached the TUN device is, in order and once each, the packet of every datagram
   received so far that brings one.
   */
  lemma DeliveredOverRuns(c: Config, states: seq<State>, steps: seq<Step>, i: nat) returns (idx: seq<nat>)
    requires IsRun(c, states, steps) && i < |states|
    ensures Picks(c, Received(steps, i), states[i].delivered, idx)
  {
    DeliveredIsDeliverable(c, states, steps, i);
    idx := DeliveredExactly(c, Received(steps, i));
  }

  lemma {:induction false} LastReceivedIs(c: Config, states: seq<State>, steps: seq<Step>, i: nat, j: nat)
    requires IsRun(c, states, steps) && i < j < |states| && steps[i].RunReceive?
    requires forall m :: i < m < j ==> !steps[m].RunReceive?
    ensures states[j].lastReceived == |steps[i].dgrams|
    decreases j
  {
    assert Takes(c, states, steps, j - 1);
    if i < j - 1 {
      LastReceivedIs(c, states, steps, i, j - 1);
    }
  }

  /** After a receive burst of 32 datagrams the pump does not wait before it has received again. */
  lemma FullReceiveNeverSleeps(c: Config, states: seq<State>, steps: seq<Step>, i: nat, j: nat)
    requires WellFormed(c) && IsRun(c, states, steps) && i < j < |states|
    requires steps[i].RunReceive? && |steps[i].dgrams| == 32
    requires forall m :: i < m < j ==> !steps[m].RunReceive?
    ensures !states[j].pump.Parked?
  {
    LastReceivedIs(c, states, steps, i, j);
    Reachable(c, states, steps, j);
  }
}
