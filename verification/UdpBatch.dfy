/** Paced batch I/O between quiche and the kernel's UDP socket (`masque/udp.rs: UdpBatchIo`). */
module UdpBatch {
  import opened Arithmetic
  import opened Bytes

  const MAX_DATAGRAM_SIZE: nat := 1500
  const MAX_UDP_BATCH_SIZE: nat := 64
  const U64_MAX: nat := 0xffff_ffff_ffff_ffff

  /** A UDP payload quiche wants sent, no earlier than `at`. */
  datatype OutPacket = OutPacket(payload: seq<byte>, at: nat)

  /** A UDP payload the kernel took, and when. */
  datatype Sent = Sent(payload: seq<byte>, time: nat)

  /** Answers of `sendmmsg` (how many messages it takes, at most) and of `recvmmsg`. */
  datatype SendAnswer = Took(n: nat) | SendWouldBlock | SendFailed
  datatype RecvAnswer = Gave(n: nat) | RecvWouldBlock | RecvFailed

  /** How a call ends: it returns, returns an error, or is still waiting on the socket. */
  datatype Status = Done | Failed | Waiting

  datatype QuicSend = Produced(packet: OutPacket) | Exhausted | QuicError

  /** How many of these answers take at least one datagram. */
  function Productive(answers: seq<SendAnswer>): nat {
    if |answers| == 0 then 0
    else (if answers[0].Took? && answers[0].n > 0 then 1 else 0) + Productive(answers[1..])
  }

  /** How many of them are errors. */
  function SendErrors(answers: seq<SendAnswer>): nat {
    if |answers| == 0 then 0
    else (if answers[0].SendFailed? then 1 else 0) + SendErrors(answers[1..])
  }

  /**
   What sending that many datagrams used up: an error exactly if it failed, no more answers that take
   something than datagrams, and the whole list if it is left waiting.
   */
  ghost predicate Used(before: seq<SendAnswer>, after: seq<SendAnswer>, sent: int, status: Status) {
    && SendErrors(before) == SendErrors(after) + (if status.Failed? then 1 else 0)
    && Productive(before) <= Productive(after) + sent
    && (status.Waiting? ==> after == [])
  }

  /** What a drain takes, how it ends and the answers it leaves, for so many waiting datagrams. */
  datatype DrainResult = DrainResult(total: nat, status: Status, rest: seq<RecvAnswer>)

  /** A drain stops at the first batch that is not full, or at an error. */
  function DrainPlan(answers: seq<RecvAnswer>, waiting: nat, limit: nat): (r: DrainResult)
    ensures r.total <= waiting
    ensures r.status.Failed? ==> RecvFailed in answers
    ensures !r.status.Waiting? && forall a :: a in r.rest ==> a in answers
  {
    if |answers| == 0 then DrainResult(0, Done, [])
    else
      match answers[0]
      case RecvFailed => DrainResult(0, Failed, answers[1..])
      case RecvWouldBlock => DrainResult(0, Done, answers[1..])
      case Gave(n) =>
        var got := Min(n, Min(limit, waiting));
        if got == 0 || got < limit then DrainResult(got, Done, answers[1..])
        else
          var r := DrainPlan(answers[1..], waiting - got, limit);
          r.(total := got + r.total)
  }

  /** Of the answers used, all before the last gave a full batch; the drain fails exactly if the last is an error. */
  ghost predicate StopsRight(answers: seq<RecvAnswer>, r: DrainResult, limit: nat) {
    var used := |answers| - |r.rest|;
    && used >= 0 && r.rest == answers[used..]
    && (forall i :: 0 <= i < used - 1 ==> answers[i].Gave? && answers[i].n >= limit)
    && (r.status.Failed? <==> used > 0 && answers[used - 1].RecvFailed?)
  }

  lemma {:induction false} DrainStopsRight(answers: seq<RecvAnswer>, waiting: nat, limit: nat)
    requires limit > 0
    ensures StopsRight(answers, DrainPlan(answers, waiting, limit), limit)
  {
    if |answers| > 0 && answers[0].Gave? && Min(answers[0].n, Min(limit, waiting)) == limit {
      DrainStopsRight(answers[1..], waiting - limit, limit);
      OneBatchMore(answers, DrainPlan(answers[1..], waiting - limit, limit), limit);
    }
  }

  lemma OneBatchMore(answers: seq<RecvAnswer>, r: DrainResult, limit: nat)
    requires |answers| > 0 && answers[0].Gave? && answers[0].n >= limit && StopsRight(answers[1..], r, limit)
    ensures StopsRight(answers, r.(total := limit + r.total), limit)
  {
    var tail := answers[1..];
    var used := |answers| - |r.rest|;
    assert tail[used - 1..] == answers[used..];
    forall i | 0 <= i < used - 1 ensures answers[i].Gave? && answers[i].n >= limit {
      if i > 0 {
        assert tail[i - 1] == answers[i];
      }
    }
    if used > 1 {
      assert tail[used - 2] == answers[used - 1];
    }
  }

  /** A kernel that hands over as much as it has and is asked for is drained completely. */
  lemma {:induction false} DrainTakesAll(answers: seq<RecvAnswer>, waiting: nat, limit: nat)
    requires limit > 0 && |answers| * limit > waiting
    requires forall a :: a in answers ==> a.Gave? && a.n >= limit
    ensures DrainPlan(answers, waiting, limit).total == waiting && DrainPlan(answers, waiting, limit).status.Done?
  {
    assert answers[0] in answers;
    if waiting >= limit {
      assert |answers[1..]| * limit == |answers| * limit - limit;
      DrainTakesAll(answers[1..], waiting - limit, limit);
    }
  }

  /** The datagrams a drain hands to quiche: those that are not empty and fit a receive buffer. */
  function Readable(datagrams: seq<seq<byte>>, size: nat): seq<seq<byte>> {
    if |datagrams| == 0 then []
    else
      var rest := Readable(datagrams[..|datagrams| - 1], size);
      var d := datagrams[|datagrams| - 1];
      if 0 < |d| <= size then rest + [d] else rest
  }

  lemma {:induction false} ReadableConcat(a: seq<seq<byte>>, b: seq<seq<byte>>, size: nat)
    ensures Readable(a + b, size) == Readable(a, size) + Readable(b, size)
  {
    if |b| == 0 {
      assert a + b == a;
    } else {
      var b' := b[..|b| - 1];
      ReadableConcat(a, b', size);
      assert (a + b)[..|a + b| - 1] == a + b';
    }
  }

  /**
   Quiche was given, whole and in order, exactly those of these datagrams that are not empty and not
   longer than a receive buffer: the ones at the positions `idx`.
   */
  ghost predicate GivesThose(given: seq<seq<byte>>, datagrams: seq<seq<byte>>, size: nat, idx: seq<nat>) {
    && |idx| == |given|
    && (forall k :: 0 <= k < |idx| ==> idx[k] < |datagrams| && given[k] == datagrams[idx[k]])
    && (forall j, k :: 0 <= j < k < |idx| ==> idx[j] < idx[k])
    && (forall i: nat :: i < |datagrams| ==> (i in idx <==> 0 < |datagrams[i]| <= size))
  }

  ghost predicate GivesReadable(given: seq<seq<byte>>, datagrams: seq<seq<byte>>, size: nat) {
    exists idx :: GivesThose(given, datagrams, size, idx)
  }

  lemma GivesOneMore(given: seq<seq<byte>>, datagrams: seq<seq<byte>>, size: nat, idx: seq<nat>, d: seq<byte>)
    requires GivesThose(given, datagrams, size, idx) && 0 < |d| <= size
    ensures GivesThose(given + [d], datagrams + [d], size, idx + [|datagrams|])
  {
    var n := |datagrams|;
    forall i: nat | i < n + 1 ensures i in idx + [n] <==> 0 < |(datagrams + [d])[i]| <= size {
      assert i in idx + [n] <==> i in idx || i == n;
    }
  }

  lemma GivesNoMore(given: seq<seq<byte>>, datagrams: seq<seq<byte>>, size: nat, idx: seq<nat>, d: seq<byte>)
    requires GivesThose(given, datagrams, size, idx) && !(0 < |d| <= size)
    ensures GivesThose(given, datagrams + [d], size, idx)
  {
    assert |datagrams| !in idx;
  }

  lemma {:induction false} ReadableMeans(datagrams: seq<seq<byte>>, size: nat) returns (idx: seq<nat>)
    ensures GivesThose(Readable(datagrams, size), datagrams, size, idx)
  {
    idx := [];
    if |datagrams| > 0 {
      var n := |datagrams| - 1;
      var before, d := datagrams[..n], datagrams[n];
      idx := ReadableMeans(before, size);
      assert datagrams == before + [d];
      if 0 < |d| <= size {
        GivesOneMore(Readable(before, size), before, size, idx, d);
        idx := idx + [n];
      } else {
        GivesNoMore(Readable(before, size), before, size, idx, d);
      }
    }
  }

  lemma ReadableIsGiven(datagrams: seq<seq<byte>>, size: nat)
    ensures GivesReadable(Readable(datagrams, size), datagrams, size)
  {
    var idx := ReadableMeans(datagrams, size);
  }

  /** The log grew by the first packets of `out`, in order, none of them early. */
  ghost predicate Delivered(before: seq<Sent>, after: seq<Sent>, out: seq<OutPacket>) {
    && |before| <= |after| <= |before| + |out|
    && after[..|before|] == before
    && forall i :: |before| <= i < |after| ==>
         after[i].payload == out[i - |before|].payload && after[i].time >= out[i - |before|].at
  }

  lemma DeliveredConcat(a: seq<Sent>, b: seq<Sent>, c: seq<Sent>, out: seq<OutPacket>, more: seq<OutPacket>)
    requires Delivered(a, b, out) && |b| == |a| + |out| && Delivered(b, c, more)
    ensures Delivered(a, c, out + more)
  {
    assert c[..|a|] == c[..|b|][..|a|];
    forall i | |a| <= i < |c|
      ensures c[i].payload == (out + more)[i - |a|].payload && c[i].time >= (out + more)[i - |a|].at
    {
      if i < |b| {
        assert c[i] == c[..|b|][i] == b[i];
      }
    }
  }

  /**
   Everything outside the batcher. The answer lists are arbitrary; when one runs out the task is
   left waiting. Every clock reading and every wait may let time pass.
   */
  class Wire {
    var now: nat
    var ticks: seq<nat>
    var outgoing: seq<OutPacket>       // what quiche still has to send
    var quicFails: bool                // whether quiche ends with an error rather than Done
    var kernelLog: seq<Sent>
    var sendAnswers: seq<SendAnswer>
    var incoming: seq<seq<byte>>       // datagrams waiting in the socket
    var recvAnswers: seq<RecvAnswer>
    var received: seq<seq<byte>>       // what conn.recv was given

    constructor (outgoing: seq<OutPacket>, incoming: seq<seq<byte>>, quicFails: bool, ticks: seq<nat>,
                 sendAnswers: seq<SendAnswer>, recvAnswers: seq<RecvAnswer>)
      ensures this.outgoing == outgoing && this.incoming == incoming && kernelLog == [] && received == []
    {
      now, this.ticks := 0, ticks;
      this.outgoing, this.incoming, this.quicFails := outgoing, incoming, quicFails;
      this.sendAnswers, this.recvAnswers := sendAnswers, recvAnswers;
      kernelLog, received := [], [];
    }

    method Now() returns (t: nat)
      modifies `now, `ticks
      ensures t == now >= old(now)
    {
      if |ticks| > 0 {
        now, ticks := now + ticks[0], ticks[1..];
      }
      t := now;
    }

    /** A sleep lasts at least as long as asked. */
    method Sleep(d: nat)
      modifies `now, `ticks
      ensures now >= old(now) + d
    {
      var t := Now();
      now := now + d;
    }

    method QuicSendNext() returns (r: QuicSend)
      modifies `outgoing
      ensures old(outgoing) == [] ==> r == (if quicFails then QuicError else Exhausted) && outgoing == []
      ensures old(outgoing) != [] ==> r == Produced(old(outgoing)[0]) && outgoing == old(outgoing)[1..]
    {
      if outgoing == [] {
        return if quicFails then QuicError else Exhausted;
      }
      r, outgoing := Produced(outgoing[0]), outgoing[1..];
    }

    /** The answer the caller sees for a batch of this size. */
    static predicate Answers(seen: SendAnswer, given: SendAnswer, size: nat) {
      if given.Took? then seen == Took(Min(given.n, size)) else seen == given
    }

    method SendMmsg(batch: seq<seq<byte>>) returns (answer: Option<SendAnswer>)
      modifies `kernelLog, `sendAnswers
      ensures if old(sendAnswers) == [] then answer.None? && sendAnswers == []
              else && answer.Some? && sendAnswers == old(sendAnswers)[1..]
                   && Answers(answer.value, old(sendAnswers)[0], |batch|)
      ensures answer.Some? && answer.value.Took? ==>
                && answer.value.n <= |batch| && |kernelLog| == |old(kernelLog)| + answer.value.n
                && kernelLog[..|old(kernelLog)|] == old(kernelLog)
                && forall i :: 0 <= i < answer.value.n ==> kernelLog[|old(kernelLog)| + i] == Sent(batch[i], now)
      ensures !(answer.Some? && answer.value.Took?) ==> kernelLog == old(kernelLog)
    {
      if sendAnswers == [] {
        return None;
      }
      answer := Some(sendAnswers[0]);
      sendAnswers := sendAnswers[1..];
      if answer.value.Took? {
        var n := Min(answer.value.n, |batch|);
        answer := Some(Took(n));
        var stamp := now;
        kernelLog := kernelLog + seq(n, i requires 0 <= i < n <= |batch| => Sent(batch[i], stamp));
      }
    }

    /** The datagrams handed out, still at their full length. */
    method RecvMmsg(limit: nat) returns (datagrams: seq<seq<byte>>, failed: bool)
      modifies `incoming, `recvAnswers
      ensures |datagrams| <= limit && old(incoming) == datagrams + incoming
      ensures failed <==> old(recvAnswers) != [] && old(recvAnswers)[0].RecvFailed?
      ensures |datagrams| == if old(recvAnswers) != [] && old(recvAnswers)[0].Gave?
                             then Min(old(recvAnswers)[0].n, Min(limit, |old(incoming)|)) else 0
      ensures recvAnswers == if old(recvAnswers) == [] then [] else old(recvAnswers)[1..]
    {
      datagrams, failed := [], false;
      if recvAnswers != [] {
        var answer := recvAnswers[0];
        recvAnswers := recvAnswers[1..];
        failed := answer.RecvFailed?;
        if answer.Gave? {
          var n := Min(answer.n, Min(limit, |incoming|));
          datagrams, incoming := incoming[..n], incoming[n..];
        }
      }
    }
  }

  /** The buffers and counters of `UdpBatchIo`. */
  class UdpBatchIo {
    var txBuffers: seq<seq<byte>>
    var txLens: seq<nat>
    var txAt: seq<nat>
    var rxBuffers: seq<seq<byte>>
    const batchSize: nat
    const datagramSize: nat
    var lastPacingWait: nat
    var maxPacingWait: nat
    var pacedSleeps: nat

    ghost predicate Valid()
      reads this
    {
      && 1 <= batchSize <= MAX_UDP_BATCH_SIZE && datagramSize >= MAX_DATAGRAM_SIZE
      && |txBuffers| == |txLens| == |txAt| == |rxBuffers| == batchSize
      && (forall i :: 0 <= i < batchSize ==> |txBuffers[i]| == datagramSize)
      && (forall i :: 0 <= i < batchSize ==> |rxBuffers[i]| == datagramSize)
      && lastPacingWait <= maxPacingWait && pacedSleeps <= U64_MAX
    }

    constructor (datagramSize: nat, requestedBatchSize: nat)
      ensures Valid()
      ensures this.datagramSize >= datagramSize
      ensures requestedBatchSize in {0, 1} ==> batchSize == 1
      ensures 1 <= requestedBatchSize <= MAX_UDP_BATCH_SIZE ==> batchSize == requestedBatchSize
      ensures requestedBatchSize > MAX_UDP_BATCH_SIZE ==> batchSize == MAX_UDP_BATCH_SIZE
    {
      var n := if requestedBatchSize < 1 then 1 else Min(requestedBatchSize, MAX_UDP_BATCH_SIZE);
      var size := if datagramSize < MAX_DATAGRAM_SIZE then MAX_DATAGRAM_SIZE else datagramSize;
      batchSize, this.datagramSize := n, size;
      txBuffers := seq(n, _ => Zeros(size));
      rxBuffers := seq(n, _ => Zeros(size));
      txLens := seq(n, _ => 0);
      txAt := seq(n, _ => 0);
      lastPacingWait, maxPacingWait, pacedSleeps := 0, 0, 0;
    }

    /** Slots lo..hi hold the packets `batch[lo..hi]`, whatever stale bytes follow them. */
    ghost predicate Slots(batch: seq<OutPacket>, lo: nat, hi: nat)
      requires Valid()
      reads this
    {
      && hi <= batchSize && hi <= |batch|
      && forall i :: lo <= i < hi ==>
           txLens[i] <= datagramSize && txBuffers[i][..txLens[i]] == batch[i].payload && txAt[i] == batch[i].at
    }

    /** The kernel has taken the first `sent` packets of the batch since log0. */
    ghost predicate Progress(w: Wire, log0: seq<Sent>, batch: seq<OutPacket>, sent: nat)
      reads w`kernelLog
    {
      Delivered(log0, w.kernelLog, batch) && |w.kernelLog| == |log0| + sent
    }

    /** One `sendmmsg` over the slots lo..hi. */
    method SendOnce(w: Wire, lo: nat, hi: nat, ghost batch: seq<OutPacket>, ghost log0: seq<Sent>)
      returns (answer: Option<SendAnswer>)
      requires Valid() && lo < hi && Slots(batch, lo, hi)
      requires forall i :: lo <= i < hi ==> batch[i].at <= w.now
      requires Progress(w, log0, batch, lo)
      modifies w`kernelLog, w`sendAnswers
      ensures answer.None? ==> w.sendAnswers == old(w.sendAnswers) == []
      ensures answer.Some? ==> |w.sendAnswers| < |old(w.sendAnswers)|
      ensures answer.Some? ==> Used(old(w.sendAnswers), w.sendAnswers, |w.kernelLog| - |old(w.kernelLog)|,
                                    if answer.value.SendFailed? then Failed else Done)
      ensures if answer.Some? && answer.value.Took?
              then answer.value.n <= hi - lo && Progress(w, log0, batch, lo + answer.value.n)
              else Progress(w, log0, batch, lo)
    {
      var messages: seq<seq<byte>> := [];
      for i := lo to hi
        invariant |messages| == i - lo
        invariant forall j :: 0 <= j < i - lo ==> messages[j] == batch[lo + j].payload
      {
        messages := messages + [txBuffers[i][..txLens[i]]];
      }
      ghost var before := w.kernelLog;
      answer := w.SendMmsg(messages);
      if answer.Some? && answer.value.Took? {
        forall i | |log0| <= i < |w.kernelLog|
          ensures w.kernelLog[i].payload == batch[i - |log0|].payload && w.kernelLog[i].time >= batch[i - |log0|].at
        {
          if i < |before| {
            assert w.kernelLog[i] == w.kernelLog[..|before|][i];
          } else {
            assert w.kernelLog[|before| + (i - |before|)] == Sent(messages[i - |before|], w.now);
          }
        }
        assert w.kernelLog[..|log0|] == w.kernelLog[..|before|][..|log0|];
      }
    }

    /** `send_batch`: retries partial sends until every message of the range is taken. */
    method SendBatch(w: Wire, start: nat, end: nat, ghost batch: seq<OutPacket>, ghost log0: seq<Sent>)
      returns (status: Status)
      requires Valid() && start <= end && Slots(batch, start, end)
      requires forall i :: start <= i < end ==> batch[i].at <= w.now
      requires Progress(w, log0, batch, start)
      modifies w`kernelLog, w`sendAnswers, w`now, w`ticks
      ensures Delivered(log0, w.kernelLog, batch)
      ensures if status.Done? then Progress(w, log0, batch, end) else |w.kernelLog| < |log0| + end
      ensures Used(old(w.sendAnswers), w.sendAnswers, |w.kernelLog| - |old(w.kernelLog)|, status)
      ensures w.now >= old(w.now)
    {
      var sent := start;
      while sent < end
        invariant start <= sent <= end
        invariant Progress(w, log0, batch, sent)
        invariant Used(old(w.sendAnswers), w.sendAnswers, sent - start, Done)
        invariant w.now >= old(w.now)
        decreases |w.sendAnswers|
      {
        var answer := SendOnce(w, sent, end, batch, log0);
        match answer
        case None =>
          return Waiting;
        case Some(SendFailed) =>
          return Failed;
        case Some(SendWouldBlock) =>
          var t := w.Now();
        case Some(Took(n)) =>
          sent := sent + n;
          if n == 0 {
            var t := w.Now();
          }
      }
      status := Done;
    }

    /** The pacing wait before a batch: afterwards its first datagram is due, and a wait has been counted. */
    method AwaitDeadline(w: Wire, at: nat) returns (ghost wait: nat)
      requires Valid()
      modifies `lastPacingWait, `maxPacingWait, `pacedSleeps, w`now, w`ticks
      ensures Valid() && w.now >= at && w.now >= old(w.now)
      ensures if at > old(w.now) then wait <= at - old(w.now) else wait == 0
      ensures w.now >= old(w.now) + wait && maxPacingWait == Max(old(maxPacingWait), wait)
      ensures if wait == 0 then lastPacingWait == old(lastPacingWait) && pacedSleeps == old(pacedSleeps)
              else lastPacingWait == wait && pacedSleeps == Min(old(pacedSleeps) + 1, U64_MAX)
    {
      var t := w.Now();
      var left := if at > t then at - t else 0;
      wait := left;
      if left != 0 {
        lastPacingWait := left;
        maxPacingWait := if maxPacingWait < left then left else maxPacingWait;
        pacedSleeps := Min(pacedSleeps + 1, U64_MAX);
        w.Sleep(left);
      }
    }

    /** The longest run of slots from `start` on whose deadlines have passed. */
    method DueUntil(start: nat, count: nat, now: nat) returns (end: nat)
      requires Valid() && start < count <= batchSize && txAt[start] <= now
      ensures start < end <= count
      ensures forall i :: start <= i < end ==> txAt[i] <= now
      ensures end < count ==> txAt[end] > now
    {
      end := start + 1;
      while end < count && txAt[end] <= now
        invariant start < end <= count
        invariant forall i :: start <= i < end ==> txAt[i] <= now
      {
        end := end + 1;
      }
    }

    /** `send_paced_batches`: waits for the next deadline, then sends everything already due. */
    method SendPacedBatches(w: Wire, count: nat, ghost batch: seq<OutPacket>) returns (status: Status)
      requires Valid() && count == |batch| && Slots(batch, 0, count)
      modifies `lastPacingWait, `maxPacingWait, `pacedSleeps, w`kernelLog, w`sendAnswers, w`now, w`ticks
      ensures Valid()
      ensures Delivered(old(w.kernelLog), w.kernelLog, batch)
      ensures if status.Done? then |w.kernelLog| == |old(w.kernelLog)| + count
              else |w.kernelLog| < |old(w.kernelLog)| + count
      ensures Used(old(w.sendAnswers), w.sendAnswers, |w.kernelLog| - |old(w.kernelLog)|, status)
    {
      var start := 0;
      ghost var log0 := w.kernelLog;
      while start < count
        invariant start <= count && Valid() && Slots(batch, 0, count)
        invariant Progress(w, log0, batch, start)
        invariant Used(old(w.sendAnswers), w.sendAnswers, start, Done)
      {
        ghost var wait := AwaitDeadline(w, txAt[start]);
        var now := w.Now();
        var end := DueUntil(start, count, now);
        status := SendBatch(w, start, end, batch, log0);
        if !status.Done? {
          return;
        }
        start := end;
      }
      status := Done;
    }

    /** The inner loop of `flush_quic`: quiche writes packets into slots until it or the batch is exhausted. */
    method FillSlots(w: Wire, ghost all: seq<OutPacket>, ghost done: nat)
      returns (count: nat, drained: bool, failed: bool)
      requires Valid() && done <= |all| && w.outgoing == all[done..]
      requires forall p :: p in all ==> |p.payload| <= datagramSize
      modifies `txBuffers, `txLens, `txAt, w`outgoing
      ensures Valid() && done + count <= |all| && w.outgoing == all[done + count..]
      ensures count <= batchSize && Slots(all[done..done + count], 0, count)
      ensures failed ==> w.quicFails && w.outgoing == []
      ensures drained ==> w.outgoing == [] && !w.quicFails
      ensures !drained && !failed ==> count == batchSize
    {
      count, drained, failed := 0, false, false;
      while count < batchSize
        invariant Valid() && count <= batchSize && done + count <= |all|
        invariant w.outgoing == all[done + count..]
        invariant Slots(all[done..done + count], 0, count)
      {
        var next := w.QuicSendNext();
        match next
        case Exhausted =>
          drained := true;
          return;
        case QuicError =>
          failed := true;
          return;
        case Produced(packet) =>
          assert packet == all[done + count];
          assert packet in all;
          txBuffers := txBuffers[count := Splice(txBuffers[count], 0, packet.payload)];
          txLens := txLens[count := |packet.payload|];
          txAt := txAt[count := packet.at];
          count := count + 1;
      }
    }

    /**
     `flush_quic`: on success the kernel received exactly what quiche produced, in order, each
     datagram no earlier than quiche asked. However the call ends, it received a prefix of it. The call
     fails only for an error of quiche or of the socket, and waits only while there is something left
     to send: it succeeds if quiche does and the socket takes something often enough.
     */
    method FlushQuic(w: Wire) returns (status: Status)
      requires Valid()
      requires forall p :: p in w.outgoing ==> |p.payload| <= datagramSize
      modifies this, w`kernelLog, w`sendAnswers, w`now, w`ticks, w`outgoing
      ensures Valid()
      ensures Delivered(old(w.kernelLog), w.kernelLog, old(w.outgoing))
      ensures status.Done? ==> |w.kernelLog| == |old(w.kernelLog)| + |old(w.outgoing)| && w.outgoing == []
      ensures status.Done? ==> !w.quicFails
      ensures status.Waiting? || (status.Failed? && !(w.quicFails && w.outgoing == [])) ==>
                |w.kernelLog| < |old(w.kernelLog)| + |old(w.outgoing)|
      ensures Used(old(w.sendAnswers), w.sendAnswers, |w.kernelLog| - |old(w.kernelLog)|, status)
              || (status.Failed? && w.quicFails && w.outgoing == []
                  && Used(old(w.sendAnswers), w.sendAnswers, |w.kernelLog| - |old(w.kernelLog)|, Done))
      ensures !w.quicFails && SendErrors(old(w.sendAnswers)) == 0 && Productive(old(w.sendAnswers)) >= |old(w.outgoing)|
              ==> status.Done?
    {
      ghost var all := w.outgoing;
      ghost var done: nat := 0;
      assert all[..0] == [];
      while true
        invariant Valid() && done <= |all| && w.outgoing == all[done..]
        invariant Delivered(old(w.kernelLog), w.kernelLog, all[..done])
        invariant |w.kernelLog| == |old(w.kernelLog)| + done
        invariant Used(old(w.sendAnswers), w.sendAnswers, done, Done)
        decreases |w.outgoing|
      {
        ghost var before := w.kernelLog;
        var count, drained, failed := FillSlots(w, all, done);
        if failed {
          DeliveredPrefix(old(w.kernelLog), w.kernelLog, all, done);
          return Failed;
        }
        if count > 0 {
          ghost var batch := all[done..done + count];
          status := SendPacedBatches(w, count, batch);
          DeliveredConcat(old(w.kernelLog), before, w.kernelLog, all[..done], batch);
          assert all[..done] + batch == all[..done + count];
          if !status.Done? {
            DeliveredPrefix(old(w.kernelLog), w.kernelLog, all, done + count);
            return;
          }
          done := done + count;
        }
        if drained {
          assert all[..done] == all;
          return Done;
        }
      }
    }

    /** `try_recv_batch` through `recvmmsg`: lengths land in the array the sender also uses. */
    method TryRecvBatch(w: Wire) returns (count: nat, failed: bool, ghost datagrams: seq<seq<byte>>)
      requires Valid()
      modifies `rxBuffers, `txLens, w`incoming, w`recvAnswers
      ensures Valid() && count == |datagrams| <= batchSize
      ensures failed <==> old(w.recvAnswers) != [] && old(w.recvAnswers)[0].RecvFailed?
      ensures count == if old(w.recvAnswers) != [] && old(w.recvAnswers)[0].Gave?
                       then Min(old(w.recvAnswers)[0].n, Min(batchSize, |old(w.incoming)|)) else 0
      ensures w.recvAnswers == if old(w.recvAnswers) == [] then [] else old(w.recvAnswers)[1..]
      ensures old(w.incoming) == datagrams + w.incoming
      ensures forall i :: 0 <= i < count ==> Held(i, datagrams[i])
    {
      var got: seq<seq<byte>>;
      got, failed := w.RecvMmsg(batchSize);
      count, datagrams := |got|, got;
      for i := 0 to count
        invariant Valid() && w.incoming == old(w.incoming)[count..]
        invariant w.recvAnswers == if old(w.recvAnswers) == [] then [] else old(w.recvAnswers)[1..]
        invariant forall j :: 0 <= j < i ==> Held(j, datagrams[j])
      {
        var n := Min(|got[i]|, datagramSize);
        rxBuffers := rxBuffers[i := Splice(rxBuffers[i], 0, got[i][..n])];
        txLens := txLens[i := if |got[i]| > datagramSize then 0 else n];
      }
    }

    /** Receive slot i holds datagram d, or has length zero if d was truncated. */
    ghost predicate Held(i: nat, d: seq<byte>)
      requires Valid() && i < batchSize
      reads this
    {
      if |d| > datagramSize then txLens[i] == 0
      else txLens[i] == |d| && rxBuffers[i][..|d|] == d
    }

    /** The inner `for` of `drain_quic`: each received datagram goes to quiche unless its length is zero. */
    method HandOver(w: Wire, count: nat, ghost datagrams: seq<seq<byte>>)
      requires Valid() && count == |datagrams| <= batchSize
      requires forall i :: 0 <= i < count ==> Held(i, datagrams[i])
      modifies w`received
      ensures w.received == old(w.received) + Readable(datagrams, datagramSize)
    {
      assert datagrams[..0] == [];
      for index := 0 to count
        invariant w.received == old(w.received) + Readable(datagrams[..index], datagramSize)
      {
        assert datagrams[..index + 1][..index] == datagrams[..index];
        assert Held(index, datagrams[index]);
        var len := txLens[index];
        if len == 0 {
          continue;
        }
        w.received := w.received + [rxBuffers[index][..len]];
      }
      assert datagrams[..count] == datagrams;
    }

    /** One turn of the loop of `drain_quic`: a batch is taken and handed over, as the plan has it. */
    method DrainBatch(w: Wire) returns (count: nat, failed: bool, ghost datagrams: seq<seq<byte>>)
      requires Valid()
      modifies `rxBuffers, `txLens, w`incoming, w`recvAnswers, w`received
      ensures Valid() && count == |datagrams| && old(w.incoming) == datagrams + w.incoming
      ensures w.received == old(w.received) + Readable(datagrams, datagramSize)
      ensures count <= batchSize && (failed ==> count == 0)
      ensures var plan := DrainPlan(old(w.recvAnswers), |old(w.incoming)|, batchSize);
              if failed then plan == DrainResult(0, Failed, w.recvAnswers)
              else if count < batchSize then plan == DrainResult(count, Done, w.recvAnswers)
              else Continues(plan, count, DrainPlan(w.recvAnswers, |w.incoming|, batchSize))
    {
      count, failed, datagrams := TryRecvBatch(w);
      HandOver(w, count, datagrams);
    }

    /** The loop of `drain_quic`. */
    method DrainBatches(w: Wire) returns (total: nat, status: Status, ghost taken: seq<seq<byte>>)
      requires Valid()
      modifies `rxBuffers, `txLens, w`incoming, w`recvAnswers, w`received
      ensures DrainResult(total, status, w.recvAnswers) == DrainPlan(old(w.recvAnswers), |old(w.incoming)|, batchSize)
      ensures Valid() && total == |taken| && old(w.incoming) == taken + w.incoming
      ensures w.received == old(w.received) + Readable(taken, datagramSize)
    {
      total, taken := 0, [];
      ghost var all := w.incoming;
      while true
        invariant Valid() && total == |taken| && all == taken + w.incoming
        invariant w.received == old(w.received) + Readable(taken, datagramSize)
        invariant Continues(DrainPlan(old(w.recvAnswers), |all|, batchSize), total,
                            DrainPlan(w.recvAnswers, |w.incoming|, batchSize))
        decreases |w.incoming|
      {
        var count, failed;
        ghost var datagrams;
        count, failed, datagrams := DrainBatch(w);
        ReadableConcat(taken, datagrams, datagramSize);
        Regroup(all, taken, datagrams, w.incoming);
        taken := taken + datagrams;
        if failed {
          return total, Failed, taken;
        }
        if count == 0 {
          return total, Done, taken;
        }
        total := total + count;
        if count < batchSize {
          return total, Done, taken;
        }
      }
    }

    /**
     `drain_quic`: quiche is given exactly the non-empty, non-truncated datagrams taken from the socket,
     whole and in order, whatever the length array held before; and the drain goes on until a batch
     that is not full, or an error.
     */
    method DrainQuic(w: Wire)
      returns (total: nat, status: Status, ghost taken: seq<seq<byte>>, ghost given: seq<seq<byte>>)
      requires Valid()
      modifies `rxBuffers, `txLens, w`incoming, w`recvAnswers, w`received
      ensures DrainResult(total, status, w.recvAnswers) == DrainPlan(old(w.recvAnswers), |old(w.incoming)|, batchSize)
      ensures Valid() && total == |taken| && old(w.incoming) == taken + w.incoming
      ensures w.received == old(w.received) + given && GivesReadable(given, taken, datagramSize)
      ensures given == Readable(taken, datagramSize)
    {
      total, status, taken := DrainBatches(w);
      ReadableIsGiven(taken, datagramSize);
      given := Readable(taken, datagramSize);
    }
  }

  /** A drain that has taken so much so far and goes on as `rest`. */
  ghost predicate Continues(whole: DrainResult, taken: nat, rest: DrainResult) {
    whole == rest.(total := taken + rest.total)
  }

  lemma DeliveredPrefix(before: seq<Sent>, after: seq<Sent>, all: seq<OutPacket>, n: nat)
    requires n <= |all| && Delivered(before, after, all[..n])
    ensures Delivered(before, after, all)
  {
  }

  // ---------------------------------------------------------------- whole runs

  /** A step of the session: quiche produces packets and is flushed, or datagrams arrive and are drained. */
  datatype Op = Flush(produced: seq<OutPacket>) | Drain(arrived: seq<seq<byte>>)

  function AllProduced(ops: seq<Op>): seq<OutPacket> {
    if |ops| == 0 then []
    else AllProduced(ops[..|ops| - 1]) + ProducedBy(ops[|ops| - 1])
  }

  function AllArrived(ops: seq<Op>): seq<seq<byte>> {
    if |ops| == 0 then []
    else AllArrived(ops[..|ops| - 1]) + ArrivedBy(ops[|ops| - 1])
  }

  lemma Regroup(all: seq<seq<byte>>, taken: seq<seq<byte>>, batch: seq<seq<byte>>, left: seq<seq<byte>>)
    requires all == taken + (batch + left)
    ensures all == taken + batch + left
  {
  }

  /** Between operations: everything produced was delivered, everything taken was handed over. */
  ghost predicate InStep(
    io: UdpBatchIo, w: Wire, produced: seq<OutPacket>, arrived: seq<seq<byte>>, taken: seq<seq<byte>>)
    reads io, w
  {
    && io.Valid() && w.outgoing == []
    && Delivered([], w.kernelLog, produced) && |w.kernelLog| == |produced|
    && arrived == taken + w.incoming
    && w.received == Readable(taken, io.datagramSize)
  }

  lemma {:induction false} ProducedGrows(ops: seq<Op>, n: nat)
    requires n <= |ops|
    ensures |AllProduced(ops[..n])| <= |AllProduced(ops)|
    decreases |ops|
  {
    if n < |ops| {
      ProducedGrows(ops[..|ops| - 1], n);
      assert ops[..|ops| - 1][..n] == ops[..n];
    } else {
      assert ops[..n] == ops;
    }
  }

  method FlushStep(io: UdpBatchIo, w: Wire, more: seq<OutPacket>,
                   ghost produced: seq<OutPacket>, ghost arrived: seq<seq<byte>>, ghost taken: seq<seq<byte>>)
    returns (status: Status)
    requires InStep(io, w, produced, arrived, taken)
    requires forall p :: p in more ==> |p.payload| <= io.datagramSize
    modifies io, w
    ensures io.Valid() && w.quicFails == old(w.quicFails) && w.recvAnswers == old(w.recvAnswers)
    ensures status.Done? ==> InStep(io, w, produced + more, arrived, taken)
    ensures status.Done? ==> Used(old(w.sendAnswers), w.sendAnswers, |more|, Done)
    ensures status.Failed? ==> w.quicFails || SendErrors(old(w.sendAnswers)) > 0
    ensures status.Waiting? ==> Productive(old(w.sendAnswers)) < |more|
  {
    ghost var log := w.kernelLog;
    w.outgoing := more;
    status := io.FlushQuic(w);
    if status.Done? {
      DeliveredConcat([], log, w.kernelLog, produced, more);
    }
  }

  method DrainStep(io: UdpBatchIo, w: Wire, more: seq<seq<byte>>,
                   ghost produced: seq<OutPacket>, ghost arrived: seq<seq<byte>>, ghost taken: seq<seq<byte>>)
    returns (status: Status, ghost taken': seq<seq<byte>>)
    requires InStep(io, w, produced, arrived, taken)
    modifies io, w
    ensures io.Valid() && w.quicFails == old(w.quicFails) && w.sendAnswers == old(w.sendAnswers)
    ensures InStep(io, w, produced, arrived + more, taken')
    ensures !status.Waiting? && (status.Failed? ==> RecvFailed in old(w.recvAnswers))
    ensures forall a :: a in w.recvAnswers ==> a in old(w.recvAnswers)
  {
    w.incoming := w.incoming + more;
    var total;
    ghost var batch, given;
    total, status, batch, given := io.DrainQuic(w);
    ReadableConcat(taken, batch, io.datagramSize);
    Regroup(arrived + more, taken, batch, w.incoming);
    taken' := taken + batch;
  }

  function ProducedBy(op: Op): seq<OutPacket> {
    if op.Flush? then op.produced else []
  }

  function ArrivedBy(op: Op): seq<seq<byte>> {
    if op.Drain? then op.arrived else []
  }

  method Perform(io: UdpBatchIo, w: Wire, op: Op,
                 ghost produced: seq<OutPacket>, ghost arrived: seq<seq<byte>>, ghost taken: seq<seq<byte>>)
    returns (status: Status, ghost taken': seq<seq<byte>>)
    requires InStep(io, w, produced, arrived, taken)
    requires forall p :: p in ProducedBy(op) ==> |p.payload| <= io.datagramSize
    modifies io, w
    ensures io.Valid() && w.quicFails == old(w.quicFails)
    ensures status.Done? ==> InStep(io, w, produced + ProducedBy(op), arrived + ArrivedBy(op), taken')
    ensures status.Done? ==> Used(old(w.sendAnswers), w.sendAnswers, |ProducedBy(op)|, Done)
    ensures status.Failed? ==> w.quicFails || SendErrors(old(w.sendAnswers)) > 0 || RecvFailed in old(w.recvAnswers)
    ensures status.Waiting? ==> Productive(old(w.sendAnswers)) < |ProducedBy(op)|
    ensures forall a :: a in w.recvAnswers ==> a in old(w.recvAnswers)
  {
    match op
    case Flush(more) =>
      status := FlushStep(io, w, more, produced, arrived, taken);
      taken' := taken;
      assert arrived + [] == arrived;
    case Drain(more) =>
      status, taken' := DrainStep(io, w, more, produced, arrived, taken);
      assert produced + [] == produced;
  }

  /**
   Any interleaving of flushes and drains through one batcher, which share a single length array:
   the kernel is given exactly what quiche produced over the whole run, and quiche exactly the readable
   part of what the kernel handed over, unless quiche or the socket reports an error or the socket
   takes something less often than there are datagrams.
   */
  method Session(io: UdpBatchIo, w: Wire, ops: seq<Op>) returns (status: Status, ghost taken: seq<seq<byte>>)
    requires InStep(io, w, [], [], [])
    requires forall op, p :: op in ops && op.Flush? && p in op.produced ==> |p.payload| <= io.datagramSize
    modifies io, w
    ensures io.Valid() && w.quicFails == old(w.quicFails)
    ensures status.Done? ==> InStep(io, w, AllProduced(ops), AllArrived(ops), taken)
    ensures status.Done? ==> AllArrived(ops) == taken + w.incoming && GivesReadable(w.received, taken, io.datagramSize)
    ensures status.Failed? ==> w.quicFails || SendErrors(old(w.sendAnswers)) > 0 || RecvFailed in old(w.recvAnswers)
    ensures status.Waiting? ==> Productive(old(w.sendAnswers)) < |AllProduced(ops)|
  {
    taken := [];
    for n := 0 to |ops|
      invariant w.quicFails == old(w.quicFails)
      invariant InStep(io, w, AllProduced(ops[..n]), AllArrived(ops[..n]), taken)
      invariant Used(old(w.sendAnswers), w.sendAnswers, |AllProduced(ops[..n])|, Done)
      invariant forall a :: a in w.recvAnswers ==> a in old(w.recvAnswers)
    {
      assert ops[..n + 1][..n] == ops[..n];
      assert ops[n] in ops;
      ProducedGrows(ops, n + 1);
      status, taken := Perform(io, w, ops[n], AllProduced(ops[..n]), AllArrived(ops[..n]), taken);
      if !status.Done? {
        return;
      }
    }
    assert ops[..|ops|] == ops;
    ReadableIsGiven(taken, io.datagramSize);
    status := Done;
  }
}
