/** Reconnecting and endpoint failover over whole runs (`supervisor.rs`, `masque.rs: run_tunnel_session`). */
module Supervisor {
  import opened Arithmetic
  import opened Bytes
  import opened NativeTun
  import opened Packet
  import opened ConnectIp
  import opened OnePacket
  import History
  import Endpoints

  /** The configuration the supervisor reads. */
  datatype Config = Config(
    endpointCount: nat, initialTunMtu: nat, maxTunMtu: nat, tunnelIpv6: bool, pmtudEnabled: bool, reconnectAlways: bool)

  /** The configuration `nativetun` builds from accepted options. */
  function FromArgs(a: Args, endpointCount: nat, reconnectAlways: bool): (c: Config)
    requires ArgsAccepted(a)
    ensures c.initialTunMtu <= c.maxTunMtu <= U16_MAX && c.initialTunMtu == a.mtu && c.maxTunMtu == a.maxTunMtu
    ensures c.endpointCount == endpointCount && c.reconnectAlways == reconnectAlways
    ensures c.pmtudEnabled != a.disablePmtud && c.tunnelIpv6 != a.noTunnelIpv6
  {
    Config(endpointCount, a.mtu, a.maxTunMtu, !a.noTunnelIpv6, !a.disablePmtud, reconnectAlways)
  }

  /** `next_endpoint_index`. */
  function NextEndpointIndex(current: nat, endpointCount: nat, established: bool): (i: nat)
    requires endpointCount > 0
    ensures i < endpointCount
  {
    if established then 0 else (current + 1) % endpointCount
  }

  // ---------------------------------------------------------------- which endpoint is tried when

  /** How many attempts in a row have failed to establish a session, up to now. */
  function FailuresInARow(outcomes: seq<bool>): nat {
    if |outcomes| == 0 || outcomes[|outcomes| - 1] then 0
    else 1 + FailuresInARow(outcomes[..|outcomes| - 1])
  }

  /** The index the loop variable holds after these outcomes (true: the session was established). */
  function IndexAfter(outcomes: seq<bool>, endpointCount: nat): (i: nat)
    requires endpointCount > 0
    ensures i < endpointCount
  {
    if |outcomes| == 0 then 0
    else
      var n := |outcomes| - 1;
      NextEndpointIndex(IndexAfter(outcomes[..n], endpointCount), endpointCount, outcomes[n])
  }

  lemma NextModulo(k: nat, n: nat)
    requires n > 0
    ensures (k % n + 1) % n == (k + 1) % n
  {
    var q, r := k / n, k % n;
    assert k == n * q + r;
    if r + 1 < n {
      DivisionUnique(r + 1, n, 0, r + 1);
      DivisionUnique(k + 1, n, q, r + 1);
    } else {
      DivisionUnique(n, n, 1, 0);
      Wraps(k, n, q);
    }
  }

  lemma Wraps(k: nat, n: nat, q: nat)
    requires n > 0 && k == n * q + (n - 1)
    ensures (k + 1) % n == 0
  {
    assert n * (q + 1) == n * q + n;
    DivisionUnique(k + 1, n, q + 1, 0);
  }

  /** The next endpoint is the number of failures since the last established session, wrapped round. */
  lemma {:induction false} FailoverRotates(outcomes: seq<bool>, endpointCount: nat)
    requires endpointCount > 0
    ensures IndexAfter(outcomes, endpointCount) == FailuresInARow(outcomes) % endpointCount
  {
    if |outcomes| > 0 {
      var rest := outcomes[..|outcomes| - 1];
      FailoverRotates(rest, endpointCount);
      if outcomes[|outcomes| - 1] {
        DivisionUnique(0, endpointCount, 0, 0);
      } else {
        NextModulo(FailuresInARow(rest), endpointCount);
      }
    } else {
      DivisionUnique(0, endpointCount, 0, 0);
    }
  }

  lemma {:induction false} FailuresAdd(before: seq<bool>, k: nat)
    ensures FailuresInARow(ThenFailures(before, k)) == FailuresInARow(before) + k
  {
    if k == 0 {
      assert ThenFailures(before, 0) == before;
    } else {
      FailuresAdd(before, k - 1);
      var all := ThenFailures(before, k);
      assert all[..|all| - 1] == ThenFailures(before, k - 1);
    }
  }

  /** A history followed by k failures. */
  function ThenFailures(before: seq<bool>, k: nat): seq<bool> {
    before + seq(k, _ => false)
  }

  /**
   From the start, or after any established session, the k-th attempt of a series of failures goes to
   the k-th selected endpoint: n failures try each of the n endpoints exactly once, in the selection's
   class order, and the next attempt starts over.
   */
  lemma EachEndpointOnceInOrder(before: seq<bool>, endpoints: seq<Endpoints.Endpoint>, k: nat)
    requires before == [] || before[|before| - 1]
    requires k <= |endpoints| && endpoints != []
    ensures var i := IndexAfter(ThenFailures(before, k), |endpoints|);
            if k < |endpoints| then i == k else i == 0
    ensures Endpoints.SortedByClass(endpoints) ==>
              forall j :: 0 <= j <= k < |endpoints| ==>
                Endpoints.Class(endpoints[IndexAfter(ThenFailures(before, j), |endpoints|)])
                <= Endpoints.Class(endpoints[IndexAfter(ThenFailures(before, k), |endpoints|)])
  {
    AttemptAt(before, |endpoints|, k);
    if k < |endpoints| {
      forall j | 0 <= j <= k ensures IndexAfter(ThenFailures(before, j), |endpoints|) == j {
        AttemptAt(before, |endpoints|, j);
      }
    }
  }

  lemma AttemptAt(before: seq<bool>, n: nat, k: nat)
    requires before == [] || before[|before| - 1]
    requires k <= n && n > 0
    ensures IndexAfter(ThenFailures(before, k), n) == if k < n then k else 0
  {
    FailuresAdd(before, k);
    FailoverRotates(ThenFailures(before, k), n);
    if k < n {
      DivisionUnique(k, n, 0, k);
    } else {
      DivisionUnique(k, n, 1, 0);
    }
  }

  // ---------------------------------------------------------------- the loop

  /** A QUIC stream id. */
  type StreamId = s: nat | s < 0x1_0000_0000_0000_0000

  /**
   What one trip round the loop meets: the packet that ends the wait (none if the device fails, an
   empty one if it is closed), and how the session goes. `sending` answers for the pending packet and
   `flushed` says whether the flush after it goes well; `discovered` lists the writable lengths path
   MTU discovery reports while the packet pump runs.
   */
  datatype Round = Round(wake: Option<seq<byte>>, established: bool, streamId: StreamId, sending: Answers,
                         flushed: bool, discovered: seq<nat>)

  /** The flow prefix of the session, which can always be built. */
  function Prefix(r: Round): seq<byte> {
    FlowPrefix(FlowId(r.streamId))
  }

  /** A pending packet that a session took, and what became of it. */
  datatype Taken = Taken(packet: seq<byte>, end: SendEnd)

  /** What an established session does with the pending packet. */
  function TakenIn(r: Round, pending: Option<seq<byte>>): Option<Taken> {
    if r.established && pending.Some? then Some(Taken(pending.value, EndOf(Prefix(r), pending.value, r.sending)))
    else None
  }

  /** One connection attempt as the device and the endpoint list saw it. */
  datatype Attempt = Attempt(endpoint: nat, mtu: nat, ipv6: bool, established: bool, taken: Option<Taken>)

  datatype Exit = DeviceFailed | TunClosed | NoEndpoints | Running

  /** The loop variables, the packets read from the device while idle, and the attempts made. */
  datatype LoopState = LoopState(
    index: nat, pending: Option<seq<byte>>, captured: seq<seq<byte>>, attempts: seq<Attempt>)

  const LOOP_START := LoopState(0, None, [], [])

  /** Whether a reset leaves IPv6 on: never while path MTU discovery is to decide. */
  predicate ResetIpv6(cfg: Config, managed: bool) {
    managed && cfg.tunnelIpv6 && !cfg.pmtudEnabled && cfg.initialTunMtu >= IPV6_MIN_MTU
  }

  /** After the idle wait, unless it ends the loop. */
  function Awake(cfg: Config, s: LoopState, r: Round): Option<LoopState> {
    if cfg.reconnectAlways || s.pending.Some? then Some(s)
    else if r.wake.None? || r.wake.value == [] then None
    else Some(s.(pending := r.wake, captured := s.captured + [r.wake.value]))
  }

  /** After an attempt, made on a device that has just been reset. */
  function Attempted(cfg: Config, managed: bool, s: LoopState, r: Round): LoopState {
    s.(pending := if r.established then None else s.pending,
       attempts := s.attempts + [Attempt(s.index, cfg.initialTunMtu, ResetIpv6(cfg, managed), r.established,
                                         TakenIn(r, s.pending))])
  }

  function AfterTrip(cfg: Config, managed: bool, s: LoopState, r: Round): Option<LoopState> {
    var awake := Awake(cfg, s, r);
    if awake.None? || awake.value.index >= cfg.endpointCount then None
    else
      var next := Attempted(cfg, managed, awake.value, r);
      Some(next.(index := NextEndpointIndex(next.index, cfg.endpointCount, r.established)))
  }

  /** After these trips, if the device calls let them all be made. */
  function AfterTrips(cfg: Config, managed: bool, s: LoopState, rounds: seq<Round>): Option<LoopState> {
    if |rounds| == 0 then Some(s)
    else
      var before := AfterTrips(cfg, managed, s, rounds[..|rounds| - 1]);
      if before.None? then None else AfterTrip(cfg, managed, before.value, rounds[|rounds| - 1])
  }

  /** How a trip from s can end the loop, and with which variables. */
  ghost predicate EndsLoop(cfg: Config, managed: bool, s: LoopState, r: Round, exit: Exit, t: LoopState) {
    match exit
    case Running => false
    case TunClosed => Awake(cfg, s, r).None? && t == s
    case NoEndpoints => Awake(cfg, s, r) == Some(t) && t.index >= cfg.endpointCount
    case DeviceFailed =>
      t == s || (AfterTrip(cfg, managed, s, r).Some? && t == Attempted(cfg, managed, Awake(cfg, s, r).value, r))
  }

  // ---------------------------------------------------------------- whole runs

  function Outcomes(rounds: seq<Round>): (r: seq<bool>)
    ensures |r| == |rounds|
  {
    if |rounds| == 0 then []
    else Outcomes(rounds[..|rounds| - 1]) + [rounds[|rounds| - 1].established]
  }

  /** The variables after a run that can be made. */
  ghost predicate Reaches(cfg: Config, managed: bool, rounds: seq<Round>, s: LoopState) {
    AfterTrips(cfg, managed, LOOP_START, rounds) == Some(s)
  }

  lemma LastTrip(cfg: Config, managed: bool, rounds: seq<Round>, t: LoopState) returns (s: LoopState)
    requires Reaches(cfg, managed, rounds, t) && rounds != []
    ensures Reaches(cfg, managed, rounds[..|rounds| - 1], s)
    ensures AfterTrip(cfg, managed, s, rounds[|rounds| - 1]) == Some(t)
  {
    s := AfterTrips(cfg, managed, LOOP_START, rounds[..|rounds| - 1]).value;
  }

  /** What one trip that can be made does to the variables. */
  lemma TripEffect(cfg: Config, managed: bool, s: LoopState, r: Round, t: LoopState)
    requires AfterTrip(cfg, managed, s, r) == Some(t)
    ensures cfg.endpointCount > 0 && t.index == NextEndpointIndex(s.index, cfg.endpointCount, r.established)
    ensures var captures := !cfg.reconnectAlways && s.pending.None?;
            var pending := if captures then r.wake else s.pending;
            && (captures ==> r.wake.Some? && r.wake.value != [])
            && t.captured == s.captured + (if captures then AsList(r.wake) else [])
            && t.pending == (if r.established then None else pending)
            && t.attempts == s.attempts + [Attempt(s.index, cfg.initialTunMtu, ResetIpv6(cfg, managed),
                                                   r.established, TakenIn(r, pending))]
  {
  }

  /**
   The k-th attempt was made where and as it should be, and went as its round says. IPv6 is withdrawn
   while path MTU discovery is to come or if the tunnel has none; otherwise it is on exactly if the
   address is managed and the initial MTU is enough for it.
   */
  ghost predicate MadeFor(cfg: Config, managed: bool, rounds: seq<Round>, k: nat, a: Attempt)
    requires k < |rounds|
  {
    && cfg.endpointCount > 0 && a.endpoint == IndexAfter(Outcomes(rounds[..k]), cfg.endpointCount)
    && a.mtu == cfg.initialTunMtu
    && (cfg.pmtudEnabled || !cfg.tunnelIpv6 ==> !a.ipv6)
    && (!cfg.pmtudEnabled && cfg.tunnelIpv6 ==> (a.ipv6 <==> managed && cfg.initialTunMtu >= 1280))
    && a.established == rounds[k].established && (a.taken.Some? ==> a.established)
  }

  ghost predicate AllMade(cfg: Config, managed: bool, rounds: seq<Round>, attempts: seq<Attempt>) {
    |attempts| == |rounds| && forall k :: 0 <= k < |rounds| ==> MadeFor(cfg, managed, rounds, k, attempts[k])
  }

  lemma AllMadeExtends(cfg: Config, managed: bool, rounds: seq<Round>, r: Round, attempts: seq<Attempt>, a: Attempt)
    requires AllMade(cfg, managed, rounds, attempts) && MadeFor(cfg, managed, rounds + [r], |rounds|, a)
    ensures AllMade(cfg, managed, rounds + [r], attempts + [a])
  {
    forall k | 0 <= k < |rounds| ensures MadeFor(cfg, managed, rounds + [r], k, attempts[k]) {
      assert (rounds + [r])[..k] == rounds[..k];
    }
  }

  /** The attempt of the last trip, and the index after it. */
  lemma LastAttemptMade(cfg: Config, managed: bool, rounds: seq<Round>, r: Round, s: LoopState, t: LoopState)
    returns (a: Attempt)
    requires AfterTrip(cfg, managed, s, r) == Some(t)
    requires cfg.endpointCount > 0 ==> s.index == IndexAfter(Outcomes(rounds), cfg.endpointCount)
    ensures cfg.endpointCount > 0 && t.index == IndexAfter(Outcomes(rounds + [r]), cfg.endpointCount)
    ensures t.attempts == s.attempts + [a] && MadeFor(cfg, managed, rounds + [r], |rounds|, a)
  {
    TripEffect(cfg, managed, s, r, t);
    assert (rounds + [r])[..|rounds|] == rounds;
    assert Outcomes(rounds + [r]) == Outcomes(rounds) + [r.established];
    a := t.attempts[|s.attempts|];
  }

  /**
   Every attempt of a run is made at the endpoint failover selects, on a device back at the initial
   MTU with IPv6 withdrawn unless no discovery is to come, and goes as its round says.
   */
  lemma {:induction false} AttemptsFollowRounds(cfg: Config, managed: bool, rounds: seq<Round>, t: LoopState)
    requires Reaches(cfg, managed, rounds, t)
    ensures AllMade(cfg, managed, rounds, t.attempts)
    ensures cfg.pmtudEnabled || !cfg.tunnelIpv6 ==> forall k :: 0 <= k < |t.attempts| ==> !t.attempts[k].ipv6
    ensures t.index == if cfg.endpointCount > 0 then IndexAfter(Outcomes(rounds), cfg.endpointCount) else 0
  {
    if |rounds| > 0 {
      var before, last := rounds[..|rounds| - 1], rounds[|rounds| - 1];
      var s := LastTrip(cfg, managed, rounds, t);
      AttemptsFollowRounds(cfg, managed, before, s);
      var a := LastAttemptMade(cfg, managed, before, last, s, t);
      AllMadeExtends(cfg, managed, before, last, s.attempts, a);
      assert before + [last] == rounds;
    }
  }

  /**
   A loop that ends in the middle of a trip leaves the attempts and packets of a run of whole trips: of
   those before it, or of those and this one if only its closing reset failed.
   */
  lemma EndsAsRun(cfg: Config, managed: bool, rounds: seq<Round>, s: LoopState, exit: Exit, t: LoopState)
    returns (made: seq<Round>, r: LoopState)
    requires rounds != [] && Reaches(cfg, managed, rounds[..|rounds| - 1], s)
    requires EndsLoop(cfg, managed, s, rounds[|rounds| - 1], exit, t) && !exit.NoEndpoints?
    ensures made in {rounds, rounds[..|rounds| - 1]} && Reaches(cfg, managed, made, r)
    ensures t == r.(index := t.index)
  {
    made, r := rounds[..|rounds| - 1], s;
    if t != s {
      made, r := rounds, AfterTrip(cfg, managed, s, rounds[|rounds| - 1]).value;
    }
  }

  function AsList<T>(p: Option<T>): seq<T> {
    if p.Some? then [p.value] else []
  }

  /** The pending packets these attempts took, in order. */
  function TakenBy(attempts: seq<Attempt>): seq<Taken> {
    if |attempts| == 0 then []
    else TakenBy(attempts[..|attempts| - 1]) + AsList(attempts[|attempts| - 1].taken)
  }

  function Packets(taken: seq<Taken>): seq<seq<byte>> {
    seq(|taken|, i requires 0 <= i < |taken| => taken[i].packet)
  }

  function Fates(taken: seq<Taken>): (f: seq<History.Fate>)
    ensures |f| == |taken| && History.Pending !in f
  {
    seq(|taken|, i requires 0 <= i < |taken| => if taken[i].end.Queued? then History.Sent else History.Dropped)
  }

  /** Those that quiche was given, and those that were dropped or caught in an error. */
  function HandedOver(taken: seq<Taken>): seq<Taken> {
    History.Pick(taken, Fates(taken), History.Sent)
  }

  function Lost(taken: seq<Taken>): seq<Taken> {
    History.Pick(taken, Fates(taken), History.Dropped)
  }

  lemma PacketsTakenExtend(attempts: seq<Attempt>, a: Attempt)
    ensures Packets(TakenBy(attempts + [a]))
            == Packets(TakenBy(attempts)) + (if a.taken.Some? then [a.taken.value.packet] else [])
  {
    assert (attempts + [a])[..|attempts|] == attempts;
  }

  ghost predicate TakenOrPending(s: LoopState) {
    s.captured == Packets(TakenBy(s.attempts)) + AsList(s.pending)
  }

  lemma TripKeepsCaptured(cfg: Config, managed: bool, s: LoopState, r: Round, t: LoopState)
    requires TakenOrPending(s) && AfterTrip(cfg, managed, s, r) == Some(t)
    ensures TakenOrPending(t)
  {
    TripEffect(cfg, managed, s, r, t);
    PacketsTakenExtend(s.attempts, t.attempts[|s.attempts|]);
  }

  /** The packets captured while idle are, in order, those some session took, then the one pending. */
  lemma {:induction false} CapturedAreTakenOrPending(cfg: Config, managed: bool, rounds: seq<Round>, t: LoopState)
    requires Reaches(cfg, managed, rounds, t)
    ensures t.captured == Packets(TakenBy(t.attempts)) + AsList(t.pending)
  {
    if |rounds| > 0 {
      var s := LastTrip(cfg, managed, rounds, t);
      CapturedAreTakenOrPending(cfg, managed, rounds[..|rounds| - 1], s);
      TripKeepsCaptured(cfg, managed, s, rounds[|rounds| - 1], t);
    }
  }

  /** Of the packets taken, those at these positions went to quiche, in order, and all others were lost. */
  lemma TakenAreHandedOverOrLost(taken: seq<Taken>) returns (sent: seq<nat>)
    ensures History.Increasing(sent, |taken|) && |sent| == |HandedOver(taken)|
    ensures forall k :: 0 <= k < |sent| ==> HandedOver(taken)[k] == taken[sent[k]] && taken[sent[k]].end.Queued?
    ensures |taken| == |HandedOver(taken)| + |Lost(taken)|
    ensures forall k :: 0 <= k < |Lost(taken)| ==> !Lost(taken)[k].end.Queued?
  {
    var fates := Fates(taken);
    sent := History.Positions(fates, History.Sent);
    History.PickIsSubsequence(taken, fates, History.Sent);
    History.PickIsSubsequence(taken, fates, History.Dropped);
    History.PickNone(taken, fates, History.Pending);
    History.FatesPartition(taken, fates);
  }

  /** The round in which the packet now pending was captured, or the next one if none is. */
  function Origin(rounds: seq<Round>): (i: nat)
    ensures i <= |rounds|
  {
    if |rounds| == 0 then 0
    else if rounds[|rounds| - 1].established then |rounds|
    else Origin(rounds[..|rounds| - 1])
  }

  /** The wakes of the rounds that start with nothing pending. */
  function Wakes(rounds: seq<Round>): seq<seq<byte>> {
    if |rounds| == 0 then []
    else
      var n := |rounds| - 1;
      Wakes(rounds[..n]) + (if Origin(rounds[..n]) == n then AsList(rounds[n].wake) else [])
  }

  /** The packet of round i, which is there. */
  ghost predicate WokenBy(rounds: seq<Round>, i: nat, p: Option<seq<byte>>)
    requires i < |rounds|
  {
    p == rounds[i].wake && p.Some? && p.value != []
  }

  /**
   A run that waits for activity captures the wake of every round that starts with nothing pending,
   and keeps it through the rounds that establish no session.
   */
  lemma {:induction false} PendingFollowsRounds(cfg: Config, managed: bool, rounds: seq<Round>, t: LoopState)
    requires !cfg.reconnectAlways && Reaches(cfg, managed, rounds, t)
    ensures t.captured == Wakes(rounds)
    ensures if Origin(rounds) < |rounds| then WokenBy(rounds, Origin(rounds), t.pending) else t.pending.None?
  {
    if |rounds| > 0 {
      var s := LastTrip(cfg, managed, rounds, t);
      PendingFollowsRounds(cfg, managed, rounds[..|rounds| - 1], s);
      TripEffect(cfg, managed, s, rounds[|rounds| - 1], t);
    }
  }

  /** The k-th attempt takes the packet captured last, if it is established at all. */
  ghost predicate TakesFor(rounds: seq<Round>, k: nat, a: Attempt)
    requires k < |rounds|
  {
    var i := Origin(rounds[..k]);
    if rounds[k].established then WokenBy(rounds, i, rounds[i].wake) && a.taken == TakenIn(rounds[k], rounds[i].wake)
    else a.taken.None?
  }

  /** ... and so in the first round that is. */
  lemma {:induction false} PacketsFollowRounds(cfg: Config, managed: bool, rounds: seq<Round>, t: LoopState)
    requires !cfg.reconnectAlways && Reaches(cfg, managed, rounds, t)
    ensures |t.attempts| == |rounds| && forall k :: 0 <= k < |rounds| ==> TakesFor(rounds, k, t.attempts[k])
  {
    if |rounds| > 0 {
      var n := |rounds| - 1;
      var s := LastTrip(cfg, managed, rounds, t);
      PacketsFollowRounds(cfg, managed, rounds[..n], s);
      PendingFollowsRounds(cfg, managed, rounds[..n], s);
      TripEffect(cfg, managed, s, rounds[n], t);
      forall k | 0 <= k < n ensures TakesFor(rounds, k, t.attempts[k]) {
        assert TakesFor(rounds[..n], k, s.attempts[k]) && rounds[..n][..k] == rounds[..k];
      }
    }
  }

  lemma {:induction false} OriginIs(rounds: seq<Round>, i: nat)
    requires i <= |rounds| && (i == 0 || rounds[i - 1].established)
    requires forall m :: i <= m < |rounds| ==> !rounds[m].established
    ensures Origin(rounds) == i
    decreases |rounds|
  {
    if i < |rounds| {
      OriginIs(rounds[..|rounds| - 1], i);
    }
  }

  /**
   The packet captured in round i survives every attempt that establishes no session, and is taken by
   the first that does, in round j. It reaches quiche, and so the peer, exactly if it can be aged and
   fits the path and quiche has room for it within 512 tries, before any failure, and takes it.
   Otherwise it is lost: no later attempt has it.
   */
  lemma PacketMeetsItsFate(cfg: Config, managed: bool, rounds: seq<Round>, i: nat, j: nat, t: LoopState)
    requires !cfg.reconnectAlways && Reaches(cfg, managed, rounds, t)
    requires i <= j < |rounds| && (i == 0 || rounds[i - 1].established)
    requires (forall m :: i <= m < j ==> !rounds[m].established) && rounds[j].established
    ensures |t.attempts| == |rounds| && forall m :: i <= m < j ==> t.attempts[m].taken.None?
    ensures rounds[i].wake.Some? && t.attempts[j].taken.Some? && t.attempts[j].established
    ensures var p, r, taken := rounds[i].wake.value, rounds[j], t.attempts[j].taken.value;
            && taken.packet == p
            && (taken.end.Queued? <==>
                  OutgoingVerdict(p).Accepted?
                  && (r.sending.writable.None? || |Prefix(r)| + |p| <= r.sending.writable.value)
                  && RoomInTime(r.sending.tries, 0))
            && (taken.end.Queued? ==> taken.end.dgram == Prefix(r) + Prepared(p)
                                      && ParseDatagram(taken.end.dgram, FlowId(r.streamId)) == Some(Prepared(p)))
  {
    PacketsFollowRounds(cfg, managed, rounds, t);
    OriginIs(rounds[..j], i);
    AttemptsFollowRounds(cfg, managed, rounds, t);
    assert MadeFor(cfg, managed, rounds, j, t.attempts[j]) && TakesFor(rounds, j, t.attempts[j]);
    forall m | i <= m < j ensures t.attempts[m].taken.None? {
      assert TakesFor(rounds, m, t.attempts[m]);
    }
    ReachesQuicheIff(Prefix(rounds[j]), rounds[i].wake.value, rounds[j].sending);
    if t.attempts[j].taken.value.end.Queued? {
      PeerRecoversPacket(FlowId(rounds[j].streamId), rounds[i].wake.value, rounds[j].sending);
    }
  }

  /** A packet that cannot be aged brings the tunnel up and is then dropped, whatever quiche answers. */
  lemma RejectedPacketIsLost(cfg: Config, managed: bool, r: Round, p: seq<byte>) returns (t: LoopState)
    requires !cfg.reconnectAlways && cfg.endpointCount > 0 && r.wake == Some(p) && p != [] && r.established
    requires OutgoingVerdict(p).Rejected?
    ensures Reaches(cfg, managed, [r], t) && t.captured == [p] && t.pending.None?
    ensures |t.attempts| == 1 && t.attempts[0].taken == Some(Taken(p, SendEnd.Dropped))
  {
    t := AfterTrip(cfg, managed, LOOP_START, r).value;
    TripEffect(cfg, managed, LOOP_START, r, t);
    assert [r][..0] == [];
  }

  /** An IPv4 header whose packet may travel no further is such a packet. */
  lemma ExpiredPacketIsLost(cfg: Config, managed: bool, r: Round) returns (p: seq<byte>, t: LoopState)
    requires !cfg.reconnectAlways && cfg.endpointCount > 0 && r.established
    ensures p == [0x45, 0, 0, 20, 0, 0, 0, 0, 1, 0, 0, 0, 0, 0, 0, 0, 0, 0, 0, 0]
    ensures Reaches(cfg, managed, [r.(wake := Some(p))], t) && t.captured == [p] && t.pending.None?
    ensures |t.attempts| == 1 && t.attempts[0].taken == Some(Taken(p, SendEnd.Dropped))
  {
    p := [0x45, 0, 0, 20, 0, 0, 0, 0, 1, 0, 0, 0, 0, 0, 0, 0, 0, 0, 0, 0];
    ExpiredIsRejected(p);
    t := RejectedPacketIsLost(cfg, managed, r.(wake := Some(p)), p);
  }

  lemma ExpiredIsRejected(p: seq<byte>)
    requires |p| == 20 && p[0] == 0x45 && p[8] == 1
    ensures OutgoingVerdict(p) == Rejected(TtlExpired(1))
  {
  }

  /** A run that always reconnects never takes a packet from the device itself. */
  lemma {:induction false} EagerRunsCaptureNothing(cfg: Config, managed: bool, rounds: seq<Round>, t: LoopState)
    requires cfg.reconnectAlways && Reaches(cfg, managed, rounds, t)
    ensures t.captured == [] && t.pending.None? && forall k :: 0 <= k < |t.attempts| ==> t.attempts[k].taken.None?
  {
    if |rounds| > 0 {
      var s := LastTrip(cfg, managed, rounds, t);
      EagerRunsCaptureNothing(cfg, managed, rounds[..|rounds| - 1], s);
      TripEffect(cfg, managed, s, rounds[|rounds| - 1], t);
    }
  }

  // ---------------------------------------------------------------- the code

  /** Device calls were made between these two points, and some of them failed. */
  ghost predicate Faulted(before: seq<bool>, after: seq<bool>) {
    Later(before, after) && Faults(after) < Faults(before)
  }

  /** The coming faults were only ever used up. */
  ghost predicate Later(before: seq<bool>, after: seq<bool>) {
    |after| <= |before| && Faults(after) <= Faults(before)
  }

  class SupervisorState {
    const cfg: Config
    const dev: TunRsDevice
    var endpointIndex: nat
    var pendingPkt: Option<seq<byte>>
    /** Packets read from the device while idle, and the attempts made so far. */
    var captured: seq<seq<byte>>
    var attempts: seq<Attempt>

    function View(): LoopState
      reads this
    {
      LoopState(endpointIndex, pendingPkt, captured, attempts)
    }

    /** The device is safe, and the index is in range if there is anything to index. */
    ghost predicate Valid()
      reads this, dev
    {
      && cfg.initialTunMtu <= cfg.maxTunMtu <= U16_MAX
      && dev.Valid(cfg.maxTunMtu)
      && endpointIndex <= cfg.endpointCount && (cfg.endpointCount > 0 ==> endpointIndex < cfg.endpointCount)
    }

    /** The device is as a connection attempt must find it. */
    ghost predicate Reset()
      reads dev
    {
      && dev.mtu == cfg.initialTunMtu
      && (cfg.pmtudEnabled || !cfg.tunnelIpv6 ==> !dev.ipv6Enabled)
      && (!cfg.pmtudEnabled && cfg.tunnelIpv6 ==>
            (dev.ipv6Enabled <==> dev.manageIpv6 && dev.ipv6Address.Some? && cfg.initialTunMtu >= 1280))
    }

    constructor (a: Args, dev: TunRsDevice, endpointCount: nat, reconnectAlways: bool)
      requires ArgsAccepted(a) && dev.Valid(a.maxTunMtu)
      ensures Valid() && this.dev == dev && View() == LOOP_START
      ensures cfg == FromArgs(a, endpointCount, reconnectAlways)
    {
      this.cfg := FromArgs(a, endpointCount, reconnectAlways);
      this.dev := dev;
      endpointIndex, pendingPkt, captured, attempts := 0, None, [], [];
    }

    /** The reset both ends of a trip make: the initial MTU, IPv6 only if it needs no discovery. */
    method ResetPath() returns (ok: bool)
      requires Valid()
      modifies dev
      ensures Valid() && (ok ==> Reset())
      ensures Spent(old(dev.faults), dev.faults, ok)
    {
      ok := dev.ApplyPathMtu(cfg.initialTunMtu, cfg.tunnelIpv6 && !cfg.pmtudEnabled, cfg.maxTunMtu);
    }

    /**
     The path-MTU stage of the packet pump, for the lengths discovery reports. It fails exactly if a
     device call fails; otherwise the device ends up set for the last length.
     */
    method FollowPathMtu(discovered: seq<nat>, contextLen: nat) returns (ok: bool)
      requires cfg.maxTunMtu <= U16_MAX && dev.Valid(cfg.maxTunMtu)
      modifies dev
      ensures dev.Valid(cfg.maxTunMtu)
      ensures ok && discovered != [] ==> Follows(discovered[|discovered| - 1], contextLen)
      ensures Spent(old(dev.faults), dev.faults, ok)
    {
      for i := 0 to |discovered|
        invariant dev.Valid(cfg.maxTunMtu)
        invariant i > 0 ==> Follows(discovered[i - 1], contextLen)
        invariant Spent(old(dev.faults), dev.faults, true)
      {
        var tunMtu := CapTunMtu(discovered[i], contextLen, cfg.maxTunMtu);
        if tunMtu.Some? {
          ok := dev.NextCall();            // dev.mtu(), read for the log
          if !ok {
            return;
          }
          ok := dev.ApplyPathMtu(tunMtu.value, true, cfg.maxTunMtu);
          if !ok {
            return;
          }
        }
      }
      ok := true;
    }

    /** The device is set for a path with this writable length: its capped MTU, and IPv6 if that is enough. */
    ghost predicate Follows(writable: nat, contextLen: nat)
      requires cfg.maxTunMtu <= U16_MAX
      reads dev
    {
      var tunMtu := CapTunMtu(writable, contextLen, cfg.maxTunMtu);
      tunMtu.Some? ==> dev.mtu == tunMtu.value && dev.ipv6Enabled == (dev.Managed() && tunMtu.value >= 1280)
    }

    /**
     `run_tunnel_session`, as far as the pending packet and the device are concerned. An established
     session takes the packet, whatever becomes of it. One that gets to the packet pump, with path MTU
     discovery on, leaves the device set for the last discovered length unless a device call fails;
     any other leaves the device alone.
     */
    method RunTunnelSession(round: Round) returns (established: bool, taken: Option<Taken>)
      requires cfg.maxTunMtu <= U16_MAX && dev.Valid(cfg.maxTunMtu)
      modifies `pendingPkt, dev
      ensures dev.Valid(cfg.maxTunMtu) && Later(old(dev.faults), dev.faults)
      ensures established == round.established && taken == TakenIn(round, old(pendingPkt))
      ensures pendingPkt == if established then None else old(pendingPkt)
      ensures if cfg.pmtudEnabled && established && (taken.None? || (!taken.value.end.Broken? && round.flushed))
              then round.discovered == [] || Faulted(old(dev.faults), dev.faults)
                   || Follows(round.discovered[|round.discovered| - 1], |Prefix(round)|)
              else dev.faults == old(dev.faults) && dev.link == old(dev.link)
    {
      established, taken := false, None;
      if !round.established {
        return;
      }
      established := true;
      var prefix := BuildFlowPrefix(FlowId(round.streamId));
      if pendingPkt.Some? {
        var packet := pendingPkt.value;
        pendingPkt := None;
        var sender := new PacketSender(prefix);
        var pkt := new byte[|packet|](i requires 0 <= i < |packet| => packet[i]);
        assert pkt[..] == packet;
        var end := sender.SendPacketDatagram(pkt, round.sending, dev.mtu);
        taken := Some(Taken(packet, end));
        if end.Broken? || !round.flushed {
          return;
        }
      }
      if cfg.pmtudEnabled {
        var ok := FollowPathMtu(round.discovered, |prefix|);
      }
    }

    /**
     The idle wait: without a packet to send, the supervisor waits for one unless told to reconnect
     always. It fails exactly if the packet it waits for does not come, or is empty.
     */
    method AwaitActivity(round: Round) returns (ok: bool)
      modifies `pendingPkt, `captured
      ensures ok == Awake(cfg, old(View()), round).Some?
      ensures ok <==> cfg.reconnectAlways || old(pendingPkt).Some? || (round.wake.Some? && round.wake.value != [])
      ensures View() == if ok then Awake(cfg, old(View()), round).value else old(View())
    {
      if !cfg.reconnectAlways && pendingPkt.None? {
        if round.wake.None? || round.wake.value == [] {
          return false;
        }
        pendingPkt := round.wake;
        captured := captured + [round.wake.value];
      }
      ok := true;
    }

    /** The attempt itself, made on a device that has just been reset. */
    method MakeAttempt(round: Round) returns (established: bool)
      requires Valid() && Reset()
      modifies `pendingPkt, `attempts, dev
      ensures Valid() && Later(old(dev.faults), dev.faults)
      ensures established == round.established
      ensures View() == Attempted(cfg, dev.Managed(), old(View()), round)
    {
      var attempt := Attempt(endpointIndex, dev.mtu, dev.ipv6Enabled, false, None);
      var taken;
      established, taken := RunTunnelSession(round);
      assert Later(old(dev.faults), dev.faults);
      attempts := attempts + [attempt.(established := established, taken := taken)];
    }

    /** The part of a trip before the attempt. */
    method BeginTrip(round: Round) returns (exit: Exit)
      requires Valid()
      modifies `pendingPkt, `captured, dev
      ensures Valid() && Later(old(dev.faults), dev.faults)
      ensures if exit.Running?
              then Awake(cfg, old(View()), round) == Some(View()) && endpointIndex < cfg.endpointCount && Reset()
              else EndsLoop(cfg, dev.Managed(), old(View()), round, exit, View())
      ensures exit.DeviceFailed? ==> Faulted(old(dev.faults), dev.faults)
    {
      var ok := ResetPath();
      if !ok {
        return DeviceFailed;
      }
      ok := AwaitActivity(round);
      if !ok {
        return TunClosed;
      }
      exit := if endpointIndex >= cfg.endpointCount then NoEndpoints else Running;
    }

    /** One trip round the loop of `maintain_native_tun`. */
    method Trip(round: Round) returns (exit: Exit)
      requires Valid()
      modifies this, dev
      ensures Valid() && Later(old(dev.faults), dev.faults)
      ensures if exit.Running? then AfterTrip(cfg, dev.Managed(), old(View()), round) == Some(View()) && Reset()
              else EndsLoop(cfg, dev.Managed(), old(View()), round, exit, View())
      ensures exit.Running? && (cfg.pmtudEnabled || !cfg.tunnelIpv6) ==> !dev.ipv6Enabled
      ensures exit.DeviceFailed? ==> Faulted(old(dev.faults), dev.faults)
    {
      exit := BeginTrip(round);
      if !exit.Running? {
        return;
      }
      var established := MakeAttempt(round);
      var ok := ResetPath();
      if !ok {
        return DeviceFailed;
      }
      endpointIndex := NextEndpointIndex(endpointIndex, cfg.endpointCount, established);
    }

    /**
     `maintain_native_tun`: for any rounds and any failing device calls, the loop makes exactly the
     trips the rounds call for until one of them ends it: by a failed device call, by a wait that
     brings no packet, or for want of endpoints.
     */
    method Maintain(rounds: seq<Round>) returns (exit: Exit, trips: nat)
      requires Valid()
      modifies this, dev
      ensures Valid() && trips <= |rounds| && (exit.Running? <==> trips == |rounds|)
      ensures var s := AfterTrips(cfg, dev.Managed(), old(View()), rounds[..trips]);
              && s.Some?
              && (if trips == |rounds| then s.value == View()
                  else EndsLoop(cfg, dev.Managed(), s.value, rounds[trips], exit, View()))
      ensures exit.NoEndpoints? ==> cfg.endpointCount == 0
      ensures exit.DeviceFailed? ==> Faulted(old(dev.faults), dev.faults)
      ensures exit.Running? && rounds != [] ==> Reset()
      ensures exit.Running? && rounds != [] && (cfg.pmtudEnabled || !cfg.tunnelIpv6) ==> !dev.ipv6Enabled
    {
      exit, trips := Running, 0;
      while trips < |rounds|
        invariant Valid() && trips <= |rounds|
        invariant AfterTrips(cfg, dev.Managed(), old(View()), rounds[..trips]) == Some(View())
        invariant Later(old(dev.faults), dev.faults)
        invariant trips > 0 ==> Reset()
      {
        exit := Trip(rounds[trips]);
        if !exit.Running? {
          return;
        }
        assert rounds[..trips + 1][..trips] == rounds[..trips];
        trips := trips + 1;
      }
      exit := Running;
    }
  }
}
