/** Deadlines of the packet pump (`masque/timing.rs`) and how `data_loop` keeps them. Times are nanoseconds. */
module Timers {
  import opened Bytes

  const SECOND: nat := 1_000_000_000
  const MESH_H3_STATS_INTERVAL: nat := 15 * SECOND
  const IDLE_SLEEP: nat := 3600 * SECOND

  function SaturatingSub(a: nat, b: nat): nat {
    if a <= b then 0 else a - b
  }

  /** `keepalive_remaining`. */
  function KeepaliveRemaining(period: nat, since: nat): Option<nat> {
    if period == 0 then None else Some(SaturatingSub(period, since))
  }

  /** `pmtud_remaining`. */
  function PmtudRemaining(enabled: bool, period: nat, since: nat): Option<nat> {
    if !enabled || period == 0 then None else Some(SaturatingSub(period, since))
  }

  /** The least of the enabled waits: `.into_iter().flatten().min()`. */
  function LeastOf(waits: seq<Option<nat>>): (least: Option<nat>)
    ensures least.Some? ==> least in waits
    ensures forall j :: 0 <= j < |waits| && waits[j].Some? ==> least.Some? && least.value <= waits[j].value
  {
    if |waits| == 0 then None
    else
      var rest := LeastOf(waits[1..]);
      if rest.None? || (waits[0].Some? && waits[0].value <= rest.value) then waits[0] else rest
  }

  datatype Config = Config(keepalivePeriod: nat, pmtudEnabled: bool, pmtudPeriod: nat, reportH3: bool)

  // ---------------------------------------------------------------- periodic events

  /** A `last_*` instant together with the events it has stood for. */
  datatype Periodic = Periodic(last: int, events: seq<int>)

  /** The event happens, and `last` is set to its time. */
  function Fire(p: Periodic, t: int): Periodic {
    Periodic(t, p.events + [t])
  }

  /** `last.elapsed()`, which is zero for an instant that has not come. */
  function Since(now: int, last: int): nat {
    if now <= last then 0 else now - last
  }

  /** Consecutive events are at least a period apart. */
  ghost predicate Spaced(events: seq<int>, period: nat) {
    forall i :: 0 <= i < |events| - 1 ==> events[i + 1] - events[i] >= period
  }

  /**
   The events are spaced, the last of them is what `last` says, none lies in the future, and since
   the clock's first `last` there have been no more of them than periods.
   */
  ghost predicate Steady(p: Periodic, period: nat, first: int, now: int) {
    && p.last <= now && Spaced(p.events, period)
    && (if p.events == [] then p.last == first else p.events[|p.events| - 1] == p.last)
    && |p.events| * period <= p.last - first
  }

  /** Between two looks either nothing happened, or one event at least a period after the last one. */
  ghost predicate Ticks(p: Periodic, q: Periodic, period: nat, after: int) {
    q == p || (q == Fire(p, q.last) && q.last - p.last >= period && q.last <= after)
  }

  lemma TicksKeepSteady(p: Periodic, q: Periodic, period: nat, first: int, before: int, after: int)
    requires Steady(p, period, first, before) && Ticks(p, q, period, after) && before <= after
    ensures Steady(q, period, first, after)
  {
    assert (|p.events| + 1) * period == |p.events| * period + period;
  }

  /** So no window shorter than n periods holds more than n events. */
  lemma {:induction false} SpacedApart(events: seq<int>, period: nat, i: nat, j: nat)
    requires Spaced(events, period) && i <= j < |events|
    ensures events[j] - events[i] >= (j - i) * period
    decreases j
  {
    if i < j {
      SpacedApart(events, period, i, j - 1);
      assert events[j - 1 + 1] - events[j - 1] >= period;
      assert (j - i) * period == (j - 1 - i) * period + period;
    }
  }

  // ---------------------------------------------------------------- H3 report bodies

  /** `h3_conn.send_body`: so many bytes of what was offered, nothing for now, or an error. */
  datatype BodySend = Wrote(n: nat) | BodyDone | BodyError

  datatype PendingReport = PendingReport(body: seq<byte>, written: nat)

  /** What one report stream has been given. */
  datatype Stream = Stream(body: seq<byte>, accepted: seq<byte>, finished: bool)

  datatype Reports = Reports(pending: Option<PendingReport>, streams: seq<Stream>)

  /** Only the newest stream can be unfinished business; every stream has a prefix of its own body. */
  ghost predicate ReportsOk(r: Reports) {
    && (forall i :: 0 <= i < |r.streams| ==> r.streams[i].accepted <= r.streams[i].body)
    && (forall i :: 0 <= i < |r.streams| && r.streams[i].finished ==> r.streams[i].accepted == r.streams[i].body)
    && (r.pending.Some? ==>
          && var p := r.pending.value;
          && p.written <= |p.body| && |r.streams| > 0
          && r.streams[|r.streams| - 1] == Stream(p.body, p.body[..p.written], false))
  }

  /** Streams are only added, and only given more of their own body. */
  ghost predicate StreamsGrow(before: seq<Stream>, after: seq<Stream>) {
    && |before| <= |after|
    && forall i :: 0 <= i < |before| ==>
         && after[i].body == before[i].body && before[i].accepted <= after[i].accepted
         && (before[i].finished ==> after[i] == before[i])
  }

  /** The stream took n more bytes of the pending body, or all that was left of it, which ends the report. */
  ghost predicate Advances(before: Reports, after: Reports, n: nat)
    requires before.pending.Some? && before.streams != [] && |after.streams| == |before.streams|
  {
    var p := before.pending.value;
    var last := after.streams[|after.streams| - 1];
    && last.body == p.body && last.accepted <= p.body
    && |last.accepted| == (if p.written + n <= |p.body| then p.written + n else |p.body|)
    && (last.finished <==> |last.accepted| == |p.body|)
    && after.pending == if last.finished then None else Some(PendingReport(p.body, |last.accepted|))
  }

  /** `start_h3_stats_report`: without a body the path was not ready, or the request failed. */
  function Started(r: Reports, body: Option<seq<byte>>): Reports {
    if body.None? then r else Reports(Some(PendingReport(body.value, 0)), r.streams + [Stream(body.value, [], false)])
  }

  /** `flush_h3_stats_report` and what `data_loop` does with its result. */
  function Flushed(r: Reports, answer: BodySend): Reports
    requires ReportsOk(r)
  {
    if r.pending.None? || answer.BodyDone? then r
    else if answer.BodyError? then r.(pending := None)
    else
      var p, n := r.pending.value, |r.streams| - 1;
      var left := |p.body| - p.written;
      var wrote := p.written + (if answer.n <= left then answer.n else left);
      Reports(if wrote == |p.body| then None else Some(p.(written := wrote)),
              r.streams[n := Stream(p.body, p.body[..wrote], wrote == |p.body|)])
  }

  /** What an answer of `send_body` does to the pending report. */
  lemma FlushedMeans(r: Reports, answer: BodySend)
    requires ReportsOk(r) && r.pending.Some?
    ensures |Flushed(r, answer).streams| == |r.streams|
    ensures answer.Wrote? ==> Advances(r, Flushed(r, answer), answer.n)
    ensures answer.BodyDone? ==> Flushed(r, answer) == r
    ensures answer.BodyError? ==> Flushed(r, answer).streams == r.streams && Flushed(r, answer).pending.None?
  {
  }

  datatype FlushResult = Finished | Unfinished | FlushFailed

  class ReportSender {
    var pending: Option<PendingReport>
    var streams: seq<Stream>

    function View(): Reports
      reads this
    {
      Reports(pending, streams)
    }

    constructor ()
      ensures View() == Reports(None, [])
    {
      pending, streams := None, [];
    }

    /** `start_h3_stats_report` succeeded: called only when no report is pending. */
    method Start(body: seq<byte>)
      requires ReportsOk(View()) && pending.None?
      modifies this
      ensures ReportsOk(View()) && View() == Started(old(View()), Some(body))
      ensures pending == Some(PendingReport(body, 0)) && streams == old(streams) + [Stream(body, [], false)]
    {
      pending := Some(PendingReport(body, 0));
      streams := streams + [Stream(body, [], false)];
    }

    /**
     One `send_body` for the pending report: the stream is given the next bytes of its body, and the
     report is over when all of it is accepted or the stream fails.
     */
    method Flush(answer: BodySend) returns (r: FlushResult)
      requires ReportsOk(View()) && pending.Some?
      modifies this
      ensures ReportsOk(View()) && View() == Flushed(old(View()), answer)
      ensures StreamsGrow(old(streams), streams) && |streams| == |old(streams)|
      ensures r.Finished? <==> streams[|streams| - 1].finished
      ensures r.Unfinished? <==> pending.Some?
    {
      var p := pending.value;
      var n := |streams| - 1;
      match answer
      case Wrote(k) =>
        var left := |p.body| - p.written;
        var wrote := if k <= left then k else left;
        var chunk := p.body[p.written..p.written + wrote];
        assert p.body[..p.written] + chunk == p.body[..p.written + wrote];
        var done := p.written + wrote == |p.body|;
        streams := streams[n := Stream(p.body, streams[n].accepted + chunk, done)];
        pending := if done then None else Some(PendingReport(p.body, p.written + wrote));
        r := if done then Finished else Unfinished;
      case BodyDone =>
        r := Unfinished;
      case BodyError =>
        pending := None;
        r := FlushFailed;
    }
  }

  // ---------------------------------------------------------------- the clocks of the loop

  /**
   The outside answers of one trip round `data_loop`, with the time that passes before its stages, so
   that the clock only moves forward. A trip may go round again without reaching `select!`, and
   something other than the timer may end the wait.
   */
  datatype Trip = Trip(
    before: nat, starting: nat, reportBody: Option<seq<byte>>, bodySend: BodySend, again: bool,
    quicTimeout: Option<nat>, timerFires: bool, oversleep: nat, pinging: nat, revalidating: nat)

  /** The instants the loop keeps, the report it is sending, and how often it ran quiche's own timer. */
  datatype Clocks = Clocks(
    now: int, keepalive: Periodic, revalidation: Periodic, reporting: Periodic, quicTimeouts: nat, reports: Reports)

  /** The clocks when `data_loop` starts: a report is due at once. */
  function StartClocks(start: int): Clocks {
    Clocks(start, Periodic(start, []), Periodic(start, []), Periodic(start - MESH_H3_STATS_INTERVAL, []), 0,
           Reports(None, []))
  }

  ghost predicate ClocksOk(cfg: Config, start: int, k: Clocks) {
    && ReportsOk(k.reports)
    && Steady(k.keepalive, cfg.keepalivePeriod, start, k.now)
    && Steady(k.revalidation, cfg.pmtudPeriod, start, k.now)
    && Steady(k.reporting, MESH_H3_STATS_INTERVAL, start - MESH_H3_STATS_INTERVAL, k.now)
  }

  predicate ReportDue(cfg: Config, k: Clocks) {
    cfg.reportH3 && k.reports.pending.None? && Since(k.now, k.reporting.last) >= MESH_H3_STATS_INTERVAL
  }

  function KeepaliveWait(cfg: Config, k: Clocks): Option<nat> {
    KeepaliveRemaining(cfg.keepalivePeriod, Since(k.now, k.keepalive.last))
  }

  function PmtudWait(cfg: Config, k: Clocks): Option<nat> {
    PmtudRemaining(cfg.pmtudEnabled, cfg.pmtudPeriod, Since(k.now, k.revalidation.last))
  }

  function ReportWait(cfg: Config, k: Clocks): Option<nat> {
    if cfg.reportH3 && k.reports.pending.None?
    then Some(SaturatingSub(MESH_H3_STATS_INTERVAL, Since(k.now, k.reporting.last))) else None
  }

  function Waits(cfg: Config, k: Clocks, quicTimeout: Option<nat>): seq<Option<nat>> {
    [quicTimeout, KeepaliveWait(cfg, k), PmtudWait(cfg, k), ReportWait(cfg, k)]
  }

  /** The wait `select!` sleeps for. */
  function SleepFor(cfg: Config, k: Clocks, quicTimeout: Option<nat>): nat {
    var least := LeastOf(Waits(cfg, k, quicTimeout));
    if least.Some? then least.value else IDLE_SLEEP
  }

  function Passed(k: Clocks, delay: nat): Clocks {
    k.(now := k.now + delay)
  }

  /** The report stage: a due report starts, and at most one chunk of the pending one is offered. */
  function Reported(cfg: Config, k: Clocks, delay: nat, body: Option<seq<byte>>, send: BodySend): Clocks
    requires ReportsOk(k.reports)
  {
    var u := ReportStarted(cfg, k, delay, body);
    u.(reports := Flushed(u.reports, send))
  }

  /** Its first half. */
  function ReportStarted(cfg: Config, k: Clocks, delay: nat, body: Option<seq<byte>>): (r: Clocks)
    requires ReportsOk(k.reports)
    ensures ReportsOk(r.reports)
  {
    var t := Passed(k, delay);
    if ReportDue(cfg, k)
    then t.(reporting := Fire(k.reporting, t.now), reports := Started(k.reports, body)) else t
  }

  function Pinged(cfg: Config, k: Clocks, delay: nat): Clocks {
    if KeepaliveWait(cfg, k) == Some(0)
    then Passed(k, delay).(keepalive := Fire(k.keepalive, k.now + delay)) else k
  }

  function Revalidated(cfg: Config, k: Clocks, delay: nat): Clocks {
    if PmtudWait(cfg, k) == Some(0)
    then Passed(k, delay).(revalidation := Fire(k.revalidation, k.now + delay)) else k
  }

  /** The timer arm of `select!`. */
  function TimerArm(cfg: Config, k: Clocks, quicDue: bool, pinging: nat, revalidating: nat): Clocks {
    var t := if quicDue then k.(quicTimeouts := k.quicTimeouts + 1) else k;
    Revalidated(cfg, Pinged(cfg, t, pinging), revalidating)
  }

  /** The clocks when the timer arm of this trip is entered. */
  function AtWake(cfg: Config, k: Clocks, t: Trip): Clocks {
    Passed(k, SleepFor(cfg, k, t.quicTimeout) + t.oversleep)
  }

  function QuicDue(cfg: Config, k: Clocks, t: Trip): bool {
    t.quicTimeout.Some? && t.quicTimeout.value <= SleepFor(cfg, k, t.quicTimeout)
  }

  /** One trip round `data_loop`, as far as its timers go. */
  function AfterTrip(cfg: Config, k: Clocks, t: Trip): Clocks
    requires ReportsOk(k.reports)
  {
    var reported := Reported(cfg, Passed(k, t.before), t.starting, t.reportBody, t.bodySend);
    if t.again then reported
    else if !t.timerFires then Passed(reported, t.oversleep)
    else TimerArm(cfg, AtWake(cfg, reported, t), QuicDue(cfg, reported, t), t.pinging, t.revalidating)
  }

  /** A run of the loop. */
  function AfterTrips(cfg: Config, k: Clocks, trips: seq<Trip>): (r: Clocks)
    requires ReportsOk(k.reports)
    ensures ReportsOk(r.reports)
  {
    if |trips| == 0 then k
    else
      var before := AfterTrips(cfg, k, trips[..|trips| - 1]);
      TripKeepsReports(cfg, before, trips[|trips| - 1]);
      AfterTrip(cfg, before, trips[|trips| - 1])
  }

  // ---------------------------------------------------------------- what a trip does

  lemma FlushedOk(r: Reports, answer: BodySend)
    requires ReportsOk(r)
    ensures ReportsOk(Flushed(r, answer)) && StreamsGrow(r.streams, Flushed(r, answer).streams)
  {
  }

  lemma TripKeepsReports(cfg: Config, k: Clocks, t: Trip)
    requires ReportsOk(k.reports)
    ensures ReportsOk(AfterTrip(cfg, k, t).reports)
    ensures StreamsGrow(k.reports.streams, AfterTrip(cfg, k, t).reports.streams)
  {
    var u := if ReportDue(cfg, Passed(k, t.before)) then Started(k.reports, t.reportBody) else k.reports;
    FlushedOk(u, t.bodySend);
  }

  /** The report stage starts a report exactly if one is due, and fires nothing else. */
  lemma ReportFires(cfg: Config, k: Clocks, delay: nat, body: Option<seq<byte>>, send: BodySend)
    requires ReportsOk(k.reports)
    ensures var r := Reported(cfg, k, delay, body, send);
            var due := cfg.reportH3 && k.reports.pending.None? && k.now - k.reporting.last >= 15_000_000_000;
            && r.reporting == (if due then Fire(k.reporting, k.now + delay) else k.reporting)
            && r.keepalive == k.keepalive && r.revalidation == k.revalidation && r.quicTimeouts == k.quicTimeouts
            && r.now == k.now + delay
  {
  }

  /** The timer arm runs quiche's timeout, a PING and a revalidation, in this order, each exactly if due. */
  lemma ArmFires(cfg: Config, k: Clocks, quicDue: bool, pinging: nat, revalidating: nat)
    ensures var r := TimerArm(cfg, k, quicDue, pinging, revalidating);
            var pings := cfg.keepalivePeriod > 0 && k.now - k.keepalive.last >= cfg.keepalivePeriod;
            var pinged := if pings then k.now + pinging else k.now;
            var revalidates := cfg.pmtudEnabled && cfg.pmtudPeriod > 0
                               && pinged - k.revalidation.last >= cfg.pmtudPeriod;
            && r.quicTimeouts == k.quicTimeouts + (if quicDue then 1 else 0)
            && r.keepalive == (if pings then Fire(k.keepalive, pinged) else k.keepalive)
            && r.revalidation == (if revalidates then Fire(k.revalidation, pinged + revalidating) else k.revalidation)
            && r.now == (if revalidates then pinged + revalidating else pinged)
            && r.reporting == k.reporting && r.reports == k.reports
  {
  }

  /**
   Which trip does what. A report starts exactly when one is due as the trip begins. Quiche's timeout,
   a PING and a revalidation happen, in this order, exactly when the trip reaches its timer arm and
   finds their deadlines passed. Nothing else touches an event log.
   */
  lemma TripFires(cfg: Config, k: Clocks, t: Trip, slept: Clocks, r: Clocks)
    requires ReportsOk(k.reports) && slept == BeforeSleep(cfg, k, t) && r == AfterTrip(cfg, k, t)
    ensures var start := k.now + t.before;
            var wakes := !t.again && t.timerFires;
            var timeout := SleepFor(cfg, slept, t.quicTimeout);
            var wake := slept.now + timeout + t.oversleep;
            var reports := cfg.reportH3 && k.reports.pending.None? && start - k.reporting.last >= 15_000_000_000;
            var pings := wakes && cfg.keepalivePeriod > 0 && wake - k.keepalive.last >= cfg.keepalivePeriod;
            var pinged := if pings then wake + t.pinging else wake;
            var revalidates := wakes && cfg.pmtudEnabled && cfg.pmtudPeriod > 0
                               && pinged - k.revalidation.last >= cfg.pmtudPeriod;
            && slept.now == start + t.starting
            && r.reporting == (if reports then Fire(k.reporting, slept.now) else k.reporting)
            && r.quicTimeouts == k.quicTimeouts +
                 (if wakes && t.quicTimeout.Some? && t.quicTimeout.value <= timeout then 1 else 0)
            && r.keepalive == (if pings then Fire(k.keepalive, pinged) else k.keepalive)
            && r.revalidation == (if revalidates then Fire(k.revalidation, pinged + t.revalidating) else k.revalidation)
            && r.now >= slept.now && (pings ==> r.now >= pinged) && (revalidates ==> r.now == pinged + t.revalidating)
  {
    ReportFires(cfg, Passed(k, t.before), t.starting, t.reportBody, t.bodySend);
    if !t.again && t.timerFires {
      ArmFires(cfg, AtWake(cfg, slept, t), QuicDue(cfg, slept, t), t.pinging, t.revalidating);
    }
  }

  /** The sleep ends by the first enabled deadline, and not before it. */
  lemma SleepMeetsDeadlines(cfg: Config, k: Clocks, quicTimeout: Option<nat>)
    requires k.keepalive.last <= k.now && k.revalidation.last <= k.now && k.reporting.last <= k.now
    ensures var end := k.now + SleepFor(cfg, k, quicTimeout);
            var pings := cfg.keepalivePeriod > 0;
            var revalidates := cfg.pmtudEnabled && cfg.pmtudPeriod > 0;
            var reports := cfg.reportH3 && k.reports.pending.None?;
            && (quicTimeout.Some? ==> end <= k.now + quicTimeout.value)
            && (pings ==> end == k.now || end <= k.keepalive.last + cfg.keepalivePeriod)
            && (revalidates ==> end == k.now || end <= k.revalidation.last + cfg.pmtudPeriod)
            && (reports ==> end == k.now || end <= k.reporting.last + 15_000_000_000)
            && (if quicTimeout.Some? || pings || revalidates || reports
                then || (quicTimeout.Some? && end == k.now + quicTimeout.value)
                     || (pings && end >= k.keepalive.last + cfg.keepalivePeriod)
                     || (revalidates && end >= k.revalidation.last + cfg.pmtudPeriod)
                     || (reports && end >= k.reporting.last + 15_000_000_000)
                else end == k.now + 3600_000_000_000)
  {
    LeastOfWaits(cfg, k, quicTimeout);
  }

  lemma LeastOfWaits(cfg: Config, k: Clocks, quicTimeout: Option<nat>)
    ensures var timeout := SleepFor(cfg, k, quicTimeout);
            var waits := Waits(cfg, k, quicTimeout);
            && (forall j :: 0 <= j < |waits| && waits[j].Some? ==> timeout <= waits[j].value)
            && (if Enabled(cfg, k, quicTimeout)
                then || quicTimeout == Some(timeout) || KeepaliveWait(cfg, k) == Some(timeout)
                     || PmtudWait(cfg, k) == Some(timeout) || ReportWait(cfg, k) == Some(timeout)
                else timeout == IDLE_SLEEP)
            && waits[0] == quicTimeout && waits[1] == KeepaliveWait(cfg, k)
            && waits[2] == PmtudWait(cfg, k) && waits[3] == ReportWait(cfg, k)
  {
    var waits := Waits(cfg, k, quicTimeout);
    assert waits[0] == quicTimeout && waits[1] == KeepaliveWait(cfg, k);
    assert waits[2] == PmtudWait(cfg, k) && waits[3] == ReportWait(cfg, k);
  }

  /** Some deadline is enabled. */
  predicate Enabled(cfg: Config, k: Clocks, quicTimeout: Option<nat>) {
    quicTimeout.Some? || cfg.keepalivePeriod > 0 || (cfg.pmtudEnabled && cfg.pmtudPeriod > 0)
    || (cfg.reportH3 && k.reports.pending.None?)
  }

  /** Everything the timers have ever done. */
  function Actions(k: Clocks): nat {
    |k.keepalive.events| + |k.revalidation.events| + |k.reporting.events| + k.quicTimeouts
  }

  /** The clocks when the trip comes to the end of its report stage. */
  function BeforeSleep(cfg: Config, k: Clocks, t: Trip): Clocks
    requires ReportsOk(k.reports)
  {
    Reported(cfg, Passed(k, t.before), t.starting, t.reportBody, t.bodySend)
  }

  /** Any deadline that has passed when the timer arm is entered makes it act. */
  lemma ArmActs(cfg: Config, k: Clocks, quicDue: bool, pinging: nat, revalidating: nat)
    requires k.keepalive.last <= k.now && k.revalidation.last <= k.now
    ensures var r := TimerArm(cfg, k, quicDue, pinging, revalidating);
            && (quicDue || KeepaliveWait(cfg, k) == Some(0) || PmtudWait(cfg, k) == Some(0) ==> Actions(r) > Actions(k))
            && Actions(r) >= Actions(k) && r.now >= k.now && r.reporting == k.reporting && r.reports == k.reports
  {
  }

  lemma ReportedActs(cfg: Config, k: Clocks, t: Trip)
    requires ReportsOk(k.reports)
    ensures var r := BeforeSleep(cfg, k, t);
            && Actions(r) >= Actions(k) && r.now >= k.now
            && r.keepalive == k.keepalive && r.revalidation == k.revalidation
            && (r.reporting == k.reporting || r.reporting.last <= r.now)
  {
  }

  lemma WakeActsOrFindsReport(cfg: Config, start: int, k: Clocks, t: Trip)
    requires ClocksOk(cfg, start, k) && !t.again && t.timerFires && Enabled(cfg, BeforeSleep(cfg, k, t), t.quicTimeout)
    ensures Actions(AfterTrip(cfg, k, t)) > Actions(k) || ReportDue(cfg, AfterTrip(cfg, k, t))
  {
    ReportedActs(cfg, k, t);
    var slept := BeforeSleep(cfg, k, t);
    LeastOfWaits(cfg, slept, t.quicTimeout);
    var timeout := SleepFor(cfg, slept, t.quicTimeout);
    var wake := AtWake(cfg, slept, t);
    ArmActs(cfg, wake, QuicDue(cfg, slept, t), t.pinging, t.revalidating);
    if t.quicTimeout == Some(timeout) {
      assert QuicDue(cfg, slept, t);
    } else if KeepaliveWait(cfg, slept) == Some(timeout) {
      assert KeepaliveWait(cfg, wake) == Some(0);
    } else if PmtudWait(cfg, slept) == Some(timeout) {
      assert PmtudWait(cfg, wake) == Some(0);
    } else {
      assert ReportDue(cfg, wake);
    }
  }

  lemma DueReportStarts(cfg: Config, k: Clocks, t: Trip)
    requires ReportsOk(k.reports) && ReportDue(cfg, k)
    ensures |AfterTrip(cfg, k, t).reporting.events| == |k.reporting.events| + 1
  {
    TripFires(cfg, k, t, BeforeSleep(cfg, k, t), AfterTrip(cfg, k, t));
  }

  /**
   No wake of the timer is wasted: with any deadline enabled, a trip that the timer ends has acted
   within it, or the trip after it starts the report that was due.
   */
  lemma WakesAct(cfg: Config, start: int, k: Clocks, t: Trip, next: Trip)
    requires ClocksOk(cfg, start, k) && !t.again && t.timerFires && Enabled(cfg, BeforeSleep(cfg, k, t), t.quicTimeout)
    ensures ReportsOk(AfterTrip(cfg, k, t).reports)
    ensures var r := AfterTrip(cfg, k, t);
            Actions(r) > Actions(k) || |AfterTrip(cfg, r, next).reporting.events| == |r.reporting.events| + 1
  {
    TripKeepsReports(cfg, k, t);
    WakeActsOrFindsReport(cfg, start, k, t);
    if ReportDue(cfg, AfterTrip(cfg, k, t)) {
      DueReportStarts(cfg, AfterTrip(cfg, k, t), next);
    }
  }

  // ---------------------------------------------------------------- whole runs

  lemma TripTicks(cfg: Config, k: Clocks, t: Trip, r: Clocks)
    requires ReportsOk(k.reports) && r == AfterTrip(cfg, k, t)
    ensures Ticks(k.keepalive, r.keepalive, cfg.keepalivePeriod, r.now)
    ensures Ticks(k.revalidation, r.revalidation, cfg.pmtudPeriod, r.now)
    ensures Ticks(k.reporting, r.reporting, MESH_H3_STATS_INTERVAL, r.now)
    ensures r.now >= k.now && r.quicTimeouts >= k.quicTimeouts
  {
    TripFires(cfg, k, t, BeforeSleep(cfg, k, t), r);
  }

  lemma TripKeepsClocks(cfg: Config, start: int, k: Clocks, t: Trip)
    requires ClocksOk(cfg, start, k)
    ensures ClocksOk(cfg, start, AfterTrip(cfg, k, t))
  {
    TripKeepsReports(cfg, k, t);
    TripTicks(cfg, k, t, AfterTrip(cfg, k, t));
    ClocksAdvance(cfg, start, k, AfterTrip(cfg, k, t));
  }

  lemma ClocksAdvance(cfg: Config, start: int, k: Clocks, r: Clocks)
    requires ClocksOk(cfg, start, k) && ReportsOk(r.reports) && k.now <= r.now
    requires Ticks(k.keepalive, r.keepalive, cfg.keepalivePeriod, r.now)
    requires Ticks(k.revalidation, r.revalidation, cfg.pmtudPeriod, r.now)
    requires Ticks(k.reporting, r.reporting, MESH_H3_STATS_INTERVAL, r.now)
    ensures ClocksOk(cfg, start, r)
  {
    TicksKeepSteady(k.keepalive, r.keepalive, cfg.keepalivePeriod, start, k.now, r.now);
    TicksKeepSteady(k.revalidation, r.revalidation, cfg.pmtudPeriod, start, k.now, r.now);
    TicksKeepSteady(k.reporting, r.reporting, MESH_H3_STATS_INTERVAL, start - MESH_H3_STATS_INTERVAL, k.now, r.now);
  }

  lemma {:induction false} RunKeepsClocks(cfg: Config, start: int, trips: seq<Trip>)
    ensures ClocksOk(cfg, start, AfterTrips(cfg, StartClocks(start), trips))
  {
    if |trips| > 0 {
      RunKeepsClocks(cfg, start, trips[..|trips| - 1]);
      TripKeepsClocks(cfg, start, AfterTrips(cfg, StartClocks(start), trips[..|trips| - 1]), trips[|trips| - 1]);
    }
  }

  /** Every log and stream of a is the beginning of the same one of b. */
  ghost predicate Adds(a: Clocks, b: Clocks) {
    && a.keepalive.events <= b.keepalive.events && a.revalidation.events <= b.revalidation.events
    && a.reporting.events <= b.reporting.events && a.quicTimeouts <= b.quicTimeouts && a.now <= b.now
    && StreamsGrow(a.reports.streams, b.reports.streams)
  }

  lemma TripAdds(cfg: Config, k: Clocks, t: Trip)
    requires ReportsOk(k.reports)
    ensures Adds(k, AfterTrip(cfg, k, t))
  {
    TripKeepsReports(cfg, k, t);
    TripTicks(cfg, k, t, AfterTrip(cfg, k, t));
  }

  lemma AddsJoin(a: Clocks, b: Clocks, c: Clocks)
    requires Adds(a, b) && Adds(b, c)
    ensures Adds(a, c)
  {
  }

  /** The first trip of a session reports at once. */
  lemma FirstTripReports(cfg: Config, start: int, t: Trip)
    requires cfg.reportH3
    ensures AfterTrips(cfg, StartClocks(start), [t]).reporting.events == [start + t.before + t.starting]
  {
    assert [t][..0] == [];
    var k := StartClocks(start);
    TripFires(cfg, k, t, BeforeSleep(cfg, k, t), AfterTrip(cfg, k, t));
  }

  /** No run forgets an event or takes a byte back: logs and streams only grow, trip by trip. */
  lemma {:induction false} RunOnlyAdds(cfg: Config, k: Clocks, trips: seq<Trip>, i: nat)
    requires ReportsOk(k.reports) && i <= |trips|
    ensures Adds(AfterTrips(cfg, k, trips[..i]), AfterTrips(cfg, k, trips))
    decreases |trips|
  {
    if i == |trips| {
      assert trips[..i] == trips;
    } else {
      var n := |trips| - 1;
      RunOnlyAdds(cfg, k, trips[..n], i);
      assert trips[..n][..i] == trips[..i];
      TripAdds(cfg, AfterTrips(cfg, k, trips[..n]), trips[n]);
      AddsJoin(AfterTrips(cfg, k, trips[..i]), AfterTrips(cfg, k, trips[..n]), AfterTrips(cfg, k, trips));
    }
  }

  /**
   Over any run of the loop, two PINGs that are j - i apart in the log are at least j - i periods
   apart in time, and so for revalidations and report starts.
   */
  lemma EventsKeepTheirDistance(cfg: Config, start: int, trips: seq<Trip>, k: Clocks, i: nat, j: nat)
    requires k == AfterTrips(cfg, StartClocks(start), trips) && i <= j
    ensures j < |k.keepalive.events| ==>
              k.keepalive.events[j] - k.keepalive.events[i] >= (j - i) * cfg.keepalivePeriod
    ensures j < |k.revalidation.events| ==>
              k.revalidation.events[j] - k.revalidation.events[i] >= (j - i) * cfg.pmtudPeriod
    ensures j < |k.reporting.events| ==>
              k.reporting.events[j] - k.reporting.events[i] >= (j - i) * 15_000_000_000
  {
    RunKeepsClocks(cfg, start, trips);
    if j < |k.keepalive.events| {
      SpacedApart(k.keepalive.events, cfg.keepalivePeriod, i, j);
    }
    if j < |k.revalidation.events| {
      SpacedApart(k.revalidation.events, cfg.pmtudPeriod, i, j);
    }
    if j < |k.reporting.events| {
      SpacedApart(k.reporting.events, MESH_H3_STATS_INTERVAL, i, j);
    }
  }

  /** Nor does a run of some length hold more events than periods; the first report alone is free. */
  lemma EventsAreFew(cfg: Config, start: int, trips: seq<Trip>, k: Clocks)
    requires k == AfterTrips(cfg, StartClocks(start), trips)
    ensures |k.keepalive.events| * cfg.keepalivePeriod <= k.now - start
    ensures |k.revalidation.events| * cfg.pmtudPeriod <= k.now - start
    ensures (|k.reporting.events| - 1) * 15_000_000_000 <= k.now - start
  {
    RunKeepsClocks(cfg, start, trips);
    Few(cfg, start, k);
  }

  lemma Few(cfg: Config, start: int, k: Clocks)
    requires ClocksOk(cfg, start, k)
    ensures |k.keepalive.events| * cfg.keepalivePeriod <= k.now - start
    ensures |k.revalidation.events| * cfg.pmtudPeriod <= k.now - start
    ensures (|k.reporting.events| - 1) * MESH_H3_STATS_INTERVAL <= k.now - start
  {
  }

  // ---------------------------------------------------------------- the code

  class LoopTimers {
    const cfg: Config
    const reports: ReportSender
    var now: int
    var keepalive: Periodic
    var revalidation: Periodic
    var reporting: Periodic
    var quicTimeouts: nat

    function View(): Clocks
      reads this, reports
    {
      Clocks(now, keepalive, revalidation, reporting, quicTimeouts, reports.View())
    }

    constructor (cfg: Config, start: int)
      ensures View() == StartClocks(start) && fresh(reports) && this.cfg == cfg
    {
      this.cfg := cfg;
      reports := new ReportSender();
      now, quicTimeouts := start, 0;
      keepalive, revalidation := Periodic(start, []), Periodic(start, []);
      reporting := Periodic(start - MESH_H3_STATS_INTERVAL, []);
    }

    /** A report that is due starts, and the interval restarts, whether or not the path is ready for it. */
    method StartReportIfDue(delay: nat, body: Option<seq<byte>>)
      requires ReportsOk(reports.View())
      modifies `now, `reporting, reports
      ensures View() == ReportStarted(cfg, old(View()), delay, body)
      ensures now == old(now) + delay && ReportsOk(reports.View())
      ensures if ReportDue(cfg, old(View()))
              then reporting == Fire(old(reporting), now) && reports.View() == Started(old(reports.View()), body)
              else reporting == old(reporting) && reports.View() == old(reports.View())
    {
      var due := cfg.reportH3 && reports.pending.None? && Since(now, reporting.last) >= MESH_H3_STATS_INTERVAL;
      now := now + delay;
      if due {
        reporting := Fire(reporting, now);
        if body.Some? {
          reports.Start(body.value);
        }
      }
    }

    /** The report stage: a due report starts, and at most one chunk of the pending one is offered. */
    method ReportStage(delay: nat, body: Option<seq<byte>>, send: BodySend)
      requires ReportsOk(reports.View())
      modifies `now, `reporting, reports
      ensures ReportsOk(reports.View()) && View() == Reported(cfg, old(View()), delay, body, send)
    {
      StartReportIfDue(delay, body);
      ghost var started := View();
      if reports.pending.Some? {
        var r := reports.Flush(send);
      }
      assert View() == started.(reports := Flushed(started.reports, send));
    }

    /** The PING of the timer arm: sent exactly if due, whatever else is. */
    method PingIfDue(delay: nat) returns (pinged: bool)
      modifies `now, `keepalive
      ensures pinged <==> KeepaliveWait(cfg, old(View())) == Some(0)
      ensures View() == Pinged(cfg, old(View()), delay)
    {
      pinged := KeepaliveRemaining(cfg.keepalivePeriod, Since(now, keepalive.last)) == Some(0);
      if pinged {
        now := now + delay;
        keepalive := Fire(keepalive, now);
      }
    }

    method RevalidateIfDue(delay: nat) returns (revalidated: bool)
      modifies `now, `revalidation
      ensures revalidated <==> PmtudWait(cfg, old(View())) == Some(0)
      ensures View() == Revalidated(cfg, old(View()), delay)
    {
      revalidated := PmtudRemaining(cfg.pmtudEnabled, cfg.pmtudPeriod, Since(now, revalidation.last)) == Some(0);
      if revalidated {
        now := now + delay;
        revalidation := Fire(revalidation, now);
      }
    }

    /**
     The timer arm of `select!`, entered once the sleep is over: each of the three deadlines is looked
     at on its own, and quiche is flushed exactly if some action was taken.
     */
    method OnTimer(quicDue: bool, pinging: nat, revalidating: nat) returns (flush: bool)
      modifies `now, `keepalive, `revalidation, `quicTimeouts
      ensures View() == TimerArm(cfg, old(View()), quicDue, pinging, revalidating)
      ensures quicTimeouts == old(quicTimeouts) + (if quicDue then 1 else 0)
      ensures keepalive == if KeepaliveWait(cfg, old(View())) == Some(0) then Fire(old(keepalive), old(now) + pinging)
                           else old(keepalive)
      ensures PmtudWait(cfg, old(View())) == Some(0) ==> revalidation == Fire(old(revalidation), now)
      ensures flush <==> Actions(View()) > old(Actions(View()))
    {
      flush := false;
      if quicDue {
        quicTimeouts := quicTimeouts + 1;
        flush := true;
      }
      var pinged := PingIfDue(pinging);
      var revalidated := RevalidateIfDue(revalidating);
      flush := flush || pinged || revalidated;
    }

    /** The sleep and its wake-up by the timer. */
    method SleepAndWake(trip: Trip) returns (flush: bool)
      modifies `now, `keepalive, `revalidation, `quicTimeouts
      ensures View() == TimerArm(cfg, AtWake(cfg, old(View()), trip), QuicDue(cfg, old(View()), trip),
                                 trip.pinging, trip.revalidating)
    {
      var timeout := SleepFor(cfg, View(), trip.quicTimeout);
      var quicDue := trip.quicTimeout.Some? && trip.quicTimeout.value <= timeout;
      now := now + timeout + trip.oversleep;
      flush := OnTimer(quicDue, trip.pinging, trip.revalidating);
    }

    /** One trip round `data_loop`, as far as its timers go. */
    method RunTrip(trip: Trip)
      requires ReportsOk(reports.View())
      modifies this, reports
      ensures ReportsOk(reports.View()) && View() == AfterTrip(cfg, old(View()), trip)
    {
      now := now + trip.before;
      ReportStage(trip.starting, trip.reportBody, trip.bodySend);
      if !trip.again {
        if trip.timerFires {
          var flush := SleepAndWake(trip);
        } else {
          now := now + trip.oversleep;
        }
      }
    }

    /** `data_loop`, as far as its timers go: trips that may or may not reach `select!` or its timer arm. */
    method Run(trips: seq<Trip>)
      requires ReportsOk(reports.View())
      modifies this, reports
      ensures ReportsOk(reports.View()) && View() == AfterTrips(cfg, old(View()), trips)
    {
      for i := 0 to |trips|
        invariant ReportsOk(reports.View()) && View() == AfterTrips(cfg, old(View()), trips[..i])
      {
        assert trips[..i + 1][..i] == trips[..i];
        RunTrip(trips[i]);
      }
      assert trips[..|trips|] == trips;
    }
  }
}
