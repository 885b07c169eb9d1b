/** HTTP/3 control events and the tunnel's lifetime (`masque.rs: poll_h3`, section 4.1 of RFC 9484). */
module H3Control {
  import opened Bytes

  /** A body read while discarding response data: so many bytes, nothing more yet, or an error. */
  datatype BodyRead = Read(n: nat) | NoMore | ReadError

  datatype Event = Headers | Data(body: seq<BodyRead>) | Finished | Reset(code: nat) | Other

  /** One answer of `h3_conn.poll`. */
  datatype Poll = Event(stream: nat, event: Event) | Drained | PollError

  datatype Termination = StreamFinished | StreamReset(code: nat)

  datatype Reason = Reason(stream: nat, termination: Termination)

  /** `connect_ip_termination_reason`. */
  function TerminationReason(connectStream: nat, stream: nat, termination: Termination): Option<Reason> {
    if stream != connectStream then None else Some(Reason(stream, termination))
  }

  /** The answers that end a session, read off section 4.1 of RFC 9484. */
  predicate Ends(connectStream: nat, p: Poll) {
    p.PollError? || (p.Event? && p.stream == connectStream && (p.event.Finished? || p.event.Reset?))
  }

  /** How many answers come before the first `Done`, which a missing answer stands for. */
  function UntilDone(polls: seq<Poll>): (n: nat)
    ensures n <= |polls|
    ensures forall i :: 0 <= i < n ==> !polls[i].Drained?
    ensures n < |polls| ==> polls[n].Drained?
  {
    if |polls| == 0 || polls[0].Drained? then 0 else 1 + UntilDone(polls[1..])
  }

  /** The session fails exactly when a session-ending answer comes before `Done`. */
  predicate PollFails(connectStream: nat, polls: seq<Poll>) {
    exists i :: 0 <= i < UntilDone(polls) && Ends(connectStream, polls[i])
  }

  /**
   In other words: before the first `Done` comes an error, or the end of the CONNECT-IP stream, orderly
   or not. No other answer ends the session.
   */
  lemma {:induction false} PollFailsIff(connectStream: nat, polls: seq<Poll>)
    ensures PollFails(connectStream, polls) <==>
              exists i :: 0 <= i < |polls| && (forall j :: 0 <= j < i ==> polls[j] != Drained) &&
                (polls[i] == PollError || polls[i] == Event(connectStream, Finished)
                 || (polls[i].Event? && polls[i].stream == connectStream && polls[i].event.Reset?))
  {
    var n := UntilDone(polls);
    if i :| 0 <= i < |polls| && (forall j :: 0 <= j < i ==> polls[j] != Drained) && Ends(connectStream, polls[i]) {
      assert i < n;
    }
  }

  /** The inner loop that discards an auxiliary response body never ends the session. */
  method DiscardBody(body: seq<BodyRead>) returns (used: nat)
    ensures used <= |body|
    ensures forall i :: 0 <= i < used - 1 ==> body[i].Read? && body[i].n > 0
  {
    used := 0;
    while used < |body|
      invariant used <= |body|
      invariant forall i :: 0 <= i < used ==> body[i].Read? && body[i].n > 0
    {
      var r := body[used];
      used := used + 1;
      if r.NoMore? || r.ReadError? || r.n == 0 {
        return;
      }
    }
  }

  /** `poll_h3`: consumes answers up to `Done` or the first one that ends the session. */
  method PollH3(connectStream: nat, polls: seq<Poll>) returns (failed: bool, used: nat)
    ensures failed <==> PollFails(connectStream, polls)
    ensures used <= |polls|
    ensures failed ==> used > 0 && Ends(connectStream, polls[used - 1])
    ensures forall i :: 0 <= i < used - 1 ==> !Ends(connectStream, polls[i]) && !polls[i].Drained?
  {
    used := 0;
    while used < |polls|
      invariant used <= UntilDone(polls)
      invariant forall i :: 0 <= i < used ==> !Ends(connectStream, polls[i])
    {
      var p := polls[used];
      used := used + 1;
      match p
      case Event(stream, Data(body)) =>
        var discarded := DiscardBody(body);
      case Event(stream, Finished) =>
        if TerminationReason(connectStream, stream, StreamFinished).Some? {
          return true, used;
        }
      case Event(stream, Reset(code)) =>
        if TerminationReason(connectStream, stream, StreamReset(code)).Some? {
          return true, used;
        }
      case Event(stream, _) =>
      case Drained =>
        return false, used;
      case PollError =>
        return true, used;
    }
    failed := false;
  }

  /** Events of auxiliary streams can be added or removed without changing the outcome. */
  lemma {:induction false} AuxiliaryStreamsAreIndependent(
    connectStream: nat, before: seq<Poll>, aux: Poll, after: seq<Poll>)
    requires aux.Event? && aux.stream != connectStream
    ensures PollFails(connectStream, before + [aux] + after) == PollFails(connectStream, before + after)
  {
    if |before| == 0 {
      var polls := before + [aux] + after;
      assert polls[0] == aux && polls[1..] == after;
      assert before + after == after;
      PollFailsStep(connectStream, polls);
    } else {
      AuxiliaryStreamsAreIndependent(connectStream, before[1..], aux, after);
      assert (before + [aux] + after)[1..] == before[1..] + [aux] + after;
      assert (before + after)[1..] == before[1..] + after;
      PollFailsStep(connectStream, before + [aux] + after);
      PollFailsStep(connectStream, before + after);
    }
  }

  lemma PollFailsStep(connectStream: nat, polls: seq<Poll>)
    requires |polls| > 0
    ensures PollFails(connectStream, polls) <==>
              !polls[0].Drained? && (Ends(connectStream, polls[0]) || PollFails(connectStream, polls[1..]))
  {
    if !polls[0].Drained? {
      if PollFails(connectStream, polls[1..]) {
        var i :| 0 <= i < UntilDone(polls[1..]) && Ends(connectStream, polls[1..][i]);
        assert Ends(connectStream, polls[i + 1]);
      }
      if i :| 0 < i < UntilDone(polls) && Ends(connectStream, polls[i]) {
        assert Ends(connectStream, polls[1..][i - 1]);
      }
    }
  }
}
