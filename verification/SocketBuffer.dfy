/** Growing a UDP socket buffer toward a target the kernel may refuse (`udp.rs: tune_socket_buffer`). */
module SocketBuffer {
  import opened Bytes

  const GRANULE: nat := 65536              // UDP_SOCKET_BUFFER_SEARCH_GRANULARITY
  const MIN_UDP_SOCKET_BUFFER: nat := 65536
  const USIZE_MAX: nat := 0xffff_ffff_ffff_ffff

  /** One `set_size` call and the error it returned, if any. */
  datatype Request = Request(size: nat, error: Option<int>)

  /**
   The kernel's answers, each depending on every request made so far: `getSize` fails or reports a
   size, `setSize` accepts or returns an error number. Nothing else is assumed of it.
   */
  datatype Kernel = Kernel(getSize: seq<Request> -> Option<nat>, setSize: (seq<Request>, nat) -> Option<int>)

  datatype Tuning = Tuning(
    initial: nat, effective: nat, target: nat, targetAccepted: bool, limitError: Option<int>)

  // ---------------------------------------------------------------- request histories

  function Init(log: seq<Request>): (r: seq<Request>)
    requires |log| > 0
  {
    log[..|log| - 1]
  }

  function Last(log: seq<Request>): Request
    requires |log| > 0
  {
    log[|log| - 1]
  }

  /** The last accepted size, or the default when nothing was accepted. */
  function LastGranted(log: seq<Request>, initial: nat): nat {
    if |log| == 0 then initial
    else if Last(log).error.None? then Last(log).size
    else LastGranted(Init(log), initial)
  }

  function LastRefused(log: seq<Request>): Option<Request> {
    if |log| == 0 then None
    else if Last(log).error.Some? then Some(Last(log))
    else LastRefused(Init(log))
  }

  /** What the kernel said its size was after the last accepted request. */
  function LastReport(kernel: Kernel, log: seq<Request>): Option<nat> {
    if |log| == 0 || Last(log).error.None? then kernel.getSize(log)
    else LastReport(kernel, Init(log))
  }

  /**
   Every request was answered by this kernel, asked for more than the default and no more than the
   target, and, if accepted, for more than was accepted before.
   */
  ghost predicate Sound(kernel: Kernel, log: seq<Request>, initial: nat, target: nat) {
    |log| == 0 ||
    (&& Sound(kernel, Init(log), initial, target)
     && Last(log).error == kernel.setSize(Init(log), Last(log).size)
     && initial < Last(log).size <= target
     && (Last(log).error.None? ==> LastGranted(Init(log), initial) < Last(log).size))
  }

  lemma Append(kernel: Kernel, log: seq<Request>, size: nat, initial: nat, target: nat)
    requires Sound(kernel, log, initial, target) && initial < size <= target
    requires kernel.setSize(log, size).None? ==> LastGranted(log, initial) < size
    ensures var next := log + [Request(size, kernel.setSize(log, size))];
            && Sound(kernel, next, initial, target) && |next| == |log| + 1
            && Init(next) == log && Last(next) == Request(size, kernel.setSize(log, size))
  {
    var next := log + [Request(size, kernel.setSize(log, size))];
    assert Init(next) == log;
  }

  /** In particular the default is never lowered and accepted sizes strictly increase. */
  lemma {:induction false} SoundMeans(kernel: Kernel, log: seq<Request>, initial: nat, target: nat)
    requires Sound(kernel, log, initial, target)
    ensures forall i :: 0 <= i < |log| ==> initial < log[i].size <= target
    ensures forall i :: 0 <= i < |log| && log[i].error.None? ==> log[i].size <= LastGranted(log, initial)
    ensures forall i, j :: 0 <= i < j < |log| && log[i].error.None? && log[j].error.None? ==>
                             log[i].size < log[j].size
    ensures LastGranted(log, initial) >= initial
  {
    if |log| > 0 {
      var rest := Init(log);
      SoundMeans(kernel, rest, initial, target);
      assert forall i :: 0 <= i < |rest| ==> log[i] == rest[i];
    }
  }

  // ---------------------------------------------------------------- the promised result

  /** The request, or a granule if that is more. */
  function Target(requested: nat): (t: nat)
    ensures t >= 65536 && t >= requested && t in {65536, requested}
  {
    if requested >= MIN_UDP_SOCKET_BUFFER then requested else MIN_UDP_SOCKET_BUFFER
  }

  function SaturatingMul(a: nat, b: nat): nat {
    if a * b > USIZE_MAX then USIZE_MAX else a * b
  }

  function Pow2(k: nat): (p: nat)
    ensures p >= 1
  {
    if k == 0 then 1 else 2 * Pow2(k - 1)
  }

  predicate PowerOfTwo(n: nat) {
    n == 1 || (n > 0 && n % 2 == 0 && PowerOfTwo(n / 2))
  }

  /** How many requests a target of at most 2^k granules can cost. */
  function CallBound(k: nat): nat {
    if k == 0 then 1 else 2 * k
  }

  ghost predicate Economical(log: seq<Request>, target: nat) {
    forall k :: target <= Pow2(k) * GRANULE ==> |log| <= CallBound(k)
  }

  /** What a result must say about the requests that produced it. */
  ghost predicate Reports(t: Tuning, kernel: Kernel, log: seq<Request>, initial: nat, target: nat) {
    && t.initial == initial && t.target == target
    && LastReport(kernel, log) == Some(t.effective)
    && (t.targetAccepted <==> LastGranted(log, initial) >= target)
    && (if t.targetAccepted then t.limitError == None
        else LastRefused(log).Some? && t.limitError == LastRefused(log).value.error)
  }

  /** A kernel with a fixed cap that reports the size it last accepted. */
  ghost predicate Capped(kernel: Kernel, initial: nat, cap: nat) {
    && (forall log :: kernel.getSize(log) == Some(LastGranted(log, initial)))
    && (forall log, size: nat :: kernel.setSize(log, size).None? <==> size <= cap)
  }

  /** There is such a kernel for every default and every cap. */
  lemma CappedKernel(initial: nat, cap: nat) returns (kernel: Kernel)
    ensures Capped(kernel, initial, cap) && kernel.getSize([]) == Some(initial)
  {
    kernel := Kernel(log => Some(LastGranted(log, initial)), (log, size: nat) => if size <= cap then None else Some(1));
  }

  function FloorGranule(n: nat): nat {
    n / GRANULE * GRANULE
  }

  /** Targets the bisection can approach to within a granule, given the cap. */
  predicate Fine(target: nat, cap: nat) {
    || target % GRANULE == 0
    || cap < FloorGranule(target)
    || PowerOfTwo(target / GRANULE)
  }

  /** The size a refused search settles on under a fixed cap, once it has grown at all. */
  function Settled(target: nat, cap: nat): int {
    if Fine(target, cap) then FloorGranule(cap) else FloorGranule(target) - GRANULE
  }

  /** The first size asked for: the least doubling of a granule above the default, or the target. */
  function FirstStep(initial: nat, target: nat, candidate: nat): nat
    requires 0 < candidate <= target
    decreases target - candidate
  {
    if candidate > initial || candidate == target then candidate
    else FirstStep(initial, target, if 2 * candidate <= target then 2 * candidate else target)
  }

  /** The size a search ends with against a kernel of fixed cap. */
  function Expected(initial: nat, target: nat, cap: nat): int
    requires target >= MIN_UDP_SOCKET_BUFFER
  {
    if initial >= target then initial
    else if target <= cap then target
    else if FirstStep(initial, target, MIN_UDP_SOCKET_BUFFER) <= cap then Settled(target, cap)
    else initial
  }

  /** Under a fixed cap the result is the closed form, and acceptance means the cap allows the target. */
  ghost predicate ClosedForm(kernel: Kernel, r: Option<Tuning>, target: nat)
    requires target >= MIN_UDP_SOCKET_BUFFER
  {
    forall initial: nat, cap: nat :: Capped(kernel, initial, cap) ==>
      && r.Some? && r.value.effective == Expected(initial, target, cap)
      && (r.value.targetAccepted <==> initial >= target || target <= cap)
  }

  /**
   What a result promises whoever asked for `requested` bytes, against a kernel of this default and cap:
   the default if it is large enough; the whole request if the cap allows it; otherwise, once the cap
   allows a granule and twice the default, less than 128 KiB below the cap, and less than 64 KiB for a
   request of whole granules; and the default if the cap allows neither.
   */
  ghost predicate KeepsPromise(t: Tuning, requested: nat, initial: nat, cap: nat) {
    && t.initial == initial && t.target >= requested && t.effective >= initial
    && (requested >= 65536 ==> t.target == requested) && (requested <= 65536 ==> t.target == 65536)
    && (initial >= requested && initial >= 65536 ==> t.effective == initial && t.targetAccepted)
    && (initial < t.target <= cap ==> t.effective == t.target && t.targetAccepted)
    && (initial < t.target && cap < t.target ==> !t.targetAccepted)
    && (initial < t.target && 65536 <= cap < t.target && 2 * initial <= cap ==>
          0 <= cap - t.effective < 131072 && (t.target % 65536 == 0 ==> cap - t.effective < 65536))
    && (initial < t.target && (cap < 65536 || cap <= initial) ==> t.effective == initial)
  }

  // ---------------------------------------------------------------- arithmetic

  lemma {:induction false} PowersAreSparse(a: nat, b: nat)
    requires PowerOfTwo(a) && a < b < 2 * a
    ensures !PowerOfTwo(b)
  {
    if a > 1 && b % 2 == 0 {
      PowersAreSparse(a / 2, b / 2);
    }
  }

  lemma {:induction false} Pow2Monotone(a: nat, b: nat)
    requires a <= b
    ensures Pow2(a) <= Pow2(b)
    decreases b
  {
    if a < b {
      Pow2Monotone(a, b - 1);
    }
  }

  lemma {:induction false} Pow2IsPower(k: nat)
    ensures PowerOfTwo(Pow2(k))
  {
    if k > 0 {
      Pow2IsPower(k - 1);
    }
  }

  /** The midpoint of the bisection, rounded down to whole granules. */
  function MidpointOf(low: nat, high: nat): nat
    requires low < high
  {
    (low + (high - low) / 2) / GRANULE * GRANULE
  }

  /** It is the lower end plus half the whole granules between the ends. */
  lemma MidpointIs(low: nat, high: nat)
    requires low % GRANULE == 0 && low < high
    ensures MidpointOf(low, high) == low + (high - low) / GRANULE / 2 * GRANULE
  {
    var a, n := low / GRANULE, (high - low) / GRANULE;
    assert low == a * GRANULE;
    assert n / 2 * GRANULE <= (high - low) / 2 < (n / 2 + 1) * GRANULE;
    assert (a * GRANULE + (high - low) / 2) / GRANULE == a + n / 2;
  }

  lemma Floor(n: nat, low: nat)
    requires low % GRANULE == 0 && low <= n < low + GRANULE
    ensures FloorGranule(n) == low
  {
  }

  /**
   Either the midpoint falls on the lower end, less than two whole granules remaining, or each half
   has at most half the whole granules, rounded up.
   */
  lemma Halved(low: nat, high: nat, r: nat)
    requires low < high && low % GRANULE == 0 && (high - low) / GRANULE <= Pow2(r)
    ensures var midpoint := MidpointOf(low, high);
            if midpoint <= low then (high - low) / GRANULE < 2
            else && r > 0 && midpoint + GRANULE <= high && midpoint % GRANULE == 0
                 && (high - midpoint) / GRANULE <= Pow2(r - 1)
                 && (midpoint - low) / GRANULE <= Pow2(r - 1)
  {
    var midpoint := MidpointOf(low, high);
    var n := (high - low) / GRANULE;
    MidpointIs(low, high);
    if midpoint > low {
      assert (high - midpoint) / GRANULE == n - n / 2;
      assert (midpoint - low) / GRANULE == n / 2;
    }
  }

  /** Where the bisection stops is where `Settled` says it does. */
  lemma SettlesAt(target: nat, cap: nat, low0: nat, low: nat, high: nat)
    requires low0 % GRANULE == 0 && low % GRANULE == 0 && PowerOfTwo(low0 / GRANULE)
    requires low0 <= low <= cap < high <= target && high <= 2 * low0
    requires (high - low) / GRANULE < 2
    requires high == target || high % GRANULE == 0
    requires low == low0 || low + GRANULE <= target
    ensures Settled(target, cap) == low
  {
    if high % GRANULE == 0 {
      WholeBracket(target, high);
      OneGranule(low, high);
      Floor(cap, low);
    } else {
      PartBracket(target, low);
      SettlesInPart(target, cap, low0, low);
    }
  }

  lemma OneGranule(low: nat, high: nat)
    requires low % GRANULE == 0 && high % GRANULE == 0 && low < high && (high - low) / GRANULE < 2
    ensures high == low + GRANULE
  {
  }

  /** The case of a bracket that ends at a target of no whole number of granules. */
  lemma SettlesInPart(target: nat, cap: nat, low0: nat, low: nat)
    requires low0 % GRANULE == 0 && low % GRANULE == 0 && PowerOfTwo(low0 / GRANULE)
    requires low0 <= low <= cap < target <= 2 * low0 && target % GRANULE != 0
    requires low == low0 || low + GRANULE <= target
    requires FloorGranule(target) == if low + GRANULE <= target then low + GRANULE else low
    requires target / GRANULE == low / GRANULE + (if low + GRANULE <= target then 1 else 0)
    ensures Settled(target, cap) == low
  {
    if low + GRANULE <= target && cap >= low + GRANULE {
      PowersAreSparse(low0 / GRANULE, target / GRANULE);
    } else {
      Floor(cap, low);
    }
  }

  lemma WholeBracket(target: nat, high: nat)
    requires high % GRANULE == 0 && high <= target
    ensures high <= FloorGranule(target)
  {
  }

  /** A target within two granules of a whole low end. */
  lemma PartBracket(target: nat, low: nat)
    requires low % GRANULE == 0 && low < target && (target - low) / GRANULE < 2
    ensures FloorGranule(target) == if low + GRANULE <= target then low + GRANULE else low
    ensures target / GRANULE == low / GRANULE + (if low + GRANULE <= target then 1 else 0)
  {
  }

  // ---------------------------------------------------------------- kernels with a fixed cap

  lemma {:induction false} CappedReport(kernel: Kernel, log: seq<Request>, initial: nat, cap: nat)
    requires Capped(kernel, initial, cap)
    ensures LastReport(kernel, log) == Some(LastGranted(log, initial))
  {
    if |log| > 0 && Last(log).error.Some? {
      CappedReport(kernel, Init(log), initial, cap);
    }
  }

  lemma {:induction false} CappedAnswers(kernel: Kernel, log: seq<Request>, initial: nat, target: nat, cap: nat)
    requires Capped(kernel, initial, cap) && Sound(kernel, log, initial, target)
    ensures LastGranted(log, initial) <= cap || LastGranted(log, initial) == initial
    ensures LastRefused(log).Some? ==> cap < LastRefused(log).value.size
  {
    if |log| > 0 {
      CappedAnswers(kernel, Init(log), initial, target, cap);
      assert kernel.setSize(Init(log), Last(log).size).None? <==> Last(log).size <= cap;
    }
  }

  // ---------------------------------------------------------------- bisection

  /** The last accepted size and the last refused one enclose what is still unknown. */
  ghost predicate Bracket(kernel: Kernel, log: seq<Request>, initial: nat, target: nat,
                          low: nat, high: nat, error: int) {
    && Sound(kernel, log, initial, target)
    && initial < low < high <= target
    && LastGranted(log, initial) == low
    && LastRefused(log) == Some(Request(high, Some(error)))
  }

  /** One more request narrows the bracket at the end its answer decides. */
  lemma BracketNarrows(kernel: Kernel, log: seq<Request>, initial: nat, target: nat,
                       low: nat, high: nat, error: int, midpoint: nat)
    requires Bracket(kernel, log, initial, target, low, high, error) && low < midpoint < high
    ensures var answer := kernel.setSize(log, midpoint);
            var next := log + [Request(midpoint, answer)];
            if answer.None?
            then Bracket(kernel, next, initial, target, midpoint, high, error)
                 && LastReport(kernel, next) == kernel.getSize(next)
            else Bracket(kernel, next, initial, target, low, midpoint, answer.value)
                 && LastReport(kernel, next) == LastReport(kernel, log)
  {
    Append(kernel, log, midpoint, initial, target);
  }

  /** What the bisection achieves under a fixed cap, when it starts on a doubling. */
  ghost predicate Settles(kernel: Kernel, initial: nat, target: nat, low0: nat, effective: Option<nat>) {
    forall cap: nat :: Capped(kernel, initial, cap) ==>
      effective.Some? && effective.value == Settled(target, cap) && low0 <= cap < target
  }

  lemma BracketSettles(kernel: Kernel, log: seq<Request>, initial: nat, target: nat,
                       low0: nat, low: nat, high: nat, error: int)
    requires Bracket(kernel, log, initial, target, low, high, error)
    requires low0 % GRANULE == 0 && low % GRANULE == 0 && PowerOfTwo(low0 / GRANULE)
    requires low0 <= low && high <= 2 * low0
    requires (high - low) / GRANULE < 2
    requires high == target || high % GRANULE == 0
    requires low == low0 || low + GRANULE <= target
    ensures Settles(kernel, initial, target, low0, LastReport(kernel, log))
  {
    forall cap: nat | Capped(kernel, initial, cap)
      ensures LastReport(kernel, log) == Some(low) && low == Settled(target, cap) && low0 <= cap < target
    {
      CappedReport(kernel, log, initial, cap);
      CappedAnswers(kernel, log, initial, target, cap);
      SettlesAt(target, cap, low0, low, high);
    }
  }

  lemma GetFailedSettles(kernel: Kernel, log: seq<Request>, initial: nat, target: nat, low0: nat)
    requires LastReport(kernel, log).None?
    ensures Settles(kernel, initial, target, low0, None)
  {
    forall cap: nat | Capped(kernel, initial, cap) ensures false {
      CappedReport(kernel, log, initial, cap);
    }
  }

  /** The inner `while`: refine between the last accepted and the first refused size. */
  method Bisect(kernel: Kernel, log0: seq<Request>, initial: nat, target: nat, low0: nat, high0: nat,
                effective0: nat, error0: int, ghost r0: nat)
    returns (log: seq<Request>, effective: Option<nat>, error: int)
    requires Bracket(kernel, log0, initial, target, low0, high0, error0)
    requires LastReport(kernel, log0) == Some(effective0)
    requires (high0 - low0) / GRANULE <= Pow2(r0)
    requires low0 % GRANULE == 0 && PowerOfTwo(low0 / GRANULE) && high0 <= 2 * low0
    requires high0 == target || high0 % GRANULE == 0
    ensures Sound(kernel, log, initial, target) && LastGranted(log, initial) < target
    ensures |log| <= |log0| + r0
    ensures effective == LastReport(kernel, log)
    ensures effective.Some? ==> LastRefused(log).Some? && LastRefused(log).value.error == Some(error)
    ensures Settles(kernel, initial, target, low0, effective)
  {
    log, effective, error := log0, Some(effective0), error0;
    var low: nat, high: nat := low0, high0;
    ghost var r := r0;
    while high - low > GRANULE
      invariant Bracket(kernel, log, initial, target, low, high, error)
      invariant |log| + r <= |log0| + r0
      invariant effective.Some? && effective == LastReport(kernel, log)
      invariant (high - low) / GRANULE <= Pow2(r)
      invariant low % GRANULE == 0 && low0 <= low && high <= high0
      invariant high == target || high % GRANULE == 0
      invariant low == low0 || low + GRANULE <= target
      decreases high - low
    {
      var midpoint := MidpointOf(low, high);
      Halved(low, high, r);
      if midpoint <= low {
        break;
      }
      BracketNarrows(kernel, log, initial, target, low, high, error, midpoint);
      r := r - 1;
      var answer := kernel.setSize(log, midpoint);
      log := log + [Request(midpoint, answer)];
      match answer
      case None =>
        low := midpoint;
        effective := kernel.getSize(log);
        if effective.None? {
          GetFailedSettles(kernel, log, initial, target, low0);
          return;
        }
      case Some(err) =>
        high := midpoint;
        error := err;
    }
    BracketSettles(kernel, log, initial, target, low0, low, high, error);
  }

  // ---------------------------------------------------------------- doubling

  /** The size the doubling asks for at step i. */
  function Candidate(i: nat, target: nat): nat {
    if Pow2(i) * GRANULE <= target then Pow2(i) * GRANULE else target
  }

  /** The doubling phase at step i: everything requested so far was accepted. */
  ghost predicate Doubling(
    kernel: Kernel, log: seq<Request>, initial: nat, target: nat, i: nat, accepted: Option<nat>)
  {
    && target >= MIN_UDP_SOCKET_BUFFER
    && (i > 0 ==> Pow2(i - 1) * GRANULE < target)
    && |log| <= i
    && Sound(kernel, log, initial, target)
    && LastRefused(log) == None
    && match accepted {
         case None =>
           log == [] &&
           FirstStep(initial, target, MIN_UDP_SOCKET_BUFFER) == FirstStep(initial, target, Candidate(i, target))
         case Some(low) =>
           i > 0 && low == Pow2(i - 1) * GRANULE > initial &&
           LastGranted(log, initial) == low && FirstStep(initial, target, MIN_UDP_SOCKET_BUFFER) <= low
       }
  }

  lemma SkipSmall(kernel: Kernel, initial: nat, target: nat, i: nat)
    requires Doubling(kernel, [], initial, target, i, None)
    requires Candidate(i, target) <= initial < target
    ensures Doubling(kernel, [], initial, target, i + 1, None)
  {
  }

  lemma Doubled(kernel: Kernel, log: seq<Request>, initial: nat, target: nat, i: nat, accepted: Option<nat>)
    requires Doubling(kernel, log, initial, target, i, accepted)
    requires initial < Candidate(i, target) && kernel.setSize(log, Candidate(i, target)).None?
    ensures var next := log + [Request(Candidate(i, target), None)];
            && Sound(kernel, next, initial, target)
            && LastGranted(next, initial) == Candidate(i, target)
            && LastReport(kernel, next) == kernel.getSize(next)
            && (Candidate(i, target) < target ==>
                  Doubling(kernel, next, initial, target, i + 1, Some(Candidate(i, target))))
  {
    Append(kernel, log, Candidate(i, target), initial, target);
  }

  /** A refusal after some growth opens a bracket the bisection can work on. */
  lemma RefusalBrackets(kernel: Kernel, log: seq<Request>, initial: nat, target: nat, i: nat, low: nat, error: int)
    requires Doubling(kernel, log, initial, target, i, Some(low)) && initial < Candidate(i, target)
    requires kernel.setSize(log, Candidate(i, target)) == Some(error)
    ensures var high := Candidate(i, target);
            var next := log + [Request(high, Some(error))];
            && Bracket(kernel, next, initial, target, low, high, error)
            && LastReport(kernel, next) == LastReport(kernel, log)
            && (high - low) / GRANULE <= Pow2(i - 1) && high <= 2 * low
            && (high == target || high % GRANULE == 0)
    ensures low % GRANULE == 0 && PowerOfTwo(low / GRANULE)
  {
    Append(kernel, log, Candidate(i, target), initial, target);
    Pow2IsPower(i - 1);
    assert low / GRANULE == Pow2(i - 1);
  }

  lemma EconomicalAt(log: seq<Request>, target: nat, i: nat)
    requires i > 0 ==> Pow2(i - 1) * GRANULE < target
    requires |log| <= if i == 0 then 1 else 2 * i
    ensures Economical(log, target)
  {
    forall k: nat | target <= Pow2(k) * GRANULE ensures |log| <= CallBound(k) {
      if i > 0 && k <= i - 1 {
        Pow2Monotone(k, i - 1);
      }
    }
  }

  lemma TargetReached(kernel: Kernel, log: seq<Request>, initial: nat, target: nat, effective: nat)
    requires kernel.getSize([]) == Some(initial) && initial < target && target >= MIN_UDP_SOCKET_BUFFER
    requires Sound(kernel, log, initial, target) && LastGranted(log, initial) == target
    requires LastReport(kernel, log) == Some(effective)
    ensures ClosedForm(kernel, Some(Tuning(initial, effective, target, true, None)), target)
  {
    forall initial': nat, cap: nat | Capped(kernel, initial', cap)
      ensures effective == Expected(initial', target, cap) && target <= cap
    {
      assert kernel.getSize([]) == Some(initial');
      CappedReport(kernel, log, initial', cap);
      CappedAnswers(kernel, log, initial', target, cap);
    }
  }

  lemma NeverGrew(kernel: Kernel, initial: nat, target: nat, candidate: nat, error: int)
    requires kernel.getSize([]) == Some(initial) && initial < target && target >= MIN_UDP_SOCKET_BUFFER
    requires candidate <= target && FirstStep(initial, target, MIN_UDP_SOCKET_BUFFER) == candidate
    requires kernel.setSize([], candidate) == Some(error)
    ensures ClosedForm(kernel, Some(Tuning(initial, initial, target, false, Some(error))), target)
  {
    forall initial': nat, cap: nat | Capped(kernel, initial', cap)
      ensures initial == Expected(initial', target, cap) && cap < target && initial' == initial
    {
      assert kernel.getSize([]) == Some(initial');
      assert kernel.setSize([], candidate).Some?;
    }
  }

  lemma GetFailed(kernel: Kernel, log: seq<Request>, target: nat)
    requires LastReport(kernel, log).None? && target >= MIN_UDP_SOCKET_BUFFER
    ensures ClosedForm(kernel, None, target)
  {
    forall initial: nat, cap: nat | Capped(kernel, initial, cap) ensures false {
      CappedReport(kernel, log, initial, cap);
    }
  }

  lemma Refined(kernel: Kernel, initial: nat, target: nat, low: nat, effective: nat, error: int)
    requires kernel.getSize([]) == Some(initial) && initial < target && target >= MIN_UDP_SOCKET_BUFFER
    requires FirstStep(initial, target, MIN_UDP_SOCKET_BUFFER) <= low
    requires Settles(kernel, initial, target, low, Some(effective))
    ensures ClosedForm(kernel, Some(Tuning(initial, effective, target, false, Some(error))), target)
  {
    forall initial': nat, cap: nat | Capped(kernel, initial', cap)
      ensures effective == Expected(initial', target, cap) && cap < target && initial' == initial
    {
      assert kernel.getSize([]) == Some(initial');
    }
  }

  lemma AlreadyLarge(kernel: Kernel, initial: nat, target: nat)
    requires kernel.getSize([]) == Some(initial) && initial >= target >= MIN_UDP_SOCKET_BUFFER
    ensures ClosedForm(kernel, Some(Tuning(initial, initial, target, true, None)), target)
  {
    forall initial': nat, cap: nat | Capped(kernel, initial', cap) ensures initial' == initial {
      assert kernel.getSize([]) == Some(initial');
    }
  }

  /** The error arm of the doubling: keep the default, or refine from the last accepted size. */
  method Refuse(kernel: Kernel, log0: seq<Request>, initial: nat, target: nat, candidate: nat,
                accepted: Option<nat>, effective: nat, error: int, ghost i: nat)
    returns (r: Option<Tuning>, log: seq<Request>)
    requires kernel.getSize([]) == Some(initial) && initial < candidate == Candidate(i, target) <= target
    requires Doubling(kernel, log0, initial, target, i, accepted)
    requires LastReport(kernel, log0) == Some(effective)
    requires kernel.setSize(log0, candidate) == Some(error)
    ensures Sound(kernel, log, initial, target) && Economical(log, target)
    ensures r.None? ==> LastReport(kernel, log).None?
    ensures r.Some? ==> Reports(r.value, kernel, log, initial, target)
    ensures ClosedForm(kernel, r, target)
  {
    log := log0 + [Request(candidate, Some(error))];
    if accepted.None? {
      NeverGrew(kernel, initial, target, candidate, error);
      Append(kernel, log0, candidate, initial, target);
      EconomicalAt(log, target, i);
      return Some(Tuning(initial, effective, target, false, Some(error))), log;
    }
    RefusalBrackets(kernel, log0, initial, target, i, accepted.value, error);
    var refined: Option<nat>, limitError: int;
    log, refined, limitError := Bisect(kernel, log, initial, target, accepted.value, candidate,
                                       effective, error, i - 1);
    EconomicalAt(log, target, i);
    if refined.None? {
      GetFailed(kernel, log, target);
      return None, log;
    }
    Refined(kernel, initial, target, accepted.value, refined.value, limitError);
    r := Some(Tuning(initial, refined.value, target, false, Some(limitError)));
  }

  /** `candidate.saturating_mul(2).min(target)`: saturation never shows below the target. */
  function NextCandidate(candidate: nat, target: nat): nat {
    var doubled := SaturatingMul(candidate, 2);
    if doubled <= target then doubled else target
  }

  lemma NextCandidateIs(i: nat, target: nat)
    requires target <= USIZE_MAX && Candidate(i, target) < target
    ensures NextCandidate(Candidate(i, target), target) == Candidate(i + 1, target)
    ensures Candidate(i, target) < Candidate(i + 1, target) <= target
  {
  }

  /** The outer `loop`. */
  method Grow(kernel: Kernel, initial: nat, target: nat) returns (r: Option<Tuning>, log: seq<Request>)
    requires kernel.getSize([]) == Some(initial) && initial < target
    requires MIN_UDP_SOCKET_BUFFER <= target <= USIZE_MAX
    ensures Sound(kernel, log, initial, target) && Economical(log, target)
    ensures r.None? ==> LastReport(kernel, log).None?
    ensures r.Some? ==> Reports(r.value, kernel, log, initial, target)
    ensures ClosedForm(kernel, r, target)
  {
    log := [];
    var effective := initial;
    var accepted: Option<nat> := None;
    var candidate: nat := MIN_UDP_SOCKET_BUFFER;
    ghost var i: nat := 0;
    while true
      invariant candidate == Candidate(i, target) <= target
      invariant Doubling(kernel, log, initial, target, i, accepted)
      invariant LastReport(kernel, log) == Some(effective)
      decreases target - candidate
    {
      if candidate > initial {
        var answer := kernel.setSize(log, candidate);
        match answer
        case None =>
          Doubled(kernel, log, initial, target, i, accepted);
          log := log + [Request(candidate, None)];
          EconomicalAt(log, target, i);
          var size := kernel.getSize(log);
          if size.None? {
            GetFailed(kernel, log, target);
            return None, log;
          }
          effective := size.value;
          accepted := Some(candidate);
        case Some(error) =>
          r, log := Refuse(kernel, log, initial, target, candidate, accepted, effective, error, i);
          return;
      } else {
        SkipSmall(kernel, initial, target, i);
      }
      if candidate == target {
        TargetReached(kernel, log, initial, target, effective);
        return Some(Tuning(initial, effective, target, true, None)), log;
      }
      NextCandidateIs(i, target);
      candidate := NextCandidate(candidate, target);
      i := i + 1;
    }
  }

  /**
   `tune_socket_buffer`. For any kernel: every request is above the default and accepted sizes only
   grow, the requests are few, and the result reports the last accepted size. For a kernel with a
   fixed cap the resulting size is known in closed form.
   */
  method TuneSocketBuffer(kernel: Kernel, requestedTarget: nat) returns (r: Option<Tuning>, log: seq<Request>)
    requires requestedTarget <= USIZE_MAX
    ensures kernel.getSize([]).None? ==> r.None? && log == []
    ensures kernel.getSize([]).Some? ==> Sound(kernel, log, kernel.getSize([]).value, Target(requestedTarget))
    ensures Economical(log, Target(requestedTarget))
    ensures r.None? ==> LastReport(kernel, log).None?
    ensures r.Some? ==> kernel.getSize([]).Some?
    ensures r.Some? ==> Reports(r.value, kernel, log, kernel.getSize([]).value, Target(requestedTarget))
    ensures ClosedForm(kernel, r, Target(requestedTarget))
    ensures r.Some? ==> r.value.target >= requestedTarget && r.value.target in {65536, requestedTarget}
    ensures forall initial: nat, cap: nat :: Capped(kernel, initial, cap) ==>
              r.Some? && KeepsPromise(r.value, requestedTarget, initial, cap)
  {
    r, log := Tune(kernel, requestedTarget);
    forall initial: nat, cap: nat | Capped(kernel, initial, cap)
      ensures r.Some? && KeepsPromise(r.value, requestedTarget, initial, cap)
    {
      assert kernel.getSize([]) == Some(initial);
      CappedReport(kernel, log, initial, cap);
      SoundMeans(kernel, log, initial, Target(requestedTarget));
      PromiseKept(r.value, requestedTarget, initial, cap);
    }
  }

  /** The body of the search. */
  method Tune(kernel: Kernel, requestedTarget: nat) returns (r: Option<Tuning>, log: seq<Request>)
    requires requestedTarget <= USIZE_MAX
    ensures kernel.getSize([]).None? ==> r.None? && log == []
    ensures kernel.getSize([]).Some? ==> Sound(kernel, log, kernel.getSize([]).value, Target(requestedTarget))
    ensures Economical(log, Target(requestedTarget))
    ensures r.None? ==> LastReport(kernel, log).None?
    ensures r.Some? ==> kernel.getSize([]).Some?
    ensures r.Some? ==> Reports(r.value, kernel, log, kernel.getSize([]).value, Target(requestedTarget))
    ensures ClosedForm(kernel, r, Target(requestedTarget))
  {
    var target := Target(requestedTarget);
    var first := kernel.getSize([]);
    if first.None? {
      EconomicalAt([], target, 0);
      GetFailed(kernel, [], target);
      return None, [];
    }
    var initial := first.value;
    if initial >= target {
      EconomicalAt([], target, 0);
      AlreadyLarge(kernel, initial, target);
      return Some(Tuning(initial, initial, target, true, None)), [];
    }
    r, log := Grow(kernel, initial, target);
  }

  // ---------------------------------------------------------------- how close it comes

  /**
   A refused search that grew ends within two granules of the cap, and within one granule exactly
   when the target is a whole number of granules, or the cap lies below the target's last whole
   granule, or that granule is itself one of the doublings.
   */
  lemma Shortfall(initial: nat, target: nat, cap: nat)
    requires MIN_UDP_SOCKET_BUFFER <= target && initial < target && cap < target
    requires FirstStep(initial, target, MIN_UDP_SOCKET_BUFFER) <= cap
    ensures 0 <= cap - Expected(initial, target, cap) < 131072
    ensures cap - Expected(initial, target, cap) < 65536 <==> Fine(target, cap)
  {
  }

  /** The first request is at least a granule, above the default, and no more than twice it beyond a granule. */
  lemma {:induction false} FirstStepBounds(initial: nat, target: nat, candidate: nat)
    requires 65536 <= candidate <= target && (candidate == 65536 || candidate <= 2 * initial) && initial < target
    ensures var first := FirstStep(initial, target, candidate);
            65536 <= first && initial < first <= target && (first == 65536 || first <= 2 * initial)
    decreases target - candidate
  {
    if candidate <= initial {
      FirstStepBounds(initial, target, if 2 * candidate <= target then 2 * candidate else target);
    }
  }

  lemma PromiseKept(t: Tuning, requested: nat, initial: nat, cap: nat)
    requires t.initial == initial <= t.effective && t.target == Target(requested)
    requires t.effective == Expected(initial, Target(requested), cap)
    requires t.targetAccepted <==> initial >= Target(requested) || Target(requested) <= cap
    ensures KeepsPromise(t, requested, initial, cap)
  {
    if initial < t.target {
      FirstStepBounds(initial, t.target, 65536);
      if cap < t.target && FirstStep(initial, t.target, 65536) <= cap {
        Shortfall(initial, t.target, cap);
      }
    }
  }

  /** The one-granule bound really fails for some targets. */
  lemma CoarseShortfallExists()
    ensures var target, cap := 3 * GRANULE + 100, 3 * GRANULE + 50;
            cap - Expected(0, target, cap) == GRANULE + 50
  {
    assert FirstStep(0, 3 * GRANULE + 100, GRANULE) == GRANULE;
    assert !PowerOfTwo(3);
  }
}
