/** What became of each packet, in the order the packets were read. */
module History {
  datatype Fate = Pending | Sent | Dropped

  /** The subsequence of xs whose fate is f. */
  function Pick<T>(xs: seq<T>, fates: seq<Fate>, f: Fate): (r: seq<T>)
    requires |xs| == |fates|
    ensures |r| <= |xs|
  {
    if |xs| == 0 then []
    else
      var n := |xs| - 1;
      Pick(xs[..n], fates[..n], f) + (if fates[n] == f then [xs[n]] else [])
  }

  /** The positions of the packets whose fate is f. */
  function Positions(fates: seq<Fate>, f: Fate): (r: seq<nat>)
    ensures |r| <= |fates|
  {
    if |fates| == 0 then []
    else
      var n := |fates| - 1;
      Positions(fates[..n], f) + (if fates[n] == f then [n] else [])
  }

  ghost predicate Increasing(idx: seq<nat>, bound: nat) {
    && (forall i :: 0 <= i < |idx| ==> idx[i] < bound)
    && (forall i, j :: 0 <= i < j < |idx| ==> idx[i] < idx[j])
  }

  lemma {:induction false} PickIsSubsequence<T>(xs: seq<T>, fates: seq<Fate>, f: Fate)
    requires |xs| == |fates|
    ensures Increasing(Positions(fates, f), |xs|)
    ensures |Pick(xs, fates, f)| == |Positions(fates, f)|
    ensures forall k :: 0 <= k < |Positions(fates, f)| ==>
              Pick(xs, fates, f)[k] == xs[Positions(fates, f)[k]] && fates[Positions(fates, f)[k]] == f
  {
    if |xs| > 0 {
      PickIsSubsequence(xs[..|xs| - 1], fates[..|xs| - 1], f);
    }
  }

  lemma {:induction false} PickNone<T>(xs: seq<T>, fates: seq<Fate>, f: Fate)
    requires |xs| == |fates| && f !in fates
    ensures Pick(xs, fates, f) == []
  {
    if |xs| > 0 {
      PickNone(xs[..|xs| - 1], fates[..|xs| - 1], f);
    }
  }

  lemma {:induction false} FatesPartition<T>(xs: seq<T>, fates: seq<Fate>)
    requires |xs| == |fates|
    ensures |Pick(xs, fates, Pending)| + |Pick(xs, fates, Sent)| + |Pick(xs, fates, Dropped)| == |xs|
  {
    if |xs| > 0 {
      FatesPartition(xs[..|xs| - 1], fates[..|xs| - 1]);
    }
  }

  lemma PickAppend<T>(xs: seq<T>, fates: seq<Fate>, x: T, fate: Fate, f: Fate)
    requires |xs| == |fates|
    ensures Pick(xs + [x], fates + [fate], f) == Pick(xs, fates, f) + (if fate == f then [x] else [])
  {
    assert (xs + [x])[..|xs|] == xs && (fates + [fate])[..|fates|] == fates;
  }

  /** First in, first out: nothing was sent after a packet that is still pending. */
  ghost predicate Fifo(fates: seq<Fate>) {
    forall i, j :: 0 <= i < j < |fates| && fates[i] == Pending ==> fates[j] != Sent
  }

  /** The oldest pending position, or the length when nothing is pending. */
  function Oldest(fates: seq<Fate>): (i: nat)
    ensures i <= |fates|
    ensures forall j :: 0 <= j < i ==> fates[j] != Pending
    ensures i < |fates| ==> fates[i] == Pending
  {
    if |fates| == 0 then 0
    else
      var i := Oldest(fates[..|fates| - 1]);
      if i < |fates| - 1 then i
      else if fates[|fates| - 1] == Pending then |fates| - 1
      else |fates|
  }

  /** The oldest pending packet meets its fate. */
  function Settle(fates: seq<Fate>, f: Fate): (r: seq<Fate>)
    ensures |r| == |fates|
  {
    if Oldest(fates) < |fates| then fates[Oldest(fates) := f] else fates
  }

  lemma {:induction false} NothingPicked<T>(xs: seq<T>, fates: seq<Fate>, f: Fate)
    requires |xs| == |fates| && forall i :: 0 <= i < |fates| ==> fates[i] != f
    ensures Pick(xs, fates, f) == []
  {
    if |xs| > 0 {
      NothingPicked(xs[..|xs| - 1], fates[..|xs| - 1], f);
    }
  }

  /** The subsequences before and after the oldest pending packet meets fate f. */
  ghost predicate Settled<T>(xs: seq<T>, fates: seq<Fate>, after: seq<Fate>, f: Fate)
    requires |xs| == |fates| == |after| && Pick(xs, fates, Pending) != []
  {
    && Pick(xs, after, Pending) == Pick(xs, fates, Pending)[1..]
    && Pick(xs, after, Sent) == Pick(xs, fates, Sent) + (if f == Sent then [Pick(xs, fates, Pending)[0]] else [])
    && |Pick(xs, after, Dropped)| == |Pick(xs, fates, Dropped)| + (if f == Dropped then 1 else 0)
  }

  lemma SettleNewest<T>(xs: seq<T>, fates: seq<Fate>, f: Fate)
    requires |xs| == |fates| > 0 && Oldest(fates) == |fates| - 1 && f != Pending
    ensures Pick(xs, fates, Pending) != [] && Settled(xs, fates, Settle(fates, f), f)
  {
    var n := |xs| - 1;
    NothingPicked(xs[..n], fates[..n], Pending);
    assert Settle(fates, f)[..n] == fates[..n];
  }

  lemma SettleExtend<T>(xs: seq<T>, fates: seq<Fate>, after: seq<Fate>, f: Fate)
    requires |xs| == |fates| == |after| > 0
    requires var n := |xs| - 1;
             && Pick(xs[..n], fates[..n], Pending) != []
             && Settled(xs[..n], fates[..n], after[..n], f)
             && after[n] == fates[n] != Sent
    ensures Pick(xs, fates, Pending) != [] && Settled(xs, fates, after, f)
  {
  }

  /** Settling the oldest moves it from the pending to the sent or dropped packets, at the end. */
  lemma {:induction false} SettleEffect<T>(xs: seq<T>, fates: seq<Fate>, f: Fate)
    requires |xs| == |fates| && Pick(xs, fates, Pending) != [] && f != Pending && Fifo(fates)
    ensures Settled(xs, fates, Settle(fates, f), f)
  {
    var n := |xs| - 1;
    var i := Oldest(fates);
    if i == |fates| {
      NothingPicked(xs, fates, Pending);
    } else if i == n {
      SettleNewest(xs, fates, f);
    } else {
      PendingIsPicked(xs[..n], fates[..n], i);
      assert Settle(fates, f)[..n] == Settle(fates[..n], f);
      SettleEffect(xs[..n], fates[..n], f);
      SettleExtend(xs, fates, Settle(fates, f), f);
    }
  }

  lemma SettleKeepsFifo(fates: seq<Fate>, f: Fate)
    requires Fifo(fates) && f != Pending
    ensures Fifo(Settle(fates, f))
  {
  }

  lemma {:induction false} PendingIsPicked<T>(xs: seq<T>, fates: seq<Fate>, i: nat)
    requires |xs| == |fates| && i < |fates| && fates[i] == Pending
    ensures Pick(xs, fates, Pending) != []
  {
    if i < |xs| - 1 {
      PendingIsPicked(xs[..|xs| - 1], fates[..|xs| - 1], i);
    }
  }
}
