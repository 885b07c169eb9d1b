/** Choosing and ordering the MASQUE endpoints to try (`config.rs: select_endpoints_from_config`). */
module Endpoints {
  import opened Arithmetic
  import opened Bytes

  type Ip = int

  datatype Peer = Peer(endpointV4: string, endpointV6: string, host: string, ports: seq<nat>, pubKey: string)

  /** The configuration fields endpoint selection reads. */
  datatype AppConfig = AppConfig(endpointV4: string, endpointV6: string, pubKey: string, masquePeers: seq<Peer>)

  datatype SocketAddr = SocketAddr(ip: Ip, port: nat)

  datatype Endpoint = Endpoint(addr: SocketAddr, host: string, key: seq<byte>)

  /** Library calls: is an address blank once trimmed, does it parse, does a PEM key decode. */
  datatype Resolver = Resolver(
    blank: string -> bool, parseIp: string -> Option<Ip>, decodeKey: string -> Option<seq<byte>>)

  datatype Problem = BadKey | BadAddress | NoEndpoint

  datatype Selection = Selected(endpoints: seq<Endpoint>) | Refused(problem: Problem)

  // ---------------------------------------------------------------- the candidates

  /** Without an API peer list the legacy fields make up a single peer. */
  function Peers(cfg: AppConfig): (peers: seq<Peer>)
    ensures peers != [] && (cfg.masquePeers != [] ==> peers == cfg.masquePeers)
    ensures cfg.masquePeers == [] ==>
              && |peers| == 1 && peers[0].endpointV4 == cfg.endpointV4 && peers[0].endpointV6 == cfg.endpointV6
              && peers[0].pubKey == cfg.pubKey && peers[0].ports == []
  {
    if cfg.masquePeers == [] then [Peer(cfg.endpointV4, cfg.endpointV6, "", [], cfg.pubKey)] else cfg.masquePeers
  }

  function NonZero(ports: seq<nat>): seq<nat> {
    if |ports| == 0 then []
    else NonZero(ports[..|ports| - 1]) + (if ports[|ports| - 1] != 0 then [ports[|ports| - 1]] else [])
  }

  /** The override, or the API's ports, or 443. */
  function Ports(peer: Peer, portOverride: nat): (ports: seq<nat>)
    ensures ports != []
  {
    if portOverride != 0 then [portOverride]
    else if NonZero(peer.ports) == [] then [443]
    else NonZero(peer.ports)
  }

  function Families(peer: Peer, preferIpv6: bool): (f: seq<string>)
    ensures |f| == 2
  {
    if preferIpv6 then [peer.endpointV6, peer.endpointV4] else [peer.endpointV4, peer.endpointV6]
  }

  predicate Usable(r: Resolver, address: string) {
    r.blank(address) || r.parseIp(address).Some?
  }

  predicate PeerOk(r: Resolver, peer: Peer) {
    r.decodeKey(peer.pubKey).Some? && Usable(r, peer.endpointV4) && Usable(r, peer.endpointV6)
  }

  /** What an address contributes: itself with each port, under its own peer's host and key. */
  function FromAddress(r: Resolver, peer: Peer, address: string, portOverride: nat): seq<Endpoint>
    requires r.decodeKey(peer.pubKey).Some? && Usable(r, address)
  {
    if r.blank(address) then []
    else AtPorts(r.parseIp(address).value, peer.host, r.decodeKey(peer.pubKey).value, Ports(peer, portOverride))
  }

  function AtPorts(ip: Ip, host: string, key: seq<byte>, ports: seq<nat>): (r: seq<Endpoint>)
    ensures |r| == |ports|
    ensures forall i :: 0 <= i < |ports| ==> r[i] == Endpoint(SocketAddr(ip, ports[i]), host, key)
  {
    seq(|ports|, i requires 0 <= i < |ports| => Endpoint(SocketAddr(ip, ports[i]), host, key))
  }

  function FromAddresses(r: Resolver, peer: Peer, addresses: seq<string>, portOverride: nat): seq<Endpoint>
    requires r.decodeKey(peer.pubKey).Some? && forall i :: 0 <= i < |addresses| ==> Usable(r, addresses[i])
  {
    if |addresses| == 0 then []
    else FromAddresses(r, peer, addresses[..|addresses| - 1], portOverride)
         + FromAddress(r, peer, addresses[|addresses| - 1], portOverride)
  }

  function FromPeer(r: Resolver, peer: Peer, preferIpv6: bool, portOverride: nat): seq<Endpoint>
    requires PeerOk(r, peer)
  {
    FromAddresses(r, peer, Families(peer, preferIpv6), portOverride)
  }

  lemma FromPeerIs(r: Resolver, peer: Peer, preferIpv6: bool, portOverride: nat)
    requires PeerOk(r, peer)
    ensures FromPeer(r, peer, preferIpv6, portOverride)
            == FromAddress(r, peer, Families(peer, preferIpv6)[0], portOverride)
               + FromAddress(r, peer, Families(peer, preferIpv6)[1], portOverride)
  {
    var f := Families(peer, preferIpv6);
    var first := f[..1];
    assert first[0] == f[0] && first[..0] == [];
    assert FromAddresses(r, peer, first, portOverride) == [] + FromAddress(r, peer, f[0], portOverride);
    assert FromAddresses(r, peer, f, portOverride)
        == FromAddresses(r, peer, first, portOverride) + FromAddress(r, peer, f[1], portOverride);
  }

  /** Every candidate in the order the nested loops meet it, duplicates included. */
  function Candidates(r: Resolver, peers: seq<Peer>, preferIpv6: bool, portOverride: nat): seq<Endpoint>
    requires forall i :: 0 <= i < |peers| ==> PeerOk(r, peers[i])
  {
    if |peers| == 0 then []
    else Candidates(r, peers[..|peers| - 1], preferIpv6, portOverride)
         + FromPeer(r, peers[|peers| - 1], preferIpv6, portOverride)
  }

  // ---------------------------------------------------------------- removing duplicates

  /** What makes two candidates the same endpoint. */
  function Id(e: Endpoint): (SocketAddr, seq<byte>) {
    (e.addr, e.key)
  }

  function Ids(s: seq<Endpoint>): set<(SocketAddr, seq<byte>)> {
    set e | e in s :: Id(e)
  }

  /** The candidates whose identity is neither in `seen` nor earlier in the list. */
  function Fresh(s: seq<Endpoint>, seen: set<(SocketAddr, seq<byte>)>): seq<Endpoint> {
    if |s| == 0 then []
    else
      var n := |s| - 1;
      Fresh(s[..n], seen) + (if Id(s[n]) in seen + Ids(s[..n]) then [] else [s[n]])
  }

  function FirstOccurrences(s: seq<Endpoint>): seq<Endpoint> {
    Fresh(s, {})
  }

  lemma IdsConcat(a: seq<Endpoint>, b: seq<Endpoint>)
    ensures Ids(a + b) == Ids(a) + Ids(b)
  {
    assert forall e :: e in a + b <==> e in a || e in b;
  }

  lemma Snoc(s: seq<Endpoint>, e: Endpoint, seen: set<(SocketAddr, seq<byte>)>)
    ensures Fresh(s + [e], seen) == Fresh(s, seen) + (if Id(e) in seen + Ids(s) then [] else [e])
    ensures Ids(s + [e]) == Ids(s) + {Id(e)}
  {
    assert (s + [e])[..|s|] == s;
    IdsConcat(s, [e]);
    assert Ids([e]) == {Id(e)};
  }

  lemma {:induction false} FreshConcat(a: seq<Endpoint>, b: seq<Endpoint>, seen: set<(SocketAddr, seq<byte>)>)
    ensures Fresh(a + b, seen) == Fresh(a, seen) + Fresh(b, seen + Ids(a))
  {
    if |b| == 0 {
      assert a + b == a;
    } else {
      var rest, last := b[..|b| - 1], b[|b| - 1];
      FreshConcat(a, rest, seen);
      assert b == rest + [last];
      FreshConcatStep(a, rest, last, seen);
    }
  }

  lemma FreshConcatStep(a: seq<Endpoint>, rest: seq<Endpoint>, last: Endpoint, seen: set<(SocketAddr, seq<byte>)>)
    requires Fresh(a + rest, seen) == Fresh(a, seen) + Fresh(rest, seen + Ids(a))
    ensures Fresh(a + (rest + [last]), seen) == Fresh(a, seen) + Fresh(rest + [last], seen + Ids(a))
  {
    var x := if Id(last) in seen + Ids(a) + Ids(rest) then [] else [last];
    Associative(a, rest, [last]);
    assert Fresh(a + rest + [last], seen) == Fresh(a + rest, seen) + x by {
      Snoc(a + rest, last, seen);
      IdsConcat(a, rest);
    }
    assert Fresh(rest + [last], seen + Ids(a)) == Fresh(rest, seen + Ids(a)) + x by { Snoc(rest, last, seen + Ids(a)); }
    Associative(Fresh(a, seen), Fresh(rest, seen + Ids(a)), x);
  }

  /** Dropping duplicates keeps one endpoint per identity and loses none. */
  lemma {:induction false} FreshIsComplete(s: seq<Endpoint>, seen: set<(SocketAddr, seq<byte>)>)
    ensures Complete(Fresh(s, seen), s, seen)
  {
    if |s| > 0 {
      var rest, last := s[..|s| - 1], s[|s| - 1];
      assert s == rest + [last];
      FreshIsComplete(rest, seen);
      Snoc(rest, last, seen);
      if Id(last) in seen + Ids(rest) {
        SkipOld(Fresh(rest, seen), rest, last, seen);
        assert Fresh(rest, seen) + [] == Fresh(rest, seen);
      } else {
        KeepNew(Fresh(rest, seen), rest, last, seen);
      }
    }
  }

  /** `kept` is what should be left of s: each identity outside `seen` once. */
  ghost predicate Complete(kept: seq<Endpoint>, s: seq<Endpoint>, seen: set<(SocketAddr, seq<byte>)>) {
    Ids(kept) == Ids(s) - seen && DistinctIds(kept) && forall e :: e in kept ==> e in s
  }

  lemma KeepNew(kept: seq<Endpoint>, s: seq<Endpoint>, last: Endpoint, seen: set<(SocketAddr, seq<byte>)>)
    requires Complete(kept, s, seen) && Id(last) !in seen + Ids(s)
    ensures Complete(kept + [last], s + [last], seen)
  {
    assert Ids(kept + [last]) == Ids(s + [last]) - seen by {
      Snoc(kept, last, {});
      Snoc(s, last, {});
    }
    assert DistinctIds(kept + [last]) by { DistinctSnoc(kept, last); }
    assert forall e :: e in kept + [last] ==> e in kept || e == last;
  }

  lemma SkipOld(kept: seq<Endpoint>, s: seq<Endpoint>, last: Endpoint, seen: set<(SocketAddr, seq<byte>)>)
    requires Complete(kept, s, seen) && Id(last) in seen + Ids(s)
    ensures Complete(kept, s + [last], seen)
  {
    Snoc(s, last, {});
  }

  ghost predicate DistinctIds(s: seq<Endpoint>) {
    forall i, j :: 0 <= i < j < |s| ==> Id(s[i]) != Id(s[j])
  }

  lemma DistinctSnoc(s: seq<Endpoint>, e: Endpoint)
    requires DistinctIds(s)
    ensures Id(e) !in Ids(s) ==> DistinctIds(s + [e])
  {
    assert forall i :: 0 <= i < |s| ==> s[i] in s && Id(s[i]) in Ids(s);
  }

  // ---------------------------------------------------------------- ordering

  /** 443 first, 1701 last, everything else between. */
  function Class(e: Endpoint): (k: nat)
    ensures k <= 2
  {
    if e.addr.port == 443 then 0 else if e.addr.port == 1701 then 2 else 1
  }

  function OfClass(s: seq<Endpoint>, k: nat): (r: seq<Endpoint>)
    ensures forall i :: 0 <= i < |r| ==> Class(r[i]) == k
  {
    if |s| == 0 then []
    else OfClass(s[..|s| - 1], k) + (if Class(s[|s| - 1]) == k then [s[|s| - 1]] else [])
  }

  /** The stable order: each class in turn, each in the order it came. */
  function ByClass(s: seq<Endpoint>): seq<Endpoint> {
    OfClass(s, 0) + OfClass(s, 1) + OfClass(s, 2)
  }

  ghost predicate SortedByClass(s: seq<Endpoint>) {
    forall i, j :: 0 <= i < j < |s| ==> Class(s[i]) <= Class(s[j])
  }

  /** A stable sort of s by class: sorted, and each class in its original order. */
  ghost predicate StableSortOf(s: seq<Endpoint>, t: seq<Endpoint>) {
    SortedByClass(t) && forall k :: 0 <= k <= 2 ==> OfClass(t, k) == OfClass(s, k)
  }

  lemma OfClassSnoc(s: seq<Endpoint>, e: Endpoint, k: nat)
    ensures OfClass(s + [e], k) == OfClass(s, k) + If(e, k)
  {
    assert (s + [e])[..|s|] == s;
  }

  lemma {:induction false} OfClassConcat(a: seq<Endpoint>, b: seq<Endpoint>, k: nat)
    ensures OfClass(a + b, k) == OfClass(a, k) + OfClass(b, k)
  {
    if |b| == 0 {
      assert a + b == a;
    } else {
      var b', last := b[..|b| - 1], b[|b| - 1];
      OfClassConcat(a, b', k);
      OfClassSnoc(a + b', last, k);
      assert a + b == a + b' + [last];
    }
  }

  lemma {:induction false} OfOneClass(s: seq<Endpoint>, j: nat, k: nat)
    requires forall i :: 0 <= i < |s| ==> Class(s[i]) == j
    ensures OfClass(s, k) == if j == k then s else []
  {
    if |s| > 0 {
      var rest, last := s[..|s| - 1], s[|s| - 1];
      OfOneClass(rest, j, k);
      OfClassSnoc(rest, last, k);
      assert s == rest + [last];
    }
  }

  lemma ClassesOfByClass(s: seq<Endpoint>, k: nat)
    requires k <= 2
    ensures OfClass(ByClass(s), k) == OfClass(s, k)
  {
    var a, b, c := OfClass(s, 0), OfClass(s, 1), OfClass(s, 2);
    OfClassConcat(a + b, c, k);
    OfClassConcat(a, b, k);
    OfOneClass(a, 0, k);
    OfOneClass(b, 1, k);
    OfOneClass(c, 2, k);
  }

  lemma {:induction false} SortedIsByClass(t: seq<Endpoint>)
    requires SortedByClass(t)
    ensures t == ByClass(t)
  {
    if |t| > 0 {
      var rest, last := t[..|t| - 1], t[|t| - 1];
      SortedIsByClass(rest);
      LastInOrder(rest, last);
      assert t == rest + [last];
    }
  }

  lemma LastInOrder(s: seq<Endpoint>, e: Endpoint)
    requires s == ByClass(s) && forall i :: 0 <= i < |s| ==> Class(s[i]) <= Class(e)
    ensures s + [e] == ByClass(s + [e])
  {
    var a, b, c := OfClass(s, 0), OfClass(s, 1), OfClass(s, 2);
    assert Class(e) < 2 ==> c == [] by { if Class(e) < 2 { NothingAbove(s, 2); } }
    assert Class(e) < 1 ==> b == [] by { if Class(e) < 1 { NothingAbove(s, 1); } }
    ByClassSnoc(s, e);
    AppendToLastClass(a, b, c, e);
  }

  lemma AppendToLastClass(a: seq<Endpoint>, b: seq<Endpoint>, c: seq<Endpoint>, e: Endpoint)
    requires Class(e) < 2 ==> c == []
    requires Class(e) < 1 ==> b == []
    ensures a + b + c + [e] == (a + If(e, 0)) + (b + If(e, 1)) + (c + If(e, 2))
  {
  }

  /** The singleton of e when it is of class k. */
  function If(e: Endpoint, k: nat): seq<Endpoint> {
    if Class(e) == k then [e] else []
  }

  lemma ByClassSnoc(s: seq<Endpoint>, e: Endpoint)
    ensures ByClass(s + [e]) == (OfClass(s, 0) + If(e, 0)) + (OfClass(s, 1) + If(e, 1)) + (OfClass(s, 2) + If(e, 2))
  {
    OfClassSnoc(s, e, 0);
    OfClassSnoc(s, e, 1);
    OfClassSnoc(s, e, 2);
  }

  lemma {:induction false} NothingAbove(s: seq<Endpoint>, k: nat)
    requires forall i :: 0 <= i < |s| ==> Class(s[i]) < k
    ensures OfClass(s, k) == []
  {
    if |s| > 0 {
      NothingAbove(s[..|s| - 1], k);
    }
  }

  /** There is exactly one stable sort, and it is `ByClass`. */
  lemma StableSortIsUnique(s: seq<Endpoint>, t: seq<Endpoint>)
    ensures StableSortOf(s, t) <==> t == ByClass(s)
  {
    if StableSortOf(s, t) {
      SortedIsByClass(t);
    }
    forall k | 0 <= k <= 2 ensures OfClass(ByClass(s), k) == OfClass(s, k) {
      ClassesOfByClass(s, k);
    }
    ByClassIsSorted(s);
  }

  lemma ByClassIsSorted(s: seq<Endpoint>)
    ensures SortedByClass(ByClass(s))
  {
    var a, b, c := OfClass(s, 0), OfClass(s, 1), OfClass(s, 2);
    var t := ByClass(s);
    forall i | 0 <= i < |t| ensures Class(t[i]) == if i < |a| then 0 else if i < |a| + |b| then 1 else 2 {
      assert t[i] == if i < |a| then a[i] else if i < |a| + |b| then b[i - |a|] else c[i - |a| - |b|];
    }
  }

  lemma {:induction false} ByClassPermutes(s: seq<Endpoint>)
    ensures multiset(ByClass(s)) == multiset(s)
  {
    if |s| == 0 {
      assert ByClass(s) == [];
    } else {
      var rest, last := s[..|s| - 1], s[|s| - 1];
      ByClassPermutes(rest);
      assert s == rest + [last];
      PermutesStep(rest, last);
    }
  }

  lemma PermutesStep(s: seq<Endpoint>, e: Endpoint)
    requires multiset(ByClass(s)) == multiset(s)
    ensures multiset(ByClass(s + [e])) == multiset(s + [e])
  {
    ByClassSnoc(s, e);
    CountSnoc(OfClass(s, 0), OfClass(s, 1), OfClass(s, 2), e);
  }

  lemma CountSnoc(a: seq<Endpoint>, b: seq<Endpoint>, c: seq<Endpoint>, e: Endpoint)
    ensures multiset((a + If(e, 0)) + (b + If(e, 1)) + (c + If(e, 2))) == multiset(a + b + c) + multiset{e}
  {
  }

  // ---------------------------------------------------------------- what selection promises

  /** The first peer that cannot be used decides the error. */
  function FirstProblem(r: Resolver, peers: seq<Peer>): (p: Option<Problem>)
    ensures p.None? <==> forall i :: 0 <= i < |peers| ==> PeerOk(r, peers[i])
    ensures p != Some(NoEndpoint)
  {
    if |peers| == 0 then None
    else if r.decodeKey(peers[0].pubKey).None? then Some(BadKey)
    else if !PeerOk(r, peers[0]) then Some(BadAddress)
    else
      var p := FirstProblem(r, peers[1..]);
      assert forall i :: 1 <= i < |peers| ==> peers[i] == peers[1..][i - 1];
      p
  }

  /** The selection: first occurrences of all candidates, in stable class order. */
  function Select(r: Resolver, cfg: AppConfig, preferIpv6: bool, portOverride: nat): Selection {
    var peers := Peers(cfg);
    if FirstProblem(r, peers).Some? then Refused(FirstProblem(r, peers).value)
    else
      var firsts := FirstOccurrences(Candidates(r, peers, preferIpv6, portOverride));
      if firsts == [] then Refused(NoEndpoint) else Selected(ByClass(firsts))
  }

  /** The override if there is one; else the ports of the API that are not zero; else 443. */
  ghost predicate PortOffered(peer: Peer, portOverride: nat, port: nat) {
    if portOverride != 0 then port == portOverride
    else if exists q :: q in peer.ports && q != 0 then port in peer.ports && port != 0
    else port == 443
  }

  lemma {:induction false} NonZeroIs(ports: seq<nat>, port: nat)
    ensures port in NonZero(ports) <==> port in ports && port != 0
  {
    if |ports| > 0 {
      NonZeroIs(ports[..|ports| - 1], port);
      assert ports == ports[..|ports| - 1] + [ports[|ports| - 1]];
    }
  }

  lemma PortsAre(peer: Peer, portOverride: nat, port: nat)
    ensures port in Ports(peer, portOverride) <==> PortOffered(peer, portOverride, port)
  {
    NonZeroIs(peer.ports, port);
    if q :| q in peer.ports && q != 0 {
      NonZeroIs(peer.ports, q);
    }
    if NonZero(peer.ports) != [] {
      NonZeroIs(peer.ports, NonZero(peer.ports)[0]);
    }
  }

  /** The peer has this address, offers this port, and the endpoint carries the peer's host and key. */
  ghost predicate OffersAt(r: Resolver, peer: Peer, address: string, e: Endpoint, portOverride: nat) {
    && !r.blank(address) && r.parseIp(address) == Some(e.addr.ip) && PortOffered(peer, portOverride, e.addr.port)
    && e.host == peer.host && r.decodeKey(peer.pubKey) == Some(e.key)
  }

  ghost predicate Offers(r: Resolver, peer: Peer, e: Endpoint, portOverride: nat) {
    OffersAt(r, peer, peer.endpointV4, e, portOverride) || OffersAt(r, peer, peer.endpointV6, e, portOverride)
  }

  ghost predicate ComesFrom(r: Resolver, peers: seq<Peer>, e: Endpoint, portOverride: nat) {
    exists i :: 0 <= i < |peers| && Offers(r, peers[i], e, portOverride)
  }

  lemma AddressOffers(r: Resolver, peer: Peer, address: string, portOverride: nat, e: Endpoint)
    requires r.decodeKey(peer.pubKey).Some? && Usable(r, address)
    ensures e in FromAddress(r, peer, address, portOverride) <==> OffersAt(r, peer, address, e, portOverride)
  {
    PortsAre(peer, portOverride, e.addr.port);
    var ports := Ports(peer, portOverride);
    if OffersAt(r, peer, address, e, portOverride) {
      var i :| 0 <= i < |ports| && ports[i] == e.addr.port;
      assert FromAddress(r, peer, address, portOverride)[i] == e;
    }
  }

  lemma PeerOffers(r: Resolver, peer: Peer, preferIpv6: bool, portOverride: nat, e: Endpoint)
    requires PeerOk(r, peer)
    ensures e in FromPeer(r, peer, preferIpv6, portOverride) <==> Offers(r, peer, e, portOverride)
  {
    FromPeerIs(r, peer, preferIpv6, portOverride);
    AddressOffers(r, peer, peer.endpointV4, portOverride, e);
    AddressOffers(r, peer, peer.endpointV6, portOverride, e);
  }

  lemma ComesFromLast(r: Resolver, peers: seq<Peer>, e: Endpoint, portOverride: nat)
    requires peers != []
    ensures ComesFrom(r, peers, e, portOverride) <==>
              ComesFrom(r, peers[..|peers| - 1], e, portOverride) || Offers(r, peers[|peers| - 1], e, portOverride)
  {
    var n := |peers| - 1;
    if ComesFrom(r, peers, e, portOverride) {
      var i :| 0 <= i < |peers| && Offers(r, peers[i], e, portOverride);
      assert i < n ==> Offers(r, peers[..n][i], e, portOverride);
    }
    if ComesFrom(r, peers[..n], e, portOverride) {
      var i :| 0 <= i < n && Offers(r, peers[..n][i], e, portOverride);
      assert Offers(r, peers[i], e, portOverride);
    }
  }

  /** The candidates are exactly what the peers offer. */
  lemma {:induction false} CandidatesComeFromPeers(
    r: Resolver, peers: seq<Peer>, preferIpv6: bool, portOverride: nat, e: Endpoint)
    requires forall i :: 0 <= i < |peers| ==> PeerOk(r, peers[i])
    ensures e in Candidates(r, peers, preferIpv6, portOverride) <==> ComesFrom(r, peers, e, portOverride)
  {
    if |peers| > 0 {
      var n := |peers| - 1;
      CandidatesComeFromPeers(r, peers[..n], preferIpv6, portOverride, e);
      PeerOffers(r, peers[n], preferIpv6, portOverride, e);
      ComesFromLast(r, peers, e, portOverride);
    }
  }

  /** Port 443 first, port 1701 last. */
  ghost predicate PortsInOrder(s: seq<Endpoint>) {
    forall i, j :: 0 <= i < j < |s| ==>
      && (s[j].addr.port == 443 ==> s[i].addr.port == 443)
      && (s[i].addr.port == 1701 ==> s[j].addr.port == 1701)
  }

  /** No socket is listed twice with the same key. */
  ghost predicate NoDuplicates(s: seq<Endpoint>) {
    forall i, j :: 0 <= i < j < |s| ==> s[i].addr != s[j].addr || s[i].key != s[j].key
  }

  /** Every endpoint some peer offers is listed, under its socket and key, and nothing else is. */
  ghost predicate ListsWhatPeersOffer(r: Resolver, peers: seq<Peer>, portOverride: nat, s: seq<Endpoint>) {
    && (forall e :: e in s ==> ComesFrom(r, peers, e, portOverride))
    && (forall e :: ComesFrom(r, peers, e, portOverride) ==> Lists(s, e.addr, e.key))
  }

  ghost predicate Lists(s: seq<Endpoint>, addr: SocketAddr, key: seq<byte>) {
    exists d :: d in s && d.addr == addr && d.key == key
  }

  /**
   A selection is not empty, lists no endpoint twice, has every endpoint any peer offers and no other,
   each with the host and key of a peer that really offers it, and is ordered by port.
   */
  lemma SelectionIsSound(r: Resolver, cfg: AppConfig, preferIpv6: bool, portOverride: nat, s: seq<Endpoint>)
    requires Select(r, cfg, preferIpv6, portOverride) == Selected(s)
    ensures s != [] && SortedByClass(s) && PortsInOrder(s) && NoDuplicates(s)
    ensures ListsWhatPeersOffer(r, Peers(cfg), portOverride, s)
    ensures portOverride != 0 ==> forall e :: e in s ==> e.addr.port == portOverride
  {
    SelectionKeeps(r, cfg, preferIpv6, portOverride, s);
    ByPort(s);
    KeptIsOffered(r, Peers(cfg), preferIpv6, portOverride, s);
    if portOverride != 0 {
      OnlyTheOverride(r, Peers(cfg), portOverride, s);
    }
  }

  /** What dropping duplicates and ordering leave of the candidates. */
  lemma SelectionKeeps(r: Resolver, cfg: AppConfig, preferIpv6: bool, portOverride: nat, s: seq<Endpoint>)
    requires Select(r, cfg, preferIpv6, portOverride) == Selected(s)
    ensures forall i :: 0 <= i < |Peers(cfg)| ==> PeerOk(r, Peers(cfg)[i])
    ensures s != [] && SortedByClass(s) && DistinctIds(s)
    ensures Ids(s) == Ids(Candidates(r, Peers(cfg), preferIpv6, portOverride))
    ensures forall e :: e in s ==> e in Candidates(r, Peers(cfg), preferIpv6, portOverride)
  {
    var all := Candidates(r, Peers(cfg), preferIpv6, portOverride);
    FreshIsComplete(all, {});
    OrderingKeeps(FirstOccurrences(all));
  }

  lemma OnlyTheOverride(r: Resolver, peers: seq<Peer>, portOverride: nat, s: seq<Endpoint>)
    requires portOverride != 0 && forall e :: e in s ==> ComesFrom(r, peers, e, portOverride)
    ensures forall e :: e in s ==> e.addr.port == portOverride
  {
    forall e | e in s ensures e.addr.port == portOverride {
      var i :| 0 <= i < |peers| && Offers(r, peers[i], e, portOverride);
    }
  }

  lemma ByPort(s: seq<Endpoint>)
    requires SortedByClass(s) && DistinctIds(s)
    ensures PortsInOrder(s) && NoDuplicates(s)
  {
  }

  lemma KeptIsOffered(r: Resolver, peers: seq<Peer>, preferIpv6: bool, portOverride: nat, s: seq<Endpoint>)
    requires forall i :: 0 <= i < |peers| ==> PeerOk(r, peers[i])
    requires forall e :: e in s ==> e in Candidates(r, peers, preferIpv6, portOverride)
    requires Ids(s) == Ids(Candidates(r, peers, preferIpv6, portOverride))
    ensures ListsWhatPeersOffer(r, peers, portOverride, s)
  {
    forall e | e in s ensures ComesFrom(r, peers, e, portOverride) {
      CandidatesComeFromPeers(r, peers, preferIpv6, portOverride, e);
    }
    forall e | ComesFrom(r, peers, e, portOverride) ensures Lists(s, e.addr, e.key) {
      CandidatesComeFromPeers(r, peers, preferIpv6, portOverride, e);
      assert Id(e) in Ids(s);
      var d :| d in s && Id(d) == Id(e);
    }
  }

  /** Selection fails exactly if some peer cannot be used, or no peer has an address at all. */
  lemma SelectionFailsIff(r: Resolver, cfg: AppConfig, preferIpv6: bool, portOverride: nat)
    ensures var peers := Peers(cfg);
            var ok := forall i :: 0 <= i < |peers| ==> PeerOk(r, peers[i]);
            var empty := AllBlank(r, peers);
            && (Select(r, cfg, preferIpv6, portOverride).Selected? <==> ok && !empty)
            && (Select(r, cfg, preferIpv6, portOverride) == Refused(NoEndpoint) <==> ok && empty)
  {
    var peers := Peers(cfg);
    if FirstProblem(r, peers).None? {
      var all := Candidates(r, peers, preferIpv6, portOverride);
      NoneIfBlank(r, peers, preferIpv6, portOverride);
      FirstsOfSome(all);
      ByClassPermutes(FirstOccurrences(all));
    }
  }

  lemma FirstsOfSome(all: seq<Endpoint>)
    ensures FirstOccurrences(all) == [] <==> all == []
  {
    if all != [] {
      FreshIsComplete(all, {});
      assert Id(all[0]) in Ids(all) - {};
      assert Ids([]) == {};
    }
  }

  predicate AllBlank(r: Resolver, peers: seq<Peer>) {
    forall i :: 0 <= i < |peers| ==> r.blank(peers[i].endpointV4) && r.blank(peers[i].endpointV6)
  }

  lemma {:induction false} NoneIfBlank(r: Resolver, peers: seq<Peer>, preferIpv6: bool, portOverride: nat)
    requires forall i :: 0 <= i < |peers| ==> PeerOk(r, peers[i])
    ensures Candidates(r, peers, preferIpv6, portOverride) == [] <==> AllBlank(r, peers)
  {
    if |peers| > 0 {
      var n := |peers| - 1;
      NoneIfBlank(r, peers[..n], preferIpv6, portOverride);
      PeerNoneIfBlank(r, peers[n], preferIpv6, portOverride);
      AllBlankLast(r, peers);
    }
  }

  lemma AllBlankLast(r: Resolver, peers: seq<Peer>)
    requires peers != []
    ensures var n := |peers| - 1;
            AllBlank(r, peers) <==>
              AllBlank(r, peers[..n]) && r.blank(peers[n].endpointV4) && r.blank(peers[n].endpointV6)
  {
    var n := |peers| - 1;
    assert forall i :: 0 <= i < n ==> peers[..n][i] == peers[i];
  }

  lemma PeerNoneIfBlank(r: Resolver, peer: Peer, preferIpv6: bool, portOverride: nat)
    requires PeerOk(r, peer)
    ensures FromPeer(r, peer, preferIpv6, portOverride) == [] <==> r.blank(peer.endpointV4) && r.blank(peer.endpointV6)
  {
    FromPeerIs(r, peer, preferIpv6, portOverride);
  }

  lemma OrderingKeeps(s: seq<Endpoint>)
    requires DistinctIds(s)
    ensures SortedByClass(ByClass(s)) && DistinctIds(ByClass(s))
    ensures Ids(ByClass(s)) == Ids(s) && |ByClass(s)| == |s|
    ensures forall e :: e in ByClass(s) <==> e in s
  {
    ByClassPermutes(s);
    ByClassIsSorted(s);
    SameElements(ByClass(s), s);
    DistinctSurvives(s, ByClass(s));
    assert |multiset(s)| == |s| && |multiset(ByClass(s))| == |ByClass(s)|;
  }

  lemma SameElements(s: seq<Endpoint>, t: seq<Endpoint>)
    requires multiset(s) == multiset(t)
    ensures forall e :: e in s <==> e in t
    ensures Ids(s) == Ids(t)
  {
    assert forall e :: e in s <==> e in multiset(s);
    assert forall e :: e in t <==> e in multiset(t);
  }

  lemma {:induction false} DistinctCount(s: seq<Endpoint>, e: Endpoint)
    requires DistinctIds(s)
    ensures multiset(s)[e] <= 1
  {
    if |s| > 0 {
      var n := |s| - 1;
      assert s == s[..n] + [s[n]];
      DistinctCount(s[..n], e);
      assert forall i :: 0 <= i < n ==> Id(s[..n][i]) != Id(s[n]);
      assert s[n] !in s[..n];
    }
  }

  lemma CountTwice(t: seq<Endpoint>, i: nat, j: nat)
    requires i < j < |t| && t[i] == t[j]
    ensures multiset(t)[t[i]] >= 2
  {
    assert t == t[..i] + [t[i]] + t[i + 1..j] + [t[j]] + t[j + 1..];
  }

  lemma DistinctSurvives(s: seq<Endpoint>, t: seq<Endpoint>)
    requires DistinctIds(s) && multiset(s) == multiset(t)
    ensures DistinctIds(t)
  {
    SameElements(s, t);
    forall i, j | 0 <= i < j < |t| ensures Id(t[i]) != Id(t[j]) {
      if t[i] == t[j] {
        CountTwice(t, i, j);
        DistinctCount(s, t[i]);
      } else {
        assert t[i] in s && t[j] in s;
      }
    }
  }

  // ---------------------------------------------------------------- preferring IPv6

  /** Endpoints of one peer that share an identity are equal: host and key are the peer's. */
  ghost predicate Uniform(s: seq<Endpoint>) {
    forall d, e :: d in s && e in s && Id(d) == Id(e) ==> d == e
  }

  function FreshSet(s: seq<Endpoint>, seen: set<(SocketAddr, seq<byte>)>): set<Endpoint> {
    set e | e in s && Id(e) !in seen
  }

  lemma FreshSetSnoc(rest: seq<Endpoint>, last: Endpoint, seen: set<(SocketAddr, seq<byte>)>)
    requires Uniform(rest + [last])
    ensures if Id(last) in seen + Ids(rest) then FreshSet(rest + [last], seen) == FreshSet(rest, seen)
            else last !in FreshSet(rest, seen) && FreshSet(rest + [last], seen) == FreshSet(rest, seen) + {last}
  {
    var s := rest + [last];
    assert forall e :: e in s <==> e in rest || e == last;
    if Id(last) in Ids(rest) {
      var e :| e in rest && Id(e) == Id(last);
      assert e in s && last in s && e == last;
    }
  }

  lemma {:induction false} FreshMultiset(s: seq<Endpoint>, seen: set<(SocketAddr, seq<byte>)>)
    requires Uniform(s)
    ensures multiset(Fresh(s, seen)) == multiset(FreshSet(s, seen))
  {
    if |s| > 0 {
      var rest, last := s[..|s| - 1], s[|s| - 1];
      assert s == rest + [last];
      assert Uniform(rest) by { assert forall e :: e in rest ==> e in s; }
      FreshMultiset(rest, seen);
      Snoc(rest, last, seen);
      FreshSetSnoc(rest, last, seen);
    }
  }

  lemma PeerIsUniform(r: Resolver, peer: Peer, preferIpv6: bool, portOverride: nat)
    requires PeerOk(r, peer)
    ensures Uniform(FromPeer(r, peer, preferIpv6, portOverride))
  {
    var s := FromPeer(r, peer, preferIpv6, portOverride);
    FromPeerIs(r, peer, preferIpv6, portOverride);
    forall e | e in s ensures e.host == peer.host {
      assert e in FromAddress(r, peer, Families(peer, preferIpv6)[0], portOverride)
          || e in FromAddress(r, peer, Families(peer, preferIpv6)[1], portOverride);
    }
  }

  /** Two uniform lists with the same elements contribute the same endpoints. */
  lemma SameContribution(a: seq<Endpoint>, b: seq<Endpoint>, c: seq<Endpoint>, d: seq<Endpoint>)
    requires Ids(a) == Ids(b) && multiset(FirstOccurrences(a)) == multiset(FirstOccurrences(b))
    requires Uniform(c) && Uniform(d) && forall e :: e in c <==> e in d
    ensures Ids(a + c) == Ids(b + d)
    ensures multiset(FirstOccurrences(a + c)) == multiset(FirstOccurrences(b + d))
  {
    var seen := {} + Ids(a);
    FreshConcat(a, c, {});
    FreshConcat(b, d, {});
    IdsConcat(a, c);
    IdsConcat(b, d);
    assert Ids(c) == Ids(d);
    FreshMultiset(c, seen);
    FreshMultiset(d, seen);
    assert FreshSet(c, seen) == FreshSet(d, seen);
  }

  lemma {:induction false} PreferencePermutes(r: Resolver, peers: seq<Peer>, portOverride: nat)
    requires forall i :: 0 <= i < |peers| ==> PeerOk(r, peers[i])
    ensures var a, b := Candidates(r, peers, true, portOverride), Candidates(r, peers, false, portOverride);
            Ids(a) == Ids(b) && multiset(FirstOccurrences(a)) == multiset(FirstOccurrences(b))
  {
    if |peers| > 0 {
      var n := |peers| - 1;
      PreferencePermutes(r, peers[..n], portOverride);
      var c, d := FromPeer(r, peers[n], true, portOverride), FromPeer(r, peers[n], false, portOverride);
      FromPeerIs(r, peers[n], true, portOverride);
      FromPeerIs(r, peers[n], false, portOverride);
      PeerIsUniform(r, peers[n], true, portOverride);
      PeerIsUniform(r, peers[n], false, portOverride);
      SameContribution(Candidates(r, peers[..n], true, portOverride),
                       Candidates(r, peers[..n], false, portOverride), c, d);
    }
  }

  /**
   `prefer_ipv6` changes ordering only: selection succeeds or fails for the same reason, and the
   same endpoints, hosts and keys included, are listed.
   */
  lemma PreferenceOnlyReorders(r: Resolver, cfg: AppConfig, portOverride: nat)
    ensures var a, b := Select(r, cfg, true, portOverride), Select(r, cfg, false, portOverride);
            if a.Selected? then b.Selected? && multiset(a.endpoints) == multiset(b.endpoints) else b == a
  {
    var peers := Peers(cfg);
    if FirstProblem(r, peers).None? {
      PreferencePermutes(r, peers, portOverride);
      var a := FirstOccurrences(Candidates(r, peers, true, portOverride));
      var b := FirstOccurrences(Candidates(r, peers, false, portOverride));
      assert |multiset(a)| == |a| && |multiset(b)| == |b|;
      ByClassPermutes(a);
      ByClassPermutes(b);
    }
  }

  // ---------------------------------------------------------------- the preferred family

  /** A peer's candidates: first those at the preferred address, then those at the other. */
  lemma PeerPrefers(r: Resolver, peer: Peer, preferIpv6: bool, portOverride: nat)
    requires PeerOk(r, peer)
    ensures FromPeer(r, peer, preferIpv6, portOverride)
            == FromAddress(r, peer, if preferIpv6 then peer.endpointV6 else peer.endpointV4, portOverride)
               + FromAddress(r, peer, if preferIpv6 then peer.endpointV4 else peer.endpointV6, portOverride)
  {
    FromPeerIs(r, peer, preferIpv6, portOverride);
  }

  /** What a list of peers adds to its first n. */
  lemma {:induction false} CandidatesAfter(r: Resolver, peers: seq<Peer>, preferIpv6: bool, portOverride: nat, n: nat)
    returns (after: seq<Endpoint>)
    requires n <= |peers| && forall i :: 0 <= i < |peers| ==> PeerOk(r, peers[i])
    ensures Candidates(r, peers, preferIpv6, portOverride)
            == Candidates(r, peers[..n], preferIpv6, portOverride) + after
    decreases |peers| - n
  {
    if n == |peers| {
      after := [];
      assert peers[..n] == peers;
    } else {
      var rest := CandidatesAfter(r, peers, preferIpv6, portOverride, n + 1);
      after := JoinPeer(r, peers, preferIpv6, portOverride, n, rest);
    }
  }

  lemma JoinPeer(r: Resolver, peers: seq<Peer>, preferIpv6: bool, portOverride: nat, n: nat, rest: seq<Endpoint>)
    returns (after: seq<Endpoint>)
    requires n < |peers| && forall i :: 0 <= i < |peers| ==> PeerOk(r, peers[i])
    ensures Candidates(r, peers[..n + 1], preferIpv6, portOverride) + rest
            == Candidates(r, peers[..n], preferIpv6, portOverride) + after
  {
    var more := FromPeer(r, peers[n], preferIpv6, portOverride);
    CandidatesStep(r, peers, n, preferIpv6, portOverride);
    Associative(Candidates(r, peers[..n], preferIpv6, portOverride), more, rest);
    after := more + rest;
  }

  lemma FreshInParts(a: seq<Endpoint>, b: seq<Endpoint>, c: seq<Endpoint>, d: seq<Endpoint>)
    ensures FirstOccurrences(a + (b + c) + d)
            == Fresh(a, {}) + (Fresh(b, Ids(a)) + Fresh(c, Ids(a) + Ids(b))) + Fresh(d, Ids(a) + (Ids(b) + Ids(c)))
  {
    assert {} + Ids(a + (b + c)) == Ids(a) + (Ids(b) + Ids(c)) by {
      IdsConcat(a, b + c);
      IdsConcat(b, c);
    }
    assert {} + Ids(a) == Ids(a);
    FreshConcat(a + (b + c), d, {});
    FreshConcat(a, b + c, {});
    FreshConcat(b, c, Ids(a));
  }

  lemma OfClassInParts(a: seq<Endpoint>, b: seq<Endpoint>, c: seq<Endpoint>, d: seq<Endpoint>, k: nat)
    ensures OfClass(a + (b + c) + d, k) == OfClass(a, k) + (OfClass(b, k) + OfClass(c, k)) + OfClass(d, k)
  {
    OfClassConcat(a + (b + c), d, k);
    OfClassConcat(a, b + c, k);
    OfClassConcat(b, c, k);
  }

  lemma ClassInParts(a: seq<Endpoint>, b: seq<Endpoint>, c: seq<Endpoint>, d: seq<Endpoint>, k: nat)
    requires k <= 2
    ensures OfClass(ByClass(FirstOccurrences(a + (b + c) + d)), k)
            == OfClass(Fresh(a, {}), k) + (OfClass(Fresh(b, Ids(a)), k) + OfClass(Fresh(c, Ids(a) + Ids(b)), k))
               + OfClass(Fresh(d, Ids(a) + (Ids(b) + Ids(c))), k)
  {
    FreshInParts(a, b, c, d);
    OfClassInParts(Fresh(a, {}), Fresh(b, Ids(a)), Fresh(c, Ids(a) + Ids(b)), Fresh(d, Ids(a) + (Ids(b) + Ids(c))), k);
    ClassesOfByClass(FirstOccurrences(a + (b + c) + d), k);
  }

  /** The candidates before peer n, its own two parts, and those after it. */
  lemma CandidatesAround(r: Resolver, peers: seq<Peer>, preferIpv6: bool, portOverride: nat, n: nat)
    returns (a: seq<Endpoint>, b: seq<Endpoint>, c: seq<Endpoint>, d: seq<Endpoint>)
    requires n < |peers| && forall i :: 0 <= i < |peers| ==> PeerOk(r, peers[i])
    ensures Candidates(r, peers, preferIpv6, portOverride) == a + (b + c) + d
    ensures b == FromAddress(r, peers[n], if preferIpv6 then peers[n].endpointV6 else peers[n].endpointV4, portOverride)
    ensures c == FromAddress(r, peers[n], if preferIpv6 then peers[n].endpointV4 else peers[n].endpointV6, portOverride)
  {
    a := Candidates(r, peers[..n], preferIpv6, portOverride);
    b := FromAddress(r, peers[n], if preferIpv6 then peers[n].endpointV6 else peers[n].endpointV4, portOverride);
    c := FromAddress(r, peers[n], if preferIpv6 then peers[n].endpointV4 else peers[n].endpointV6, portOverride);
    d := CandidatesAfter(r, peers, preferIpv6, portOverride, n + 1);
    CandidatesStep(r, peers, n, preferIpv6, portOverride);
    PeerPrefers(r, peers[n], preferIpv6, portOverride);
  }

  /** Every endpoint the peer offers in class k is among these, if not itself then under its identity. */
  ghost predicate Covers(r: Resolver, peer: Peer, portOverride: nat, k: nat, ids: set<(SocketAddr, seq<byte>)>) {
    forall e :: Offers(r, peer, e, portOverride) && Class(e) == k ==> Id(e) in ids
  }

  /**
   Within one peer and port class the preferred family comes first: in the selection's class k, what
   peer n adds to the peers before it stands together, first its endpoints at the preferred address,
   then those at the other.
   */
  lemma PreferredFamilyFirst(r: Resolver, cfg: AppConfig, preferIpv6: bool, portOverride: nat, n: nat, k: nat)
    returns (before: seq<Endpoint>, preferred: seq<Endpoint>, other: seq<Endpoint>, after: seq<Endpoint>)
    requires n < |Peers(cfg)| && k <= 2 && Select(r, cfg, preferIpv6, portOverride).Selected?
    ensures OfClass(Select(r, cfg, preferIpv6, portOverride).endpoints, k) == before + (preferred + other) + after
    ensures var peer := Peers(cfg)[n];
            var first := if preferIpv6 then peer.endpointV6 else peer.endpointV4;
            var second := if preferIpv6 then peer.endpointV4 else peer.endpointV6;
            && (forall e :: e in preferred ==> OffersAt(r, peer, first, e, portOverride))
            && (forall e :: e in other ==> OffersAt(r, peer, second, e, portOverride))
            && Covers(r, peer, portOverride, k, Ids(before) + Ids(preferred) + Ids(other))
  {
    var peers, peer := Peers(cfg), Peers(cfg)[n];
    var a, b, c, d := CandidatesAround(r, peers, preferIpv6, portOverride, n);
    ClassInParts(a, b, c, d, k);
    before, after := OfClass(Fresh(a, {}), k), OfClass(Fresh(d, Ids(a) + (Ids(b) + Ids(c))), k);
    preferred, other := OfClass(Fresh(b, Ids(a)), k), OfClass(Fresh(c, Ids(a) + Ids(b)), k);
    var first := if preferIpv6 then peer.endpointV6 else peer.endpointV4;
    var second := if preferIpv6 then peer.endpointV4 else peer.endpointV6;
    PartOffers(r, peer, first, portOverride, Ids(a), k);
    PartOffers(r, peer, second, portOverride, Ids(a) + Ids(b), k);
    PartsCover(r, peer, first, second, portOverride, a, b, c, k);
  }

  lemma PartsCover(r: Resolver, peer: Peer, first: string, second: string, portOverride: nat,
                   a: seq<Endpoint>, b: seq<Endpoint>, c: seq<Endpoint>, k: nat)
    requires PeerOk(r, peer) && {first, second} == {peer.endpointV4, peer.endpointV6}
    requires b == FromAddress(r, peer, first, portOverride) && c == FromAddress(r, peer, second, portOverride)
    ensures Covers(r, peer, portOverride, k,
                   Ids(OfClass(Fresh(a, {}), k)) + Ids(OfClass(Fresh(b, Ids(a)), k))
                   + Ids(OfClass(Fresh(c, Ids(a) + Ids(b)), k)))
  {
    forall e | Offers(r, peer, e, portOverride) && Class(e) == k
      ensures Id(e) in Ids(OfClass(Fresh(a, {}), k)) + Ids(OfClass(Fresh(b, Ids(a)), k))
                       + Ids(OfClass(Fresh(c, Ids(a) + Ids(b)), k))
    {
      AddressOffers(r, peer, first, portOverride, e);
      AddressOffers(r, peer, second, portOverride, e);
      KeptSomewhere(a, b, c, e);
    }
  }

  lemma {:induction false} OfClassIs(s: seq<Endpoint>, k: nat, e: Endpoint)
    ensures e in OfClass(s, k) <==> e in s && Class(e) == k
  {
    if |s| > 0 {
      OfClassIs(s[..|s| - 1], k, e);
      assert s == s[..|s| - 1] + [s[|s| - 1]];
    }
  }

  lemma PartOffers(
    r: Resolver, peer: Peer, address: string, portOverride: nat, seen: set<(SocketAddr, seq<byte>)>, k: nat)
    requires r.decodeKey(peer.pubKey).Some? && Usable(r, address)
    ensures forall e :: e in OfClass(Fresh(FromAddress(r, peer, address, portOverride), seen), k) ==>
              OffersAt(r, peer, address, e, portOverride)
  {
    var s := FromAddress(r, peer, address, portOverride);
    FreshIsComplete(s, seen);
    forall e | e in OfClass(Fresh(s, seen), k) ensures OffersAt(r, peer, address, e, portOverride) {
      OfClassIs(Fresh(s, seen), k, e);
      AddressOffers(r, peer, address, portOverride, e);
    }
  }

  /** An identity met in one of the first three parts is kept in one of them, in its own class. */
  lemma KeptSomewhere(a: seq<Endpoint>, b: seq<Endpoint>, c: seq<Endpoint>, e: Endpoint)
    requires e in b || e in c
    ensures var k := Class(e);
            Id(e) in Ids(OfClass(Fresh(a, {}), k)) + Ids(OfClass(Fresh(b, Ids(a)), k))
                     + Ids(OfClass(Fresh(c, Ids(a) + Ids(b)), k))
  {
    FreshIsComplete(a, {});
    FreshIsComplete(b, Ids(a));
    FreshIsComplete(c, Ids(a) + Ids(b));
    assert Id(e) in Ids(b) + Ids(c);
    if Id(e) in Ids(a) {
      KeptInClass(Fresh(a, {}), e);
    } else if Id(e) in Ids(b) {
      KeptInClass(Fresh(b, Ids(a)), e);
    } else {
      KeptInClass(Fresh(c, Ids(a) + Ids(b)), e);
    }
  }

  lemma KeptInClass(s: seq<Endpoint>, e: Endpoint)
    requires Id(e) in Ids(s)
    ensures Id(e) in Ids(OfClass(s, Class(e)))
  {
    var d :| d in s && Id(d) == Id(e);
    OfClassIs(s, Class(e), d);
  }

  // ---------------------------------------------------------------- the code

  /** Where insertion puts e: behind everything of the same or an earlier class. */
  method Slot(t: seq<Endpoint>, e: Endpoint) returns (at: nat)
    requires SortedByClass(t)
    ensures at <= |t|
    ensures forall i :: 0 <= i < at ==> Class(t[i]) <= Class(e)
    ensures forall i :: at <= i < |t| ==> Class(t[i]) > Class(e)
  {
    at := |t|;
    while at > 0 && Class(t[at - 1]) > Class(e)
      invariant 0 <= at <= |t|
      invariant forall i :: at <= i < |t| ==> Class(t[i]) > Class(e)
    {
      at := at - 1;
    }
  }

  /** The stable `sort_by_key`, by insertion. */
  method SortByClass(s: seq<Endpoint>) returns (t: seq<Endpoint>)
    ensures t == ByClass(s)
  {
    t := [];
    for n := 0 to |s|
      invariant t == ByClass(s[..n])
    {
      ByClassIsSorted(s[..n]);
      var at := Slot(t, s[n]);
      InsertKeepsOrder(s[..n], t, at, s[n]);
      t := t[..at] + [s[n]] + t[at..];
      assert s[..n + 1] == s[..n] + [s[n]];
    }
    assert s[..|s|] == s;
  }

  lemma InsertKeepsOrder(s: seq<Endpoint>, t: seq<Endpoint>, at: nat, e: Endpoint)
    requires t == ByClass(s) && SortedByClass(t) && at <= |t|
    requires forall i :: 0 <= i < at ==> Class(t[i]) <= Class(e)
    requires forall i :: at <= i < |t| ==> Class(t[i]) > Class(e)
    ensures t[..at] + [e] + t[at..] == ByClass(s + [e])
  {
    var u := t[..at] + [e] + t[at..];
    forall k | 0 <= k <= 2 ensures OfClass(u, k) == OfClass(s + [e], k) {
      InsertedClass(s, t, at, e, k);
    }
    assert SortedByClass(u);
    StableSortIsUnique(s + [e], u);
  }

  lemma InsertedClass(s: seq<Endpoint>, t: seq<Endpoint>, at: nat, e: Endpoint, k: nat)
    requires t == ByClass(s) && at <= |t| && k <= 2
    requires forall i :: at <= i < |t| ==> Class(t[i]) > Class(e)
    ensures OfClass(t[..at] + [e] + t[at..], k) == OfClass(s + [e], k)
  {
    var head, tail := t[..at], t[at..];
    assert t == head + tail;
    assert OfClass(head, k) + OfClass(tail, k) == OfClass(s, k) by {
      OfClassConcat(head, tail, k);
      ClassesOfByClass(s, k);
    }
    assert OfClass(head + [e] + tail, k) == OfClass(head, k) + If(e, k) + OfClass(tail, k) by {
      OfClassConcat(head + [e], tail, k);
      OfClassSnoc(head, e, k);
    }
    OfClassSnoc(s, e, k);
    if k == Class(e) {
      NothingBelow(tail, k);
    }
  }

  lemma {:induction false} NothingBelow(s: seq<Endpoint>, k: nat)
    requires forall i :: 0 <= i < |s| ==> Class(s[i]) > k
    ensures OfClass(s, k) == []
  {
    if |s| > 0 {
      NothingBelow(s[..|s| - 1], k);
    }
  }

  /** The two variables the loops update: what was pushed and what was seen, for the candidates met. */
  ghost predicate Tracks(endpoints: seq<Endpoint>, seen: set<(SocketAddr, seq<byte>)>, met: seq<Endpoint>) {
    endpoints == FirstOccurrences(met) && seen == Ids(met)
  }

  /** `if seen.insert(..) { endpoints.push(..) }`. */
  method Push(e: Endpoint, endpoints0: seq<Endpoint>, seen0: set<(SocketAddr, seq<byte>)>, ghost met: seq<Endpoint>)
    returns (endpoints: seq<Endpoint>, seen: set<(SocketAddr, seq<byte>)>)
    requires Tracks(endpoints0, seen0, met)
    ensures Tracks(endpoints, seen, met + [e])
  {
    Snoc(met, e, {});
    endpoints := if Id(e) !in seen0 then endpoints0 + [e] else endpoints0;
    seen := seen0 + {Id(e)};
  }

  /** The innermost loop: each port of one address, unless that socket and key were seen before. */
  method AddAddress(r: Resolver, peer: Peer, key: seq<byte>, address: string, portOverride: nat,
                    endpoints0: seq<Endpoint>, seen0: set<(SocketAddr, seq<byte>)>, ghost met: seq<Endpoint>)
    returns (ok: bool, endpoints: seq<Endpoint>, seen: set<(SocketAddr, seq<byte>)>)
    requires r.decodeKey(peer.pubKey) == Some(key) && !r.blank(address)
    requires Tracks(endpoints0, seen0, met)
    ensures ok <==> r.parseIp(address).Some?
    ensures ok ==> Tracks(endpoints, seen, met + FromAddress(r, peer, address, portOverride))
  {
    endpoints, seen := endpoints0, seen0;
    var ports := Ports(peer, portOverride);
    var ip := r.parseIp(address);
    ghost var met' := met;
    assert met + [] == met;
    for n := 0 to |ports|
      invariant n > 0 ==> ip.Some?
      invariant Tracks(endpoints, seen, met')
      invariant if ip.None? then met' == met else met' == met + AtPorts(ip.value, peer.host, key, ports[..n])
    {
      if ip.None? {
        return false, endpoints, seen;
      }
      var e := Endpoint(SocketAddr(ip.value, ports[n]), peer.host, key);
      endpoints, seen := Push(e, endpoints, seen, met');
      PortsStep(met, ip.value, peer.host, key, ports, n);
      met' := met' + [e];
    }
    assert ports[..|ports|] == ports;
    ok := true;
  }

  lemma PortsStep(met: seq<Endpoint>, ip: Ip, host: string, key: seq<byte>, ports: seq<nat>, n: nat)
    requires n < |ports|
    ensures met + AtPorts(ip, host, key, ports[..n]) + [Endpoint(SocketAddr(ip, ports[n]), host, key)]
            == met + AtPorts(ip, host, key, ports[..n + 1])
  {
  }

  /** One family of one peer, skipped when blank. */
  method AddFamily(r: Resolver, peer: Peer, key: seq<byte>, address: string, portOverride: nat,
                   endpoints0: seq<Endpoint>, seen0: set<(SocketAddr, seq<byte>)>, ghost met: seq<Endpoint>)
    returns (ok: bool, endpoints: seq<Endpoint>, seen: set<(SocketAddr, seq<byte>)>)
    requires r.decodeKey(peer.pubKey) == Some(key)
    requires Tracks(endpoints0, seen0, met)
    ensures ok <==> Usable(r, address)
    ensures ok ==> Tracks(endpoints, seen, met + FromAddress(r, peer, address, portOverride))
  {
    if r.blank(address) {
      assert met + [] == met;
      return true, endpoints0, seen0;
    }
    ok, endpoints, seen := AddAddress(r, peer, key, address, portOverride, endpoints0, seen0, met);
  }

  lemma AddressesStep(r: Resolver, peer: Peer, addresses: seq<string>, n: nat, portOverride: nat, met: seq<Endpoint>)
    requires r.decodeKey(peer.pubKey).Some? && n < |addresses|
    requires forall i :: 0 <= i <= n ==> Usable(r, addresses[i])
    ensures met + FromAddresses(r, peer, addresses[..n], portOverride)
            + FromAddress(r, peer, addresses[n], portOverride)
            == met + FromAddresses(r, peer, addresses[..n + 1], portOverride)
  {
    assert addresses[..n + 1][..n] == addresses[..n];
    Associative(met, FromAddresses(r, peer, addresses[..n], portOverride),
                FromAddress(r, peer, addresses[n], portOverride));
  }

  /** The two inner loops: both families of one peer, blank addresses skipped. */
  method AddPeer(r: Resolver, peer: Peer, preferIpv6: bool, portOverride: nat,
                 endpoints0: seq<Endpoint>, seen0: set<(SocketAddr, seq<byte>)>, ghost met: seq<Endpoint>)
    returns (problem: Option<Problem>, endpoints: seq<Endpoint>, seen: set<(SocketAddr, seq<byte>)>)
    requires Tracks(endpoints0, seen0, met)
    ensures problem == if r.decodeKey(peer.pubKey).None? then Some(BadKey)
                       else if !PeerOk(r, peer) then Some(BadAddress) else None
    ensures problem.None? ==> Tracks(endpoints, seen, met + FromPeer(r, peer, preferIpv6, portOverride))
  {
    endpoints, seen := endpoints0, seen0;
    var key := r.decodeKey(peer.pubKey);
    if key.None? {
      return Some(BadKey), endpoints, seen;
    }
    var families := Families(peer, preferIpv6);
    assert met + [] == met;
    for n := 0 to |families|
      invariant forall i :: 0 <= i < n ==> Usable(r, families[i])
      invariant Tracks(endpoints, seen, met + FromAddresses(r, peer, families[..n], portOverride))
    {
      var ok;
      ok, endpoints, seen := AddFamily(r, peer, key.value, families[n], portOverride, endpoints, seen,
                                       met + FromAddresses(r, peer, families[..n], portOverride));
      if !ok {
        assert !Usable(r, families[n]);
        return Some(BadAddress), endpoints, seen;
      }
      AddressesStep(r, peer, families, n, portOverride, met);
    }
    assert families[..|families|] == families;
    assert Usable(r, families[0]) && Usable(r, families[1]);
    problem := None;
  }

  lemma CandidatesStep(r: Resolver, peers: seq<Peer>, n: nat, preferIpv6: bool, portOverride: nat)
    requires n < |peers| && forall i :: 0 <= i <= n ==> PeerOk(r, peers[i])
    ensures Candidates(r, peers[..n + 1], preferIpv6, portOverride)
            == Candidates(r, peers[..n], preferIpv6, portOverride) + FromPeer(r, peers[n], preferIpv6, portOverride)
  {
    assert peers[..n + 1][..n] == peers[..n];
  }

  /** The outer loop over the peers. */
  method Collect(r: Resolver, peers: seq<Peer>, preferIpv6: bool, portOverride: nat)
    returns (problem: Option<Problem>, endpoints: seq<Endpoint>)
    ensures problem == FirstProblem(r, peers)
    ensures problem.None? ==> endpoints == FirstOccurrences(Candidates(r, peers, preferIpv6, portOverride))
  {
    endpoints := [];
    var seen: set<(SocketAddr, seq<byte>)> := {};
    for n := 0 to |peers|
      invariant forall i :: 0 <= i < n ==> PeerOk(r, peers[i])
      invariant Tracks(endpoints, seen, Candidates(r, peers[..n], preferIpv6, portOverride))
    {
      problem, endpoints, seen := AddPeer(r, peers[n], preferIpv6, portOverride, endpoints, seen,
                                          Candidates(r, peers[..n], preferIpv6, portOverride));
      if problem.Some? {
        ProblemAt(r, peers, n);
        return;
      }
      CandidatesStep(r, peers, n, preferIpv6, portOverride);
    }
    assert peers[..|peers|] == peers;
    problem := None;
  }

  /** `select_endpoints_from_config`. */
  method SelectEndpoints(r: Resolver, cfg: AppConfig, preferIpv6: bool, portOverride: nat) returns (s: Selection)
    ensures s == Select(r, cfg, preferIpv6, portOverride)
  {
    var problem, endpoints := Collect(r, Peers(cfg), preferIpv6, portOverride);
    if problem.Some? {
      return Refused(problem.value);
    }
    if endpoints == [] {
      return Refused(NoEndpoint);
    }
    var sorted := SortByClass(endpoints);
    s := Selected(sorted);
  }

  lemma {:induction false} ProblemAt(r: Resolver, peers: seq<Peer>, n: nat)
    requires n < |peers| && !PeerOk(r, peers[n]) && forall i :: 0 <= i < n ==> PeerOk(r, peers[i])
    ensures FirstProblem(r, peers) == Some(if r.decodeKey(peers[n].pubKey).None? then BadKey else BadAddress)
  {
    if n > 0 {
      ProblemAt(r, peers[1..], n - 1);
    }
  }
}
