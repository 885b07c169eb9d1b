/** The TUN device's MTU and IPv6 address (`native_tun.rs`), with device calls that can fail. */
module NativeTun {
  import opened Arithmetic
  import opened Bytes

  const IPV6_MIN_MTU: nat := 1280
  const U16_MAX: nat := 0xffff

  /** The command-line options that matter here. */
  datatype Args = Args(mtu: nat, maxTunMtu: nat, noTunnelIpv6: bool, disablePmtud: bool, noIproute2: bool)

  /** The MTU checks the command line makes before anything is created. */
  predicate ArgsAccepted(a: Args) {
    && a.mtu <= a.maxTunMtu <= U16_MAX
    && (!a.noTunnelIpv6 ==> a.maxTunMtu >= IPV6_MIN_MTU)
    && (!a.noTunnelIpv6 && a.disablePmtud ==> a.mtu >= IPV6_MIN_MTU)
  }

  /** `ipv6_path_supported`. */
  predicate Ipv6PathSupported(mtu: nat) {
    mtu >= IPV6_MIN_MTU
  }

  /** `cap_tun_mtu`: the inner MTU a writable DATAGRAM length leaves, within the configured ceiling. */
  function CapTunMtu(writable: nat, contextLen: nat, maximum: nat): (r: Option<nat>)
    requires maximum <= U16_MAX
    ensures r.None? <==> writable < contextLen
    ensures r.Some? ==> r.value <= maximum && r.value + contextLen <= writable
    ensures r.Some? && r.value < maximum ==> r.value + contextLen == writable
  {
    if writable < contextLen then None
    else Some(Min(Min(writable - contextLen, maximum), U16_MAX))
  }

  /** What the host sees of the interface. */
  datatype Interface = Interface(mtu: nat, ipv6: bool)

  /** Section 5 of RFC 8200: no IPv6 on a link below 1280 bytes; and never above the ceiling. */
  predicate Safe(i: Interface, maximum: nat) {
    i.mtu <= maximum && (i.ipv6 ==> i.mtu >= 1280)
  }

  /** The interface has been safe all along, since its creation as `history[0]`. */
  ghost predicate AllSafe(history: seq<Interface>, maximum: nat) {
    forall i :: 0 <= i < |history| ==> Safe(history[i], maximum)
  }

  /** A call adds at most the interface it leaves behind. */
  ghost predicate Grew(before: seq<Interface>, after: seq<Interface>, now: Interface) {
    after == before || after == before + [now]
  }

  lemma GrewSafely(start: seq<Interface>, before: seq<Interface>, after: seq<Interface>, now: Interface, maximum: nat)
    requires start <= before && AllSafe(before, maximum) && Grew(before, after, now) && Safe(now, maximum)
    ensures start <= after && AllSafe(after, maximum)
  {
  }

  /** How many of the coming device calls fail. */
  function Faults(coming: seq<bool>): nat {
    if |coming| == 0 then 0 else (if coming[0] then 1 else 0) + Faults(coming[1..])
  }

  /**
   What a stretch of device calls that ends with the first failure used up: one fault if it failed,
   none if it went well.
   */
  ghost predicate Spent(before: seq<bool>, after: seq<bool>, ok: bool) {
    |after| <= |before| && Faults(before) == Faults(after) + (if ok then 0 else 1)
  }

  class TunRsDevice {
    const ipv6Address: Option<nat>
    const manageIpv6: bool
    /** The atomics the packet pump reads. */
    var mtu: nat
    var ipv6Enabled: bool
    /** The interface itself, changed only by device calls. */
    var link: Interface
    /** Whether each coming device call fails. */
    var faults: seq<bool>
    /** The interface after every device call so far, the first entry being its creation. */
    ghost var history: seq<Interface>

    /** The atomics agree with the interface, and only a managed address is ever on. */
    ghost predicate Synced()
      reads this
    {
      && link == Interface(mtu, ipv6Enabled)
      && history != [] && history[|history| - 1] == link
      && (ipv6Enabled ==> Managed())
    }

    /** ... and the interface has been safe after every device call. */
    ghost predicate Valid(maximum: nat)
      reads this
    {
      Synced() && AllSafe(history, maximum)
    }

    predicate Managed() {
      manageIpv6 && ipv6Address.Some?
    }

    /** `create`, from accepted options: addresses are only configured if wanted and not deferred. */
    constructor (a: Args, address: nat, faults: seq<bool>)
      requires ArgsAccepted(a)
      ensures Valid(a.maxTunMtu) && fresh(this)
      ensures mtu == a.mtu && this.faults == faults
      ensures ipv6Enabled <==> !a.noIproute2 && !a.noTunnelIpv6 && a.disablePmtud
      ensures manageIpv6 == !a.noIproute2 && ipv6Address.Some? == !a.noTunnelIpv6
    {
      var deferIpv6 := !a.noTunnelIpv6 && !a.disablePmtud;
      var address6 := if a.noTunnelIpv6 then None else Some(address);
      var enabled := !a.noIproute2 && address6.Some? && !deferIpv6;
      ipv6Address := address6;
      manageIpv6 := !a.noIproute2;
      mtu := a.mtu;
      ipv6Enabled := enabled;
      link := Interface(a.mtu, enabled);
      this.faults := faults;
      history := [Interface(a.mtu, enabled)];
    }

    /** The outcome of the next device call. */
    method NextCall() returns (ok: bool)
      modifies `faults
      ensures Spent(old(faults), faults, ok) && |faults| >= |old(faults)| - 1
    {
      ok := faults == [] || !faults[0];
      faults := if faults == [] then [] else faults[1..];
    }

    /** A device call either fails or changes the interface as asked. */
    method DeviceCall(change: Interface) returns (ok: bool)
      modifies `faults, `link, `history
      ensures link == (if ok then change else old(link))
      ensures history == (if ok then old(history) + [change] else old(history))
      ensures Spent(old(faults), faults, ok) && |faults| >= |old(faults)| - 1
    {
      ok := NextCall();
      if ok {
        link := change;
        history := history + [change];
      }
    }

    /** `set_mtu`: the cached value follows the device only if the call succeeds. */
    method SetMtu(newMtu: nat) returns (ok: bool)
      requires Synced()
      modifies `mtu, `faults, `link, `history
      ensures Synced() && mtu == (if ok then newMtu else old(mtu)) && ipv6Enabled == old(ipv6Enabled)
      ensures Grew(old(history), history, link)
      ensures Spent(old(faults), faults, ok) && |faults| >= |old(faults)| - 1
    {
      ok := DeviceCall(link.(mtu := newMtu));
      if ok {
        mtu := newMtu;
      }
    }

    /** `set_ipv6_enabled`: a no-op without a managed address or when nothing changes. */
    method SetIpv6Enabled(enabled: bool) returns (ok: bool)
      requires Synced()
      modifies `ipv6Enabled, `faults, `link, `history
      ensures Synced() && ipv6Enabled == (if ok then enabled && Managed() else old(ipv6Enabled)) && mtu == old(mtu)
      ensures Grew(old(history), history, link)
      ensures Spent(old(faults), faults, ok)
      ensures if Managed() && enabled != old(ipv6Enabled) then |faults| >= |old(faults)| - 1
              else ok && faults == old(faults)
    {
      if ipv6Address.None? || !manageIpv6 || ipv6Enabled == enabled {
        return true;
      }
      ok := DeviceCall(link.(ipv6 := enabled));
      if ok {
        ipv6Enabled := enabled;
      }
    }

    /** Whether IPv6 should be on for this MTU. */
    predicate Wants(newMtu: nat, allowIpv6: bool) {
      allowIpv6 && Ipv6PathSupported(newMtu) && Managed()
    }

    /**
     `apply_path_mtu`: address off before the MTU can drop, address on only after it has risen. The
     interface is safe after every device call, whichever of them fails. The call succeeds exactly if
     no device call fails, makes none without need, and leaves the interface as asked; a failure
     leaves the MTU alone or only the address still to be added.
     */
    method ApplyPathMtu(newMtu: nat, allowIpv6: bool, ghost maximum: nat) returns (ok: bool)
      requires Valid(maximum) && newMtu <= maximum
      modifies this
      ensures Valid(maximum) && old(history) <= history
      ensures ok ==> mtu == newMtu
      ensures ok ==> (ipv6Enabled <==> allowIpv6 && newMtu >= 1280 && manageIpv6 && ipv6Address.Some?)
      ensures !ok ==> (mtu == old(mtu) || (mtu == newMtu && Wants(newMtu, allowIpv6)))
                      && (ipv6Enabled != old(ipv6Enabled) ==> !ipv6Enabled && !Wants(newMtu, allowIpv6))
      ensures Spent(old(faults), faults, ok)
      ensures |faults| >= |old(faults)| - (if newMtu != old(mtu) then 1 else 0)
                                        - (if Wants(newMtu, allowIpv6) != old(ipv6Enabled) then 1 else 0)
      ensures newMtu == old(mtu) && Wants(newMtu, allowIpv6) == old(ipv6Enabled) ==> ok && faults == old(faults)
    {
      var enableIpv6 := allowIpv6 && Ipv6PathSupported(newMtu);
      if !enableIpv6 {
        ghost var before := history;
        ok := SetIpv6Enabled(false);
        GrewSafely(old(history), before, history, link, maximum);
        if !ok {
          return;
        }
      }
      assert Valid(maximum);
      assert ipv6Enabled == (old(ipv6Enabled) && enableIpv6);
      if mtu != newMtu {
        ghost var before := history;
        ok := SetMtu(newMtu);
        GrewSafely(old(history), before, history, link, maximum);
        if !ok {
          return;
        }
      }
      assert Valid(maximum);
      assert mtu == newMtu && ipv6Enabled == (old(ipv6Enabled) && enableIpv6);
      if enableIpv6 {
        ghost var before := history;
        ok := SetIpv6Enabled(true);
        GrewSafely(old(history), before, history, link, maximum);
        if !ok {
          return;
        }
      }
      ok := true;
    }
  }
}
