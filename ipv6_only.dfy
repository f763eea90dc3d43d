/** The IPv6-only rule and the two strategies that apply it: one to the
    active network's link addresses, one to every usable local interface. */
module Ipv6Only {
  import opened Platform

  /** The rule: no IPv4 address at all, and at least one IPv6 unicast one. */
  predicate Ipv6OnlyAddresses(addrs: seq<Addr>) {
    V4 !in addrs && V6(false) in addrs
  }

  /** Per-network strategy: false without an active network or without its
      link properties, otherwise the rule on its link addresses. */
  predicate ActiveNetworkIpv6Only(link: LinkView) {
    link.LinkAddresses? && Ipv6OnlyAddresses(link.addrs)
  }

  /** An interface whose flags say it is neither loopback nor down. */
  predicate Considered(i: Iface) {
    i.loopback == Flag(false) && i.up == Flag(true)
  }

  /** An interface whose flag query throws before its addresses are read
      (isUp() is asked only when isLoopback() answered false). */
  predicate Unreadable(i: Iface) {
    i.loopback == Throws || (i.loopback == Flag(false) && i.up == Throws)
  }

  /** The rule over all interfaces: no flag query throws, no considered
      interface has an IPv4 address, and some considered interface has an
      IPv6 unicast address. */
  predicate InterfacesIpv6Only(ifaces: seq<Iface>) {
    (forall i :: i in ifaces ==> !Unreadable(i)) &&
    (forall i :: i in ifaces && Considered(i) ==> V4 !in i.addrs) &&
    (exists i :: i in ifaces && Considered(i) && V6(false) in i.addrs)
  }

  /** All-interfaces strategy: false when the enumeration fails or is null. */
  predicate AllNetworksIpv6Only(e: InterfaceEnumeration) {
    e.Interfaces? && InterfacesIpv6Only(e.ifaces)
  }

  /** The addresses of the considered interfaces, in enumeration order. */
  function ConsideredAddresses(ifaces: seq<Iface>): (r: seq<Addr>)
    ensures forall a :: a in r <==> exists i :: i in ifaces && Considered(i) && a in i.addrs
  {
    if ifaces == [] then []
    else
      var rest := ConsideredAddresses(ifaces[1..]);
      assert forall i :: i in ifaces <==> i == ifaces[0] || i in ifaces[1..];
      (if Considered(ifaces[0]) then ifaces[0].addrs else []) + rest
  }

  /** The per-network loop: an early `return false` on the first IPv4
      address, otherwise whether some address was not multicast. */
  method IsActiveNetworkIpv6Only(link: LinkView) returns (r: bool)
    ensures r == ActiveNetworkIpv6Only(link)
  {
    if link.NoActiveNetwork? {
      return false;
    }
    if link.NoLinkProperties? {
      return false;
    }
    var addrs := link.addrs;
    var hasIpv6Unicast := false;
    for k := 0 to |addrs|
      invariant V4 !in addrs[..k]
      invariant hasIpv6Unicast == (V6(false) in addrs[..k])
    {
      assert addrs[..k + 1] == addrs[..k] + [addrs[k]];
      if addrs[k].V4? {
        assert V4 in addrs;
        return false;
      }
      if !addrs[k].multicast {
        hasIpv6Unicast := true;
      }
    }
    assert addrs[..|addrs|] == addrs;
    return hasIpv6Unicast;
  }

  /** The all-interfaces loop: skips loopback and down interfaces, returns
      false on the first IPv4 address of a remaining one, and turns every
      SocketException (from the enumeration or a flag query) into false. */
  method AreAllAvailableNetworksIpv6Only(e: InterfaceEnumeration) returns (r: bool)
    ensures r == AllNetworksIpv6Only(e)
  {
    if e.EnumerationFails? {
      return false;
    }
    if e.NoEnumeration? {
      return false;
    }
    var ifaces := e.ifaces;
    var hasIpv6Unicast := false;
    for k := 0 to |ifaces|
      invariant forall i :: i in ifaces[..k] ==> !Unreadable(i)
      invariant forall i :: i in ifaces[..k] && Considered(i) ==> V4 !in i.addrs
      invariant hasIpv6Unicast == exists i :: i in ifaces[..k] && Considered(i) && V6(false) in i.addrs
    {
      var iface := ifaces[k];
      assert ifaces[..k + 1] == ifaces[..k] + [iface];
      assert iface in ifaces;
      // i.isLoopback() || !i.isUp(), either of which may throw
      if iface.loopback.Throws? {
        return false;
      }
      if !iface.loopback.value {
        if iface.up.Throws? {
          return false;
        }
      }
      if iface.loopback.value || !iface.up.value {
        continue;
      }
      assert Considered(iface);
      var addrs := iface.addrs;
      var found := hasIpv6Unicast;
      for j := 0 to |addrs|
        invariant V4 !in addrs[..j]
        invariant found == (hasIpv6Unicast || V6(false) in addrs[..j])
      {
        assert addrs[..j + 1] == addrs[..j] + [addrs[j]];
        if addrs[j].V4? {
          assert V4 in iface.addrs;
          return false;
        }
        if !addrs[j].multicast {
          found := true;
        }
      }
      assert addrs[..|addrs|] == addrs;
      hasIpv6Unicast := found;
    }
    assert ifaces[..|ifaces|] == ifaces;
    return hasIpv6Unicast;
  }

  /** The result of the rule does not depend on the order of the addresses. */
  lemma AddressOrderIrrelevant(a: seq<Addr>, b: seq<Addr>)
    requires multiset(a) == multiset(b)
    ensures Ipv6OnlyAddresses(a) == Ipv6OnlyAddresses(b)
  {
    assert V4 in a <==> V4 in multiset(a);
    assert V4 in b <==> V4 in multiset(b);
    assert V6(false) in a <==> V6(false) in multiset(a);
    assert V6(false) in b <==> V6(false) in multiset(b);
  }

  /** The per-network strategy does not depend on the order of addresses. */
  lemma LinkAddressOrderIrrelevant(a: seq<Addr>, b: seq<Addr>)
    requires multiset(a) == multiset(b)
    ensures ActiveNetworkIpv6Only(LinkAddresses(a)) == ActiveNetworkIpv6Only(LinkAddresses(b))
  {
    AddressOrderIrrelevant(a, b);
  }

  /** One IPv4 address, wherever it stands, makes the rule false. */
  lemma Ipv4Disqualifies(a: seq<Addr>, b: seq<Addr>)
    ensures !Ipv6OnlyAddresses(a + [V4] + b)
  {
    assert (a + [V4] + b)[|a|] == V4;
  }

  /** Adding an IPv6 unicast address to addresses without IPv4 makes the
      rule true. */
  lemma Ipv6UnicastQualifies(a: seq<Addr>, b: seq<Addr>)
    requires V4 !in a + b
    ensures Ipv6OnlyAddresses(a + [V6(false)] + b)
  {
    assert (a + [V6(false)] + b)[|a|] == V6(false);
    assert forall x :: x in a + [V6(false)] + b ==> x in a + b || x == V6(false);
  }

  /** A list with no unicast address is never IPv6-only. */
  lemma MulticastOnlyIsNotIpv6Only(a: seq<Addr>)
    requires forall k :: 0 <= k < |a| ==> a[k] == V6(true)
    ensures !Ipv6OnlyAddresses(a)
  {
  }

  /** The order in which interfaces are enumerated does not matter. */
  lemma InterfaceOrderIrrelevant(a: seq<Iface>, b: seq<Iface>)
    requires multiset(a) == multiset(b)
    ensures InterfacesIpv6Only(a) == InterfacesIpv6Only(b)
  {
    forall i
      ensures i in a <==> i in b
    {
      assert i in a <==> i in multiset(a);
      assert i in b <==> i in multiset(b);
    }
  }

  /** Loopback and down interfaces are ignored entirely, whatever their
      addresses. */
  lemma SkippedInterfaceIgnored(a: seq<Iface>, i: Iface, b: seq<Iface>)
    requires !Considered(i) && !Unreadable(i)
    ensures InterfacesIpv6Only(a + [i] + b) == InterfacesIpv6Only(a + b)
  {
    assert forall x :: x in a + [i] + b <==> x in a + b || x == i;
  }

  /** An interface whose flag query throws makes the strategy false. */
  lemma UnreadableInterfaceDisqualifies(a: seq<Iface>, i: Iface, b: seq<Iface>)
    requires Unreadable(i)
    ensures !InterfacesIpv6Only(a + [i] + b)
  {
    assert (a + [i] + b)[|a|] == i;
  }

  /** When every flag query answers, the all-interfaces strategy is the
      rule applied to the addresses of the considered interfaces together. */
  lemma InterfacesApplyTheRule(ifaces: seq<Iface>)
    requires forall i :: i in ifaces ==> !Unreadable(i)
    ensures InterfacesIpv6Only(ifaces) == Ipv6OnlyAddresses(ConsideredAddresses(ifaces))
  {
    var r := ConsideredAddresses(ifaces);
    assert V4 in r <==> exists i :: i in ifaces && Considered(i) && V4 in i.addrs;
    assert V6(false) in r <==> exists i :: i in ifaces && Considered(i) && V6(false) in i.addrs;
  }

  /** With a single usable interface the two strategies agree. */
  lemma StrategiesAgreeOnOneInterface(addrs: seq<Addr>)
    ensures AllNetworksIpv6Only(Interfaces([Iface(Flag(false), Flag(true), addrs)]))
         == ActiveNetworkIpv6Only(LinkAddresses(addrs))
  {
    var i := Iface(Flag(false), Flag(true), addrs);
    assert i in [i];
  }
}
