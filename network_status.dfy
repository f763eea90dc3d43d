/** The network status snapshot and how getNetworkStatus derives it. */
module NetworkStatusRules {
  import opened Platform
  import opened Ipv6Only

  /** NetworkStatus: recomputed as a whole on every evaluation. */
  datatype NetworkStatus = NetworkStatus(connected: bool, wifi: bool, ipv6Only: bool)

  const DISCONNECTED: NetworkStatus := NetworkStatus(false, false, false)

  /** An active network that reports itself connected. */
  predicate Connected(info: Option<NetworkInfo>) {
    info.Some? && info.value.isConnected
  }

  /** The status the platform snapshot determines, on a device of SDK level
      `sdk`: the per-network strategy from SDK 23 on, the all-interfaces one
      before. */
  function NetworkStatusOf(sdk: int, snap: Snapshot): (status: NetworkStatus) {
    if Connected(snap.activeInfo) then
      NetworkStatus(
        true,
        snap.activeInfo.value.netType == TYPE_WIFI,
        if sdk >= SDK_MARSHMALLOW then ActiveNetworkIpv6Only(snap.link)
        else AllNetworksIpv6Only(snap.interfaces))
    else
      DISCONNECTED
  }

  /** getNetworkStatus, calling the strategy loops. */
  method GetNetworkStatus(sdk: int, snap: Snapshot) returns (status: NetworkStatus)
    ensures status.connected == Connected(snap.activeInfo)
    ensures !status.connected ==> status == DISCONNECTED
    ensures status.connected ==> (status.wifi <==> snap.activeInfo.value.netType == TYPE_WIFI)
    ensures status.connected && sdk >= SDK_MARSHMALLOW ==>
              (status.ipv6Only <==> ActiveNetworkIpv6Only(snap.link))
    ensures status.connected && sdk < SDK_MARSHMALLOW ==>
              (status.ipv6Only <==> AllNetworksIpv6Only(snap.interfaces))
    ensures status == NetworkStatusOf(sdk, snap)
  {
    var net := snap.activeInfo;
    var connected := net.Some? && net.value.isConnected;
    var wifi, ipv6Only := false, false;
    if connected {
      wifi := net.value.netType == TYPE_WIFI;
      if sdk >= SDK_MARSHMALLOW {
        ipv6Only := IsActiveNetworkIpv6Only(snap.link);
      } else {
        ipv6Only := AreAllAvailableNetworksIpv6Only(snap.interfaces);
      }
    }
    status := NetworkStatus(connected, wifi, ipv6Only);
  }

  /** Without a connected active network the status is all false, whatever
      the address data says. */
  lemma DisconnectedIgnoresAddressData(sdk: int, s: Snapshot, t: Snapshot)
    requires !Connected(s.activeInfo) && !Connected(t.activeInfo)
    ensures NetworkStatusOf(sdk, s) == NetworkStatusOf(sdk, t) == DISCONNECTED
  {
  }

  /** From SDK 23 on, the interface list plays no part in the status. */
  lemma PerNetworkStrategyIgnoresInterfaces(sdk: int, snap: Snapshot, e: InterfaceEnumeration)
    requires sdk >= SDK_MARSHMALLOW
    ensures NetworkStatusOf(sdk, snap) == NetworkStatusOf(sdk, snap.(interfaces := e))
  {
  }

  /** Before SDK 23, the active network's link addresses play no part. */
  lemma AllInterfacesStrategyIgnoresLink(sdk: int, snap: Snapshot, l: LinkView)
    requires sdk < SDK_MARSHMALLOW
    ensures NetworkStatusOf(sdk, snap) == NetworkStatusOf(sdk, snap.(link := l))
  {
  }

  /** A connected network whose only address is one IPv6 unicast address is
      IPv6-only, and stays so with more IPv4-free addresses around it; one
      IPv4 address inserted at any position (between `left` and `right`,
      which together are those addresses) makes it not. */
  lemma SingleIpv6UnicastNetwork(sdk: int, info: NetworkInfo, e: InterfaceEnumeration,
                                 before: seq<Addr>, after: seq<Addr>, left: seq<Addr>, right: seq<Addr>)
    requires sdk >= SDK_MARSHMALLOW && info.isConnected
    requires V4 !in before + after
    requires left + right == before + [V6(false)] + after
    ensures NetworkStatusOf(sdk, Snapshot(Some(info), LinkAddresses([V6(false)]), e)).ipv6Only
    ensures NetworkStatusOf(sdk, Snapshot(Some(info), LinkAddresses(before + [V6(false)] + after), e)).ipv6Only
    ensures !NetworkStatusOf(sdk, Snapshot(Some(info), LinkAddresses(left + [V4] + right), e)).ipv6Only
  {
    Ipv6UnicastQualifies(before, after);
    Ipv4Disqualifies(left, right);
  }
}
