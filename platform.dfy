/** Plain values standing in for what the Android platform reports to the
    network manager: the active network, its link addresses, the list of
    local interfaces, and the names of the broadcast actions it listens to. */
module Platform {

  datatype Option<+T> = None | Some(value: T)

  /** An address as the IPv6-only rule sees it: an IPv4 address
      (java.net.Inet4Address) or an IPv6 address with its multicast flag. */
  datatype Addr = V4 | V6(multicast: bool)

  /** The outcome of NetworkInterface.isLoopback() or isUp(); both declare
      SocketException. */
  datatype FlagQuery = Flag(value: bool) | Throws

  /** One local network interface: its two flag queries and its addresses. */
  datatype Iface = Iface(loopback: FlagQuery, up: FlagQuery, addrs: seq<Addr>)

  /** NetworkInterface.getNetworkInterfaces(): it throws SocketException,
      returns null, or returns an enumeration of interfaces. */
  datatype InterfaceEnumeration =
    | EnumerationFails
    | NoEnumeration
    | Interfaces(ifaces: seq<Iface>)

  /** ConnectivityManager.getActiveNetwork() followed by getLinkProperties():
      no active network, no link properties for it, or its link addresses. */
  datatype LinkView =
    | NoActiveNetwork
    | NoLinkProperties
    | LinkAddresses(addrs: seq<Addr>)

  /** ConnectivityManager.getActiveNetworkInfo(), when it is not null. */
  datatype NetworkInfo = NetworkInfo(isConnected: bool, netType: int)

  /** Everything one evaluation of the network status asks the platform. */
  datatype Snapshot = Snapshot(
    activeInfo: Option<NetworkInfo>,
    link: LinkView,
    interfaces: InterfaceEnumeration)

  /** android.net.ConnectivityManager.TYPE_WIFI */
  const TYPE_WIFI: int := 1

  /** The first SDK level with per-network link properties and doze mode. */
  const SDK_MARSHMALLOW: int := 23

  const CONNECTIVITY_ACTION: string := "android.net.conn.CONNECTIVITY_CHANGE"
  const ACTION_SCREEN_ON: string := "android.intent.action.SCREEN_ON"
  const ACTION_SCREEN_OFF: string := "android.intent.action.SCREEN_OFF"
  const WIFI_AP_STATE_CHANGED_ACTION: string := "android.net.wifi.WIFI_AP_STATE_CHANGED"
  const WIFI_P2P_THIS_DEVICE_CHANGED_ACTION: string := "android.net.wifi.p2p.THIS_DEVICE_CHANGED"
  const ACTION_DEVICE_IDLE_MODE_CHANGED: string := "android.os.action.DEVICE_IDLE_MODE_CHANGED"
}
