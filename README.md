# Android network manager of Briar Mailbox, modelled in Dafny

This project models `AndroidNetworkManager`, the mailbox's Android service
that works out the device's network status and publishes it as events. It has
three parts:

1. **Network status.** `getNetworkStatus` turns what the platform reports into
   a `NetworkStatus {connected, wifi, ipv6Only}`. If there is no connected
   active network, the status is all false. Otherwise `wifi` says whether the
   network type is `TYPE_WIFI`, and `ipv6Only` comes from one of two
   strategies. From SDK 23 on, the per-network strategy applies the rule to
   the active network's link addresses. Before SDK 23, the all-interfaces
   strategy applies it to every interface that is neither loopback nor down.
   The rule is the same in both: any IPv4 address disqualifies, and at least
   one non-multicast IPv6 address is needed. Both strategies are early-exit
   loops. They are modelled as methods and proved equal to declarative
   predicates. The predicates are proved independent of address order and of
   interface order.
2. **Signals and debounce.** Every action the receiver gets causes one status
   broadcast at once. Screen on/off, and device-idle changes from SDK 23 on,
   also arm a recheck after 1 minute. Access-point and P2P this-device
   changes arm one after 5 seconds. Arming a recheck swaps the new handle into
   the single `connectivityCheck` slot and cancels the handle it replaces.
   The class invariant is that only the slot's handle can still be pending.
   Every operation of the service (`StartService`, `StopService`,
   `OnReceive`, `ScheduleConnectionStatusUpdate`, `RunScheduledCheck`) keeps
   that invariant. So across any sequence of calls to them, at most one
   recheck is live. `Schedule` and `Cancel` stand for the scheduler's own
   `schedule` and `cancel`. They are steps inside
   `ScheduleConnectionStatusUpdate` and do not keep the invariant on their
   own.
3. **Lifecycle.** The `used` flag lets `startService` succeed once. Later calls
   throw `IllegalStateException` before they register anything. `stopService`
   unregisters the receiver exactly when one was created.

Modules:
- `Platform` (platform.dfy) holds the inputs that replace the Android calls.
  These are the active `NetworkInfo`, the `LinkView` (no active network, no
  link properties, or the link addresses) and the `InterfaceEnumeration`
  (throws, null, or a list of interfaces). It also holds the Android
  constants.
- `Ipv6Only` (ipv6_only.dfy) has the rule, both strategy loops and their
  lemmas.
- `NetworkStatusRules` (network_status.dfy) has `getNetworkStatus`.
- `Signals` (signals.dfy) has the action classification, the recheck delays
  and the intent filter.
- `NetworkManager` (manager.dfy) has the service as a class. Its fields are
  `used`, the receiver, the slot, the scheduler's handle table, the log of
  calls made to the Application, and the log of broadcasts.

Inputs instead of I/O:
- Each status evaluation takes a `Snapshot` of what the platform reports at
  that moment.
- `SDK_INT` is a constant field of the manager.
- `isLoopback()` and `isUp()` may throw `SocketException`, which the
  all-interfaces strategy catches and turns into `false`. Each is modelled as
  a `FlagQuery` that either answers or throws. `isUp()` is asked only when
  `isLoopback()` answered false, as the `||` in the source does.
- The constant values are the ones the Android SDK defines. These are
  `TYPE_WIFI = 1` and the action strings. `AndroidNetworkManager.java` defines only
  `WIFI_AP_STATE_CHANGED_ACTION` itself.

Three things the code does that a reader might not expect, and that the
model keeps:
- `startService` registers the receiver but does not compute or broadcast a
  status itself. On Android, the sticky connectivity broadcast usually
  triggers the first one.
- `stopService` does not clear the receiver field. A second call therefore
  issues a second `unregisterReceiver`. Android documents that this call
  throws `IllegalArgumentException` for a receiver that is no longer
  registered, so repeating `stopService` is not harmless on a device. The
  model only records the call.
- `stopService` does not cancel an armed recheck.

## Model

| member | source | states |
|---|---|---|
| `Ipv6Only.IsActiveNetworkIpv6Only` | mailbox-android/src/main/java/org/briarproject/mailbox/core/tor/AndroidNetworkManager.java:147-165 | The early-exit loop returns false when there is no active network or no link properties. Otherwise it returns true exactly when no link address is IPv4 and some address is IPv6 unicast. |
| `Ipv6Only.AreAllAvailableNetworksIpv6Only` | mailbox-android/src/main/java/org/briarproject/mailbox/core/tor/AndroidNetworkManager.java:174-194 | The nested early-exit loop returns false on enumeration failure, on a null enumeration, and whenever a flag query throws. Otherwise it returns true exactly when no considered interface has an IPv4 address and one has an IPv6 unicast address. |
| `Ipv6Only.ConsideredAddresses` | mailbox-android/src/main/java/org/briarproject/mailbox/core/tor/AndroidNetworkManager.java:182-184 | The addresses it gathers are exactly those of the interfaces that are neither loopback nor down. |
| `Ipv6Only.InterfacesApplyTheRule` | mailbox-android/src/main/java/org/briarproject/mailbox/core/tor/AndroidNetworkManager.java:181-189 | When every flag query answers, the all-interfaces strategy equals the per-network rule applied to all considered addresses together. |
| `Ipv6Only.AddressOrderIrrelevant` | mailbox-android/src/main/java/org/briarproject/mailbox/core/tor/AndroidNetworkManager.java:158-164 | Any permutation of the addresses gives the same rule result. |
| `Ipv6Only.LinkAddressOrderIrrelevant` | mailbox-android/src/main/java/org/briarproject/mailbox/core/tor/AndroidNetworkManager.java:153-164 | Any permutation of the link addresses gives the same per-network result. |
| `Ipv6Only.Ipv4Disqualifies` | mailbox-android/src/main/java/org/briarproject/mailbox/core/tor/AndroidNetworkManager.java:161 | One IPv4 address anywhere in the list makes the rule false. |
| `Ipv6Only.Ipv6UnicastQualifies` | mailbox-android/src/main/java/org/briarproject/mailbox/core/tor/AndroidNetworkManager.java:162-164 | Inserting an IPv6 unicast address anywhere into an IPv4-free list makes the rule true. |
| `Ipv6Only.MulticastOnlyIsNotIpv6Only` | mailbox-android/src/main/java/org/briarproject/mailbox/core/tor/AndroidNetworkManager.java:158-164 | A list of IPv6 multicast addresses only never satisfies the rule. |
| `Ipv6Only.InterfaceOrderIrrelevant` | mailbox-android/src/main/java/org/briarproject/mailbox/core/tor/AndroidNetworkManager.java:182-189 | Any permutation of the interfaces gives the same all-interfaces result. |
| `Ipv6Only.SkippedInterfaceIgnored` | mailbox-android/src/main/java/org/briarproject/mailbox/core/tor/AndroidNetworkManager.java:183 | Inserting a loopback or down interface, whatever its addresses, does not change the result. |
| `Ipv6Only.UnreadableInterfaceDisqualifies` | mailbox-android/src/main/java/org/briarproject/mailbox/core/tor/AndroidNetworkManager.java:183-192 | An interface whose isLoopback or isUp throws makes the result false. The exception is caught and does not propagate. |
| `Ipv6Only.StrategiesAgreeOnOneInterface` | mailbox-android/src/main/java/org/briarproject/mailbox/core/tor/AndroidNetworkManager.java:158-189 | A single up, non-loopback interface gives the same answer under both strategies as its addresses do as link addresses. |
| `NetworkStatusRules.GetNetworkStatus` | mailbox-android/src/main/java/org/briarproject/mailbox/core/tor/AndroidNetworkManager.java:123-138 | `connected` holds iff the active network info exists and reports connected. When not connected, the status is all false. When connected, `wifi` holds iff the type is `TYPE_WIFI`. `ipv6Only` follows the per-network strategy iff SDK >= 23, and the all-interfaces strategy otherwise. |
| `NetworkStatusRules.DisconnectedIgnoresAddressData` | mailbox-android/src/main/java/org/briarproject/mailbox/core/tor/AndroidNetworkManager.java:130-137 | Any two disconnected snapshots give the same all-false status, whatever their address data. |
| `NetworkStatusRules.PerNetworkStrategyIgnoresInterfaces` | mailbox-android/src/main/java/org/briarproject/mailbox/core/tor/AndroidNetworkManager.java:134 | From SDK 23 on, changing the interface list never changes the status. |
| `NetworkStatusRules.AllInterfacesStrategyIgnoresLink` | mailbox-android/src/main/java/org/briarproject/mailbox/core/tor/AndroidNetworkManager.java:135 | Before SDK 23, changing the active network's link view never changes the status. |
| `NetworkStatusRules.SingleIpv6UnicastNetwork` | mailbox-android/src/main/java/org/briarproject/mailbox/core/tor/AndroidNetworkManager.java:132-164 | On SDK >= 23, a connected network with one IPv6 unicast address is IPv6-only. It stays so with more IPv4-free addresses around it. One IPv4 address inserted at any position makes it not IPv6-only. |
| `Signals.ClassesAreDisjoint` | mailbox-android/src/main/java/org/briarproject/mailbox/core/tor/AndroidNetworkManager.java:226-237 | No action is both a sleep/doze event and an access-point event. |
| `Signals.RecheckDelayByAction` | mailbox-android/src/main/java/org/briarproject/mailbox/core/tor/AndroidNetworkManager.java:216-237 | Screen on/off arm 1 minute. Device idle arms 1 minute iff SDK >= 23, and nothing otherwise. AP and P2P changes arm 5 seconds. Connectivity changes and a null action arm nothing. Any action that arms something is in the intent filter and is not the connectivity action. |
| `Signals.FilterMatchesClassification` | mailbox-android/src/main/java/org/briarproject/mailbox/core/tor/AndroidNetworkManager.java:106-112 | An action is registered iff it is the connectivity action or one that arms a recheck on this SDK level. |
| `NetworkManager.SupersedeCancelsOnlyPrevious` | mailbox-android/src/main/java/org/briarproject/mailbox/core/tor/AndroidNetworkManager.java:204-206 | Cancelling the previous slot occupant keeps the same handles. It leaves that handle not pending with its delay unchanged, leaves an already-run or cancelled handle as it was, and changes no other handle. |
| `NetworkManager.SwapKeepsOneLive` | mailbox-android/src/main/java/org/briarproject/mailbox/core/tor/AndroidNetworkManager.java:200-207 | After the swap-and-cancel, the newly scheduled handle is the only pending one, and every older handle is not pending. |
| `NetworkManager.AndroidNetworkManager.LiveChecks` | mailbox-android/src/main/java/org/briarproject/mailbox/core/tor/AndroidNetworkManager.java:84-85 | Under the class invariant, at most one scheduled recheck is neither cancelled nor run, and if there is one it is the slot's. |
| `NetworkManager.AndroidNetworkManager.constructor` | mailbox-android/src/main/java/org/briarproject/mailbox/core/tor/AndroidNetworkManager.java:84-99 | A new manager has not been used, has no receiver, an empty slot, no scheduled checks and no broadcasts. |
| `NetworkManager.AndroidNetworkManager.StartService` | mailbox-android/src/main/java/org/briarproject/mailbox/core/tor/AndroidNetworkManager.java:102-114 | The first call returns normally, sets `used`, creates the receiver and registers it for the filtered actions. Every later call throws `IllegalStateException` and registers nothing. |
| `NetworkManager.AndroidNetworkManager.StopService` | mailbox-android/src/main/java/org/briarproject/mailbox/core/tor/AndroidNetworkManager.java:117-120 | It issues one unregister call iff a receiver was created, and nothing else changes. |
| `NetworkManager.AndroidNetworkManager.UpdateConnectionStatus` | mailbox-android/src/main/java/org/briarproject/mailbox/core/tor/AndroidNetworkManager.java:196-198 | It appends exactly one status, the one the snapshot determines, to the broadcast log. |
| `NetworkManager.AndroidNetworkManager.Schedule` | mailbox-android/src/main/java/org/briarproject/mailbox/core/tor/AndroidNetworkManager.java:201-203 | The scheduler hands out a handle it has never given before, pending with the requested delay. |
| `NetworkManager.AndroidNetworkManager.Cancel` | mailbox-android/src/main/java/org/briarproject/mailbox/core/tor/AndroidNetworkManager.java:206 | Cancelling changes only that handle: pending becomes cancelled, and anything else stays as it was. |
| `NetworkManager.AndroidNetworkManager.ScheduleConnectionStatusUpdate` | mailbox-android/src/main/java/org/briarproject/mailbox/core/tor/AndroidNetworkManager.java:200-207 | The slot holds the new handle and the previous occupant is cancelled. No other handle changes, and the one-live invariant is kept. |
| `NetworkManager.AndroidNetworkManager.RunScheduledCheck` | mailbox-android/src/main/java/org/briarproject/mailbox/core/tor/AndroidNetworkManager.java:196-203 | A scheduled recheck runs iff it is still pending. Running it marks it run and broadcasts one status. A cancelled or already-run one changes nothing. |
| `NetworkManager.AndroidNetworkManager.OnReceive` | mailbox-android/src/main/java/org/briarproject/mailbox/core/tor/AndroidNetworkManager.java:212-224 | It appends exactly one status to the broadcast log. It arms a recheck with the delay the action's class calls for, swapping the slot. For any other action it leaves the slot and the scheduler untouched. |
| `NetworkManager.SignalBurst` | mailbox-android/src/main/java/org/briarproject/mailbox/core/tor/AndroidNetworkManager.java:200-224 | Two actions that each arm a recheck, received before either one is due: the first recheck never runs, the second runs, and there are exactly three broadcasts. |

## Left out

- Android plumbing is replaced by plain input values. This covers `BroadcastReceiver` and `IntentFilter` objects, `ConnectivityManager`, `NetworkInterface` enumeration and `InetAddress` parsing, all of which are foreign platform calls.
- An IPv4 address carries no multicast flag. The rule rejects every IPv4 address before it looks at multicast, so the flag would never matter.
- Real timing and executor semantics of `TaskScheduler.schedule` are left out. A recheck is only recorded with its delay and state; `RunScheduledCheck` may fire any handle at any time, and "no earlier than the delay" is not modelled. The scheduler's table starts empty and belongs to this manager alone.
- The atomicity of `AtomicReference.getAndSet` and `AtomicBoolean.getAndSet` is left out. They are modelled as sequential field updates, so thread interleavings are not captured.
- The receiver is an inner class in the source. Its `onReceive` is modelled as a method of the manager, and it can be called at any time, whether or not the receiver is registered.
- `EventBus` delivery is not modelled: `broadcast` appends to a log, because the bus is not part of this model.
- Logging (`LOG.info`, `logException`) is left out, because it does not affect behaviour.
- The file-upload pipeline, authorization and the lifecycle manager are not part of this model.
