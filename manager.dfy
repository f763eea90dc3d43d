/** The network manager service: the start-once guard, registration of the
    receiver, the receiver's handling of actions, and the single slot that
    holds the armed delayed recheck. */
module NetworkManager {
  import opened Platform
  import opened NetworkStatusRules
  import opened Signals

  type HandleId = nat

  /** A scheduled one-shot task; cancelling one that ran changes nothing. */
  datatype TaskState = Pending | Ran | Cancelled

  datatype Task = Task(delay: Delay, state: TaskState)

  function CancelTask(t: Task): (c: Task) {
    if t.state == Pending then t.(state := Cancelled) else t
  }

  /** The scheduler's table after the handle `previous` (if any) is cancelled. */
  function Supersede(tasks: map<HandleId, Task>, previous: Option<HandleId>): (after: map<HandleId, Task>) {
    if previous.Some? && previous.value in tasks then
      tasks[previous.value := CancelTask(tasks[previous.value])]
    else
      tasks
  }

  /** The slot discipline: the slot's handle is known to the scheduler, and
      no other handle is still pending. */
  ghost predicate SlotInvariant(tasks: map<HandleId, Task>, slot: Option<HandleId>) {
    (slot.Some? ==> slot.value in tasks) &&
    (forall h :: h in tasks && tasks[h].state == Pending ==> slot == Some(h))
  }

  /** Superseding the slot's handle cancels it if it was still pending, and
      leaves every other handle and the set of handles as they were. */
  lemma SupersedeCancelsOnlyPrevious(tasks: map<HandleId, Task>, previous: Option<HandleId>)
    ensures Supersede(tasks, previous).Keys == tasks.Keys
    ensures forall h :: h in tasks && previous != Some(h) ==> Supersede(tasks, previous)[h] == tasks[h]
    ensures previous.Some? && previous.value in tasks ==>
              var t := Supersede(tasks, previous)[previous.value];
              t.delay == tasks[previous.value].delay && t.state != Pending &&
              (tasks[previous.value].state != Pending ==> t == tasks[previous.value])
  {
  }

  /** Swapping a freshly scheduled handle into the slot and cancelling the
      previous occupant keeps the slot discipline: afterwards the new handle
      is the only pending one. */
  lemma SwapKeepsOneLive(tasks: map<HandleId, Task>, slot: Option<HandleId>, newHandle: HandleId, delay: Delay)
    requires SlotInvariant(tasks, slot) && newHandle !in tasks
    ensures SlotInvariant(Supersede(tasks, slot)[newHandle := Task(delay, Pending)], Some(newHandle))
    ensures forall h :: h in tasks ==> Supersede(tasks, slot)[newHandle := Task(delay, Pending)][h].state != Pending
  {
    var after := Supersede(tasks, slot)[newHandle := Task(delay, Pending)];
    forall h | h in tasks
      ensures after[h].state != Pending
    {
      assert h != newHandle;
      if slot != Some(h) {
        assert tasks[h].state != Pending;
      }
    }
  }

  /** What the service asks of the Application. */
  datatype AppCall = RegisterReceiver(actions: set<string>) | UnregisterReceiver

  datatype StartOutcome = Started | IllegalStateException

  class AndroidNetworkManager {
    /** Build.VERSION.SDK_INT of the device. */
    const sdkInt: int
    /** Set by the first startService. */
    var used: bool
    /** networkStateReceiver != null */
    var receiverCreated: bool
    /** Calls made to registerReceiver and unregisterReceiver, in order. */
    var appCalls: seq<AppCall>
    /** connectivityCheck: the handle of the most recently armed recheck. */
    var connectivityCheck: Option<HandleId>
    /** The scheduler's table of the rechecks it was given. */
    var tasks: map<HandleId, Task>
    /** The next handle the scheduler gives out. */
    var nextHandle: HandleId
    /** Every status broadcast on the event bus, in order. */
    var broadcasts: seq<NetworkStatus>

    ghost predicate FreshHandles()
      reads this
    {
      forall h :: h in tasks ==> h < nextHandle
    }

    /** The receiver exists exactly once the service was used, and the only
        recheck that may still run is the one in the slot. */
    ghost predicate Valid()
      reads this
    {
      receiverCreated == used &&
      FreshHandles() &&
      SlotInvariant(tasks, connectivityCheck)
    }

    /** The rechecks that are scheduled and neither cancelled nor run. */
    ghost function LiveChecks(): (live: set<HandleId>)
      reads this
      requires Valid()
      ensures forall h :: h in live <==> h in tasks && tasks[h].state == Pending
      ensures |live| <= 1
      ensures live != {} ==> live == {connectivityCheck.value}
    {
      var live := set h | h in tasks && tasks[h].state == Pending;
      assert forall h :: h in live ==> connectivityCheck == Some(h);
      assert live <= (if connectivityCheck.Some? then {connectivityCheck.value} else {});
      assert live == {} || live == {connectivityCheck.value};
      live
    }

    constructor (sdk: int)
      ensures Valid()
      ensures sdkInt == sdk && !used && !receiverCreated && appCalls == []
      ensures connectivityCheck == None && tasks == map[] && nextHandle == 0 && broadcasts == []
    {
      sdkInt := sdk;
      used, receiverCreated, appCalls := false, false, [];
      connectivityCheck, tasks, nextHandle := None, map[], 0;
      broadcasts := [];
    }

    /** startService: the first call registers a receiver for the filtered
        actions; every later call throws before touching anything else. */
    method StartService() returns (outcome: StartOutcome)
      requires Valid()
      modifies this`used, this`receiverCreated, this`appCalls
      ensures Valid()
      ensures outcome == (if old(used) then IllegalStateException else Started)
      ensures used && receiverCreated
      ensures appCalls == if old(used) then old(appCalls)
                          else old(appCalls) + [RegisterReceiver(ReceiverFilter(sdkInt))]
    {
      var wasUsed := used;
      used := true;
      if wasUsed {
        return IllegalStateException;
      }
      receiverCreated := true;
      appCalls := appCalls + [RegisterReceiver(ReceiverFilter(sdkInt))];
      return Started;
    }

    /** stopService: unregisters the receiver exactly when one was created. */
    method StopService()
      requires Valid()
      modifies this`appCalls
      ensures Valid()
      ensures appCalls == old(appCalls) + (if receiverCreated then [UnregisterReceiver] else [])
    {
      if receiverCreated {
        appCalls := appCalls + [UnregisterReceiver];
      }
    }

    /** updateConnectionStatus: one status broadcast per evaluation. */
    method UpdateConnectionStatus(snap: Snapshot)
      modifies this`broadcasts
      ensures broadcasts == old(broadcasts) + [NetworkStatusOf(sdkInt, snap)]
    {
      var status := GetNetworkStatus(sdkInt, snap);
      broadcasts := broadcasts + [status];
    }

    /** TaskScheduler.schedule: a fresh pending handle. */
    method Schedule(delay: Delay) returns (h: HandleId)
      requires FreshHandles()
      modifies this`tasks, this`nextHandle
      ensures FreshHandles()
      ensures h == old(nextHandle) && h !in old(tasks)
      ensures tasks == old(tasks)[h := Task(delay, Pending)] && nextHandle == h + 1
    {
      h := nextHandle;
      tasks := tasks[h := Task(delay, Pending)];
      nextHandle := nextHandle + 1;
    }

    /** Cancellable.cancel. */
    method Cancel(h: HandleId)
      requires h in tasks
      modifies this`tasks
      ensures tasks == old(tasks)[h := CancelTask(old(tasks)[h])]
    {
      tasks := tasks[h := CancelTask(tasks[h])];
    }

    /** scheduleConnectionStatusUpdate: arm a new recheck, swap it into the
        slot and cancel the one it replaces; no other handle changes. */
    method ScheduleConnectionStatusUpdate(delay: Delay)
      requires Valid()
      modifies this`tasks, this`nextHandle, this`connectivityCheck
      ensures Valid()
      ensures connectivityCheck == Some(old(nextHandle)) && old(nextHandle) !in old(tasks)
      ensures nextHandle == old(nextHandle) + 1
      ensures tasks == Supersede(old(tasks), old(connectivityCheck))[old(nextHandle) := Task(delay, Pending)]
    {
      SwapKeepsOneLive(tasks, connectivityCheck, nextHandle, delay);
      var newConnectivityCheck := Schedule(delay);
      var oldConnectivityCheck := connectivityCheck;
      connectivityCheck := Some(newConnectivityCheck);
      if oldConnectivityCheck.Some? {
        Cancel(oldConnectivityCheck.value);
      }
    }

    /** The scheduler running the recheck `h` on the event executor: only a
        pending task runs, and running it broadcasts one status. */
    method RunScheduledCheck(h: HandleId, snap: Snapshot) returns (ran: bool)
      requires Valid()
      modifies this`tasks, this`broadcasts
      ensures Valid()
      ensures ran == (h in old(tasks) && old(tasks)[h].state == Pending)
      ensures tasks == if ran then old(tasks)[h := old(tasks)[h].(state := Ran)] else old(tasks)
      ensures broadcasts == if ran then old(broadcasts) + [NetworkStatusOf(sdkInt, snap)] else old(broadcasts)
    {
      ran := h in tasks && tasks[h].state == Pending;
      if ran {
        tasks := tasks[h := tasks[h].(state := Ran)];
        UpdateConnectionStatus(snap);
      }
    }

    /** NetworkStateReceiver.onReceive: one immediate broadcast, then a
        delayed recheck for sleep/doze and access-point actions only. */
    method OnReceive(action: Option<string>, snap: Snapshot)
      requires Valid()
      modifies this`broadcasts, this`tasks, this`nextHandle, this`connectivityCheck
      ensures Valid()
      ensures broadcasts == old(broadcasts) + [NetworkStatusOf(sdkInt, snap)]
      ensures RecheckDelay(sdkInt, action).None? ==>
                tasks == old(tasks) && nextHandle == old(nextHandle) && connectivityCheck == old(connectivityCheck)
      ensures RecheckDelay(sdkInt, action).Some? ==>
                connectivityCheck == Some(old(nextHandle)) && nextHandle == old(nextHandle) + 1 &&
                tasks == Supersede(old(tasks), old(connectivityCheck))[old(nextHandle) := Task(RecheckDelay(sdkInt, action).value, Pending)]
    {
      UpdateConnectionStatus(snap);
      if IsSleepOrDozeEvent(sdkInt, action) {
        // The radio may settle only some time after the device wakes or sleeps
        ScheduleConnectionStatusUpdate(Delay(1, Minutes));
      } else if IsApEvent(action) {
        // The AP address may become visible only after the broadcast
        ScheduleConnectionStatusUpdate(Delay(5, Seconds));
      }
    }
  }

  /** Two actions that both arm a recheck, delivered before either recheck
      is due: the first recheck never runs, the second does. */
  method SignalBurst(m: AndroidNetworkManager, first: Option<string>, second: Option<string>,
                     s1: Snapshot, s2: Snapshot, s3: Snapshot) returns (firstRan: bool, secondRan: bool)
    requires m.Valid()
    requires RecheckDelay(m.sdkInt, first).Some? && RecheckDelay(m.sdkInt, second).Some?
    modifies m
    ensures m.Valid()
    ensures !firstRan && secondRan
    ensures m.broadcasts == old(m.broadcasts) + [NetworkStatusOf(m.sdkInt, s1), NetworkStatusOf(m.sdkInt, s2), NetworkStatusOf(m.sdkInt, s3)]
  {
    m.OnReceive(first, s1);
    var h1 := m.connectivityCheck.value;
    m.OnReceive(second, s2);
    var h2 := m.connectivityCheck.value;
    firstRan := m.RunScheduledCheck(h1, s3);
    secondRan := m.RunScheduledCheck(h2, s3);
  }
}
