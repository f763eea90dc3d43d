/** How the network state receiver classifies the actions it is sent, and
    which actions it registers for. */
module Signals {
  import opened Platform

  /** isSleepOrDozeEvent: screen on or off, or device-idle-mode changes on
      SDK 23 and later. A null action matches nothing. */
  predicate IsSleepOrDozeEvent(sdk: int, action: Option<string>) {
    var isSleep := action == Some(ACTION_SCREEN_ON) || action == Some(ACTION_SCREEN_OFF);
    var isDoze := sdk >= SDK_MARSHMALLOW && action == Some(ACTION_DEVICE_IDLE_MODE_CHANGED);
    isSleep || isDoze
  }

  /** isApEvent: access-point state or P2P this-device changes. */
  predicate IsApEvent(action: Option<string>) {
    action == Some(WIFI_AP_STATE_CHANGED_ACTION) || action == Some(WIFI_P2P_THIS_DEVICE_CHANGED_ACTION)
  }

  datatype TimeUnit = Seconds | Minutes

  /** A delay as passed to the scheduler: an amount and its unit. */
  datatype Delay = Delay(amount: nat, unit: TimeUnit)

  function InSeconds(d: Delay): (seconds: nat) {
    match d.unit
    case Seconds => d.amount
    case Minutes => 60 * d.amount
  }

  /** The delayed recheck onReceive arms for an action, if any. */
  function RecheckDelay(sdk: int, action: Option<string>): (delay: Option<Delay>) {
    if IsSleepOrDozeEvent(sdk, action) then Some(Delay(1, Minutes))
    else if IsApEvent(action) then Some(Delay(5, Seconds))
    else None
  }

  /** The actions startService puts in the receiver's intent filter. */
  function ReceiverFilter(sdk: int): (actions: set<string>) {
    {CONNECTIVITY_ACTION, ACTION_SCREEN_ON, ACTION_SCREEN_OFF,
     WIFI_AP_STATE_CHANGED_ACTION, WIFI_P2P_THIS_DEVICE_CHANGED_ACTION}
    + (if sdk >= SDK_MARSHMALLOW then {ACTION_DEVICE_IDLE_MODE_CHANGED} else {})
  }

  /** No action is both a sleep/doze event and an access-point event. */
  lemma ClassesAreDisjoint(sdk: int, action: Option<string>)
    ensures !(IsSleepOrDozeEvent(sdk, action) && IsApEvent(action))
  {
  }

  /** The recheck each action arms: a minute for screen on/off and (from
      SDK 23) device idle, five seconds for AP and P2P changes, none for
      connectivity changes, for a null action or for any other action. */
  lemma RecheckDelayByAction(sdk: int, action: Option<string>)
    ensures action == Some(ACTION_SCREEN_ON) || action == Some(ACTION_SCREEN_OFF) ==>
              RecheckDelay(sdk, action) == Some(Delay(1, Minutes))
    ensures action == Some(ACTION_DEVICE_IDLE_MODE_CHANGED) ==>
              RecheckDelay(sdk, action) == (if sdk >= SDK_MARSHMALLOW then Some(Delay(1, Minutes)) else None)
    ensures IsApEvent(action) ==> RecheckDelay(sdk, action) == Some(Delay(5, Seconds))
    ensures action == None || action == Some(CONNECTIVITY_ACTION) ==> RecheckDelay(sdk, action) == None
    ensures RecheckDelay(sdk, action).Some? ==>
              action.Some? && action.value in ReceiverFilter(sdk) && action.value != CONNECTIVITY_ACTION
    ensures RecheckDelay(sdk, action).Some? ==> InSeconds(RecheckDelay(sdk, action).value) in {60, 5}
  {
  }

  /** The registered actions are exactly connectivity changes plus the
      actions that arm a recheck. */
  lemma FilterMatchesClassification(sdk: int, a: string)
    ensures a in ReceiverFilter(sdk) <==> a == CONNECTIVITY_ACTION || RecheckDelay(sdk, Some(a)).Some?
  {
  }
}
