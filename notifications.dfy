/**
 * `NotificationUtil`: the per-project "don't show again" flags, kept by notification key, and
 * the gate in `showCustomNotification` that consults them (identical in both package trees).
 */
module Notifications {
  import opened Wrappers
  import opened JavaText

  /** `NotificationSettings.State`: its map may arrive as null from old stored data. */
  datatype State = State(doNotShowAgainMap: Option<map<String, bool>>)

  /** `getOrDefault(key, false)` */
  function FlagOf(m: map<String, bool>, key: String): (r: bool)
    ensures key !in m ==> !r
    ensures key in m ==> r == m[key]
  {
    if key in m then m[key] else false
  }

  /** The project service `NotificationSettings`. */
  class NotificationSettings {
    var doNotShowAgainMap: map<String, bool>

    /** A new service starts with no key flagged. */
    constructor()
      ensures doNotShowAgainMap == map[]
      ensures forall key :: !IsDoNotShowAgain(key)
    {
      doNotShowAgainMap := map[];
    }

    /** `isDoNotShowAgain`: a key never set reads false. */
    function IsDoNotShowAgain(key: String): (r: bool)
      reads this
      ensures r <==> key in doNotShowAgainMap && doNotShowAgainMap[key]
    {
      FlagOf(doNotShowAgainMap, key)
    }

    /** `setDoNotShowAgain`: the key now reads `flag`; every other key reads as before. */
    method SetDoNotShowAgain(key: String, flag: bool)
      modifies this
      ensures doNotShowAgainMap == old(doNotShowAgainMap)[key := flag]
      ensures IsDoNotShowAgain(key) == flag
      ensures forall k :: k != key ==> IsDoNotShowAgain(k) == old(IsDoNotShowAgain(k))
    {
      doNotShowAgainMap := doNotShowAgainMap[key := flag];
    }

    /** `resetDoNotShowAgain`: the key reads false again; every other key reads as before. */
    method ResetDoNotShowAgain(key: String)
      modifies this
      ensures doNotShowAgainMap == old(doNotShowAgainMap) - {key}
      ensures !IsDoNotShowAgain(key)
      ensures forall k :: k != key ==> IsDoNotShowAgain(k) == old(IsDoNotShowAgain(k))
    {
      doNotShowAgainMap := doNotShowAgainMap - {key};
    }

    /** `resetAllDoNotShowAgain`: every key reads false. */
    method ResetAllDoNotShowAgain()
      modifies this
      ensures doNotShowAgainMap == map[]
      ensures forall k :: !IsDoNotShowAgain(k)
    {
      doNotShowAgainMap := map[];
    }

    /** `loadState`: the stored state replaces the current one; a null map becomes empty. */
    method LoadState(state: State)
      modifies this
      ensures state.doNotShowAgainMap.Some? ==> doNotShowAgainMap == state.doNotShowAgainMap.value
      ensures state.doNotShowAgainMap.None? ==> doNotShowAgainMap == map[]
    {
      match state.doNotShowAgainMap
      case Some(m) => doNotShowAgainMap := m;
      case None => doNotShowAgainMap := map[];
    }

    /** `getState` */
    function GetState(): (s: State)
      reads this
      ensures s.doNotShowAgainMap == Some(doNotShowAgainMap)
    {
      State(Some(doNotShowAgainMap))
    }
  }

  /** What `showCustomNotification` puts on screen: a title, a text and two buttons. */
  datatype Notification = Notification(title: String, content: String, leftButton: String, rightButton: String)

  /**
   * `showCustomNotification`: with the gate enabled and the key flagged nothing is shown;
   * otherwise the notification is built from the given texts.
   */
  method ShowCustomNotification(settings: NotificationSettings, notificationKey: String, title: String,
                                content: String, leftBtnText: String, rightBtnText: String,
                                enableDoNotShowAgain: bool)
    returns (shown: Option<Notification>)
    ensures shown.None? <==> enableDoNotShowAgain && settings.IsDoNotShowAgain(notificationKey)
    ensures shown.Some? ==> shown.value == Notification(title, content, leftBtnText, rightBtnText)
  {
    if enableDoNotShowAgain {
      if settings.IsDoNotShowAgain(notificationKey) {
        return None;
      }
    }
    return Some(Notification(title, content, leftBtnText, rightBtnText));
  }

  /**
   * The right-hand button: when the gate is enabled it flags the key before running the
   * caller's action (which is not part of this model).
   */
  method RightButtonPressed(settings: NotificationSettings, notificationKey: String, enableDoNotShowAgain: bool)
    modifies settings
    ensures enableDoNotShowAgain ==>
              settings.doNotShowAgainMap == old(settings.doNotShowAgainMap)[notificationKey := true]
    ensures !enableDoNotShowAgain ==> settings.doNotShowAgainMap == old(settings.doNotShowAgainMap)
    ensures enableDoNotShowAgain ==> settings.IsDoNotShowAgain(notificationKey)
  {
    if enableDoNotShowAgain {
      settings.SetDoNotShowAgain(notificationKey, true);
    }
  }
}
