/**
 * The online/offline indicator: whether the browser is online, and whether it
 * has been offline since the page loaded.
 */
module OnlineStatus {
  datatype OnlineStatusState = OnlineStatusState(isOnline: bool, wasOffline: bool)

  /** The state before the mount effect runs. */
  const INITIAL_STATE: OnlineStatusState := OnlineStatusState(true, false)

  /** The hook's state, replaced by the mount effect and the two event handlers. */
  class OnlineStatusHook {
    var state: OnlineStatusState

    constructor()
      ensures state == INITIAL_STATE && Valid()
    {
      state := INITIAL_STATE;
    }

    /** Being offline now implies having been offline. */
    ghost predicate Valid()
      reads this
    {
      !state.isOnline ==> state.wasOffline
    }

    /** The mount effect, given `navigator.onLine`. */
    method Mount(onLine: bool)
      modifies this
      ensures state == OnlineStatusState(onLine, !onLine) && Valid()
    {
      state := OnlineStatusState(onLine, !onLine);
    }

    /** The `online` event: online, and offline before if it was offline or had been. */
    method HandleOnline()
      requires Valid()
      modifies this
      ensures state == OnlineStatusState(true, old(state.wasOffline) || !old(state.isOnline))
      ensures state.wasOffline == old(state.wasOffline) && Valid()
    {
      state := OnlineStatusState(true, state.wasOffline || !state.isOnline);
    }

    /** The `offline` event: offline, and remembered as such. */
    method HandleOffline()
      modifies this
      ensures state == OnlineStatusState(false, true) && Valid()
    {
      state := OnlineStatusState(false, true);
    }

    /** `useIsOnline`: the online flag alone. */
    function IsOnline(): (r: bool)
      reads this
      ensures r == state.isOnline
    {
      state.isOnline
    }
  }
}
