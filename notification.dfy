/** The notification hook: one message, its kind, and whether it is on screen. */
module UseNotification {
  import opened Wrappers

  datatype NotificationType = Success | Error | Info

  datatype NotificationState = NotificationState(message: string, kind: NotificationType, isVisible: bool)

  /** The module-level initial state: no message, kind info, hidden. */
  const InitialState := NotificationState("", Info, false)

  /** The state `showNotification(message, kind)` sets; an omitted kind is info. */
  function Shown(message: string, kind: Option<NotificationType>): (r: NotificationState)
    ensures r.isVisible && r.message == message
    ensures r.kind == if kind.Some? then kind.value else Info
  {
    NotificationState(message, kind.GetOr(Info), true)
  }

  /** What `hideNotification` makes of a state: the message and kind stay, the notification is hidden. */
  function Hidden(s: NotificationState): (r: NotificationState)
    ensures !r.isVisible && r.message == s.message && r.kind == s.kind
  {
    s.(isVisible := false)
  }

  /** Hiding twice is hiding once; hiding a shown notification keeps its message and kind. */
  lemma HideThenShow(s: NotificationState, message: string, kind: Option<NotificationType>)
    ensures Hidden(Hidden(s)) == Hidden(s)
    ensures Hidden(Shown(message, kind)) == NotificationState(message, kind.GetOr(Info), false)
  {
  }

  class Notifier {
    var notification: NotificationState

    /** The hook starts from the caller's default state, or the initial state when none is given. */
    constructor (defaultState: Option<NotificationState>)
      ensures notification == defaultState.GetOr(InitialState)
    {
      notification := defaultState.GetOr(InitialState);
    }

    method ShowNotification(message: string, kind: Option<NotificationType>)
      modifies this
      ensures notification == Shown(message, kind)
    {
      notification := NotificationState(message, kind.GetOr(Info), true);
    }

    method HideNotification()
      modifies this
      ensures notification == Hidden(old(notification))
    {
      notification := notification.(isVisible := false);
    }

    /** `clearNotification` goes back to the module's initial state, not to the caller's default. */
    method ClearNotification()
      modifies this
      ensures notification == InitialState
    {
      notification := InitialState;
    }
  }
}
