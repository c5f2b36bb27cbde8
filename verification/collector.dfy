/**
 * The user-activity records (client/collector/Event.java and
 * client/collector/Collector.java): an event wrapping the SWT event it came
 * from, and the one-slot store of the last action.
 */
module Collector {
  import opened Outcomes
  import opened Descriptors
  import opened Platform

  /** A user-activity event; its client event is the SWT event it was generated from. */
  class Event {
    var clientEvent: SwtEvent?

    /** A fresh event has no client event yet. */
    constructor ()
      ensures clientEvent == null
    {
      clientEvent := null;
    }

    /** `getClientEvent`. */
    function GetClientEvent(): SwtEvent?
      reads this
    {
      clientEvent
    }

    /** `setClientEvent`: null is refused and leaves the event as it was; otherwise the last value set is kept. */
    method SetClientEvent(e: SwtEvent?) returns (o: Outcome)
      modifies this
      ensures e == null ==> o == Fail(IllegalArgument) && clientEvent == old(clientEvent)
      ensures e != null ==> o == Pass && GetClientEvent() == e
    {
      if e == null {
        return Fail(IllegalArgument);
      }
      clientEvent := e;
      return Pass;
    }
  }

  /** The collector: remembers the last action reported to it. */
  class Collector {
    var lastAction: ActionDesc?

    /** Before any action is reported there is no last action. */
    constructor ()
      ensures lastAction == null
    {
      lastAction := null;
    }

    /** `getLastAction`. */
    function GetLastAction(): ActionDesc?
      reads this
    {
      lastAction
    }

    /**
     * `onAction`: null is refused; otherwise the action replaces the previous
     * one, so reporting it again changes nothing.
     */
    method OnAction(action: ActionDesc?) returns (o: Outcome)
      modifies this
      ensures action == null ==> o == Fail(IllegalArgument) && lastAction == old(lastAction)
      ensures action != null ==> o == Pass && GetLastAction() == action
      ensures action != null && old(lastAction) == action ==> unchanged(this)
    {
      if action == null {
        return Fail(IllegalArgument);
      }
      lastAction := action;
      return Pass;
    }
  }
}
