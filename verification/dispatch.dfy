/**
 * The two places the plug-in reacts to a user action (eclipse/GlobalSelectionListener.java
 * and eclipse/FeedbackEventListener.java): count invocations of actions that
 * have no keyboard shortcut and offer to configure one, or remind the user of
 * the shortcut and, under the enforce policy, cancel the action.
 *
 * The pop-ups the listeners open are recorded, in order, in a `popUps` field.
 */
module Dispatch {
  import opened Outcomes
  import opened Text
  import opened Modes
  import opened Descriptors
  import opened Platform
  import opened Overrides
  import opened Preferences
  import opened ActionGenerators
  import opened CommandGenerators
  import Collector

  /** The id of the plug-in's own "configure action invocation" command, which the listener ignores. */
  const ConfigureActionInvocationDef := "com.mousefeed.commands.configureActionInvocation"

  /** A `NagPopUp`: the offer to configure a shortcut, or the reminder of an existing one. */
  datatype PopUp =
    | ShortcutPrompt(labelText: Option<string>, actionId: Option<string>)
    | Reminder(labelText: Option<string>, accelerator: Option<string>, enforced: bool)

  /** What giving feedback on one action does: the new usage counts and the pop-up, if any. */
  datatype Feedback = Feedback(usage: map<Option<string>, int32>, popUp: Option<PopUp>)

  /** The listener's own state: invocation counts per action id and the pop-ups opened so far. */
  datatype ListenerState = ListenerState(usage: map<Option<string>, int32>, popUps: seq<PopUp>)

  /** The two fields of an SWT event a listener may reset. */
  datatype EventState = EventState(eventType: int, doit: bool)

  /** What processing one descriptor does: new listener and event state, and the descriptor logged, if any. */
  datatype Response = Response(listener: ListenerState, event: EventState, logged: Option<DescState>)

  function EventOf(e: SwtEvent): EventState
    reads e
  {
    EventState(e.eventType, e.doit)
  }

  /** The state `cancelEvent` leaves an event in. */
  const CancelledEvent := EventState(SwtNone, false)

  /** How often the action with this id has been invoked; an absent entry counts as zero. */
  function Count(usage: map<Option<string>, int32>, id: Option<string>): int32 {
    if id in usage then usage[id] else 0
  }

  /**
   * `getOnWrongInvocationMode(id)` of both listeners: the action's own
   * override when it has a mode, the global policy otherwise.
   */
  function EffectiveMode(store: StoreValues, table: map<Option<string>, Setting>, id: Option<string>): (r: Result<Mode>)
    ensures id.Some? && id in table && table[id].mode.Some? ==> r == Ok(table[id].mode.value)
    ensures id.Some? && (id !in table || table[id].mode.None?) ==> r == GlobalMode(store.defaultOnWrongInvocationMode)
    ensures id.None? ==> r == Err(IllegalArgument)
  {
    if id.None? then Err(IllegalArgument)
    else if id in table && table[id].mode.Some? then Ok(table[id].mode.value)
    else GlobalMode(store.defaultOnWrongInvocationMode)
  }

  /** The pop-up each policy opens for an action that has a shortcut. */
  function ReminderFor(mode: Mode, d: DescState): Option<PopUp> {
    match mode
    case DoNothing => None
    case Remind => Some(Reminder(d.labelText, d.accelerator, false))
    case Enforce => Some(Reminder(d.labelText, d.accelerator, true))
  }

  /** Whether the feedback cancels the event: only the enforcing reminder does. */
  predicate Cancels(popUp: Option<PopUp>) {
    popUp.Some? && popUp.value.Reminder? && popUp.value.enforced
  }

  /** `isConfigureKeyboardShortcutEnabled(currentCount)`. */
  function PromptEnabled(store: StoreValues, count: int32): bool {
    store.configureKeyboardShortcutEnabled && count > store.configureKeyboardShortcutThreshold
  }

  /** `isConfigurableAction`: the command with the action's id has parameterized combinations. */
  function Configurable(w: Workbench, id: Option<string>): bool {
    id.Some? && w.configurable(id.value)
  }

  /** `giveActionFeedback` of the global listener. */
  function GiveFeedback(store: StoreValues, table: map<Option<string>, Setting>, w: Workbench,
                        usage: map<Option<string>, int32>, d: DescState): Result<Feedback>
  {
    if IsBlank(d.labelText) then Err(IllegalArgument)
    else if !store.invocationControlEnabled then Ok(Feedback(usage, None))
    else if d.accelerator.None? then
      var count := Increment(Count(usage, Id(d)));
      var prompt := PromptEnabled(store, count) && Configurable(w, Id(d));
      Ok(Feedback(usage[Id(d) := count], if prompt then Some(ShortcutPrompt(d.labelText, Id(d))) else None))
    else
      var mode :- EffectiveMode(store, table, Id(d));
      Ok(Feedback(usage, ReminderFor(mode, d)))
  }

  /** `processActionDesc` on a descriptor: skip the configure command, else give feedback and log the action. */
  function Respond(store: StoreValues, table: map<Option<string>, Setting>, w: Workbench,
                   s: ListenerState, ev: EventState, d: DescState): Result<Response>
  {
    if Id(d) == Some(ConfigureActionInvocationDef) then Ok(Response(s, ev, None))
    else
      var f :- GiveFeedback(store, table, w, s.usage, d);
      var popUps := if f.popUp.Some? then s.popUps + [f.popUp.value] else s.popUps;
      Ok(Response(ListenerState(f.usage, popUps), if Cancels(f.popUp) then CancelledEvent else ev, Some(d)))
  }

  /**
   * The descriptor the generators make for a contribution item: `None` when the
   * listener does not react to the item, otherwise the generator's result
   * (in which `None` stands for the null a command generator returns).
   */
  function ItemDescriptor(revision: Revision, w: Workbench, item: ContributionItem): Option<Result<Option<DescState>>> {
    match item
    case SubContributionItem(inner) =>
      if inner.None? then None else ItemDescriptor(revision, w, inner.value)
    case ActionContributionItem(action) =>
      var r := DescribeAction(revision, w, action);
      Some(if r.Ok? then Ok(Some(r.value)) else Err(r.failure))
    case CommandContributionItem(command) => Some(DescribeLocated(w, command))
    case HandledContributionItem(command) => Some(DescribeLocated(w, command))
    case OtherContributionItem => None
  }

  /** `processContributionItem`; a null descriptor fails when its id is asked for. */
  function RespondToItem(store: StoreValues, table: map<Option<string>, Setting>, w: Workbench, revision: Revision,
                         s: ListenerState, ev: EventState, item: ContributionItem): Result<Response>
  {
    match ItemDescriptor(revision, w, item)
    case None => Ok(Response(s, ev, None))
    case Some(Err(f)) => Err(f)
    case Some(Ok(None)) => Err(NullPointer)
    case Some(Ok(Some(d))) => Respond(store, table, w, s, ev, d)
  }

  /** The contribution item an event's widget carries, if it is a tool or menu item that carries one. */
  function WidgetItem(widget: Widget): Option<ContributionItem> {
    if (widget.ToolItem? || widget.MenuItem?) && widget.data.ContributionData? then Some(widget.data.item)
    else None
  }

  /** Whether the listener and event states and the outcome are the ones `r` describes; a failure changes nothing. */
  predicate Reached(r: Result<Response>, s0: ListenerState, e0: EventState, s1: ListenerState, e1: EventState, o: Outcome) {
    match r
    case Err(f) => o == Fail(f) && s1 == s0 && e1 == e0
    case Ok(resp) => o == Pass && s1 == resp.listener && e1 == resp.event
  }

  /** Whether `r` logs a descriptor with the collector. */
  predicate Logs(r: Result<Response>) {
    r.Ok? && r.value.logged.Some?
  }

  // ---------------------------------------------------------------------------
  // Properties of the feedback rules
  // ---------------------------------------------------------------------------

  /**
   * Counting: feedback on an action touches at most its own counter, and
   * only when invocation control is on and the action has no shortcut; then
   * that counter goes up by one (as a Java int).
   */
  lemma CountsOnlyItsOwnAction(store: StoreValues, table: map<Option<string>, Setting>, w: Workbench,
                               usage: map<Option<string>, int32>, d: DescState)
    requires GiveFeedback(store, table, w, usage, d).Ok?
    ensures var u := GiveFeedback(store, table, w, usage, d).value.usage;
      forall k :: k != Id(d) ==> (k in u <==> k in usage) && (k in u ==> u[k] == usage[k])
    ensures var u := GiveFeedback(store, table, w, usage, d).value.usage;
      if store.invocationControlEnabled && d.accelerator.None?
      then Id(d) in u && u[Id(d)] == Increment(Count(usage, Id(d)))
      else u == usage
  {
  }

  /** Feedback on `n` successive invocations of the same action, with the pop-ups each opened. */
  function Repeat(store: StoreValues, table: map<Option<string>, Setting>, w: Workbench,
                  usage: map<Option<string>, int32>, d: DescState, n: nat): Result<(map<Option<string>, int32>, seq<Option<PopUp>>)>
  {
    if n == 0 then Ok((usage, []))
    else
      var before :- Repeat(store, table, w, usage, d, n - 1);
      var f :- GiveFeedback(store, table, w, before.0, d);
      Ok((f.usage, before.1 + [f.popUp]))
  }

  /**
   * The prompt cadence: for an action without a shortcut that was never
   * counted, the k-th invocation (k counted from one) offers to configure a
   * shortcut exactly when prompting is enabled, k exceeds the threshold and
   * the action's command is configurable.
   */
  lemma {:induction false} PromptCadence(store: StoreValues, table: map<Option<string>, Setting>, w: Workbench,
                                         usage: map<Option<string>, int32>, d: DescState, n: nat)
    requires store.invocationControlEnabled && d.accelerator.None? && !IsBlank(d.labelText)
    requires Id(d) !in usage && n < 0x8000_0000
    ensures Repeat(store, table, w, usage, d, n).Ok?
    ensures var (u, shown) := Repeat(store, table, w, usage, d, n).value;
      |shown| == n && (n > 0 ==> Id(d) in u && u[Id(d)] as int == n)
      && forall k :: 0 <= k < n ==>
           (shown[k].Some? <==> store.configureKeyboardShortcutEnabled && k + 1 > store.configureKeyboardShortcutThreshold as int && Configurable(w, Id(d)))
           && (shown[k].Some? ==> shown[k].value == ShortcutPrompt(d.labelText, Id(d)))
  {
    if n > 0 {
      PromptCadence(store, table, w, usage, d, n - 1);
      var before := Repeat(store, table, w, usage, d, n - 1).value;
      assert Count(before.0, Id(d)) as int == n - 1;
    }
  }

  /**
   * After 2^31 - 1 invocations the Java `int` counter wraps to its smallest
   * value, and from then on no threshold lets the prompt appear.
   */
  lemma CounterWrapsAround(store: StoreValues, table: map<Option<string>, Setting>, w: Workbench,
                           usage: map<Option<string>, int32>, d: DescState)
    requires store.invocationControlEnabled && d.accelerator.None? && !IsBlank(d.labelText)
    requires Id(d) in usage && usage[Id(d)] == 0x7fff_ffff
    ensures GiveFeedback(store, table, w, usage, d) == Ok(Feedback(usage[Id(d) := -0x8000_0000], None))
  {
  }

  /** With invocation control off, an action's feedback changes nothing and shows nothing. */
  lemma ControlOffDoesNothing(store: StoreValues, table: map<Option<string>, Setting>, w: Workbench,
                              usage: map<Option<string>, int32>, d: DescState)
    requires !store.invocationControlEnabled && !IsBlank(d.labelText)
    ensures GiveFeedback(store, table, w, usage, d) == Ok(Feedback(usage, None))
  {
  }

  /**
   * Only the enforce policy cancels: the event is cancelled exactly when
   * control is on, the action has a shortcut and its effective policy is
   * ENFORCE.
   */
  lemma OnlyEnforceCancels(store: StoreValues, table: map<Option<string>, Setting>, w: Workbench,
                           usage: map<Option<string>, int32>, d: DescState)
    requires GiveFeedback(store, table, w, usage, d).Ok?
    ensures Cancels(GiveFeedback(store, table, w, usage, d).value.popUp)
        <==> store.invocationControlEnabled && d.accelerator.Some? && EffectiveMode(store, table, Id(d)) == Ok(Enforce)
  {
  }

  /** The configure command itself is never counted, reminded, cancelled or logged. */
  lemma ConfigureCommandIsIgnored(store: StoreValues, table: map<Option<string>, Setting>, w: Workbench,
                                  s: ListenerState, ev: EventState, d: DescState)
    requires Id(d) == Some(ConfigureActionInvocationDef)
    ensures Respond(store, table, w, s, ev, d) == Ok(Response(s, ev, None))
  {
  }

  /**
   * A response leaves the event alone or cancels it, and keeps every pop-up
   * opened before, adding at most one.
   */
  lemma ResponseExtendsPopUps(store: StoreValues, table: map<Option<string>, Setting>, w: Workbench,
                              s: ListenerState, ev: EventState, d: DescState)
    requires Respond(store, table, w, s, ev, d).Ok?
    ensures var resp := Respond(store, table, w, s, ev, d).value;
      (resp.event == ev || resp.event == CancelledEvent)
      && s.popUps <= resp.listener.popUps && |resp.listener.popUps| <= |s.popUps| + 1
  {
  }

  // ---------------------------------------------------------------------------
  // The global selection listener
  // ---------------------------------------------------------------------------

  /** `GlobalSelectionListener`: its collaborators, its usage monitor, and the pop-ups it opened. */
  class GlobalSelectionListener {
    const preferences: PreferenceAccessor
    const actionGenerator: ActionActionDescGenerator
    const commandGenerator: CommandActionDescGenerator
    const handledGenerator: HandledActionDescGenerator
    const collector: Collector.Collector
    const workbench: Workbench
    var actionUsageMonitor: map<Option<string>, int32>
    var popUps: seq<PopUp>

    /** All generators query the listener's workbench. */
    ghost predicate Valid()
      reads this
    {
      actionGenerator.workbench == workbench && commandGenerator.workbench == workbench
      && handledGenerator.workbench == workbench
    }

    function State(): ListenerState
      reads this
    {
      ListenerState(actionUsageMonitor, popUps)
    }

    constructor (preferences: PreferenceAccessor, revision: Revision, collector: Collector.Collector, workbench: Workbench)
      ensures this.preferences == preferences && this.collector == collector && this.workbench == workbench
      ensures actionGenerator.revision == revision && fresh(actionGenerator) && fresh(commandGenerator) && fresh(handledGenerator)
      ensures Valid() && State() == ListenerState(map[], [])
    {
      this.preferences := preferences;
      this.collector := collector;
      this.workbench := workbench;
      actionGenerator := new ActionActionDescGenerator(revision, workbench);
      commandGenerator := new CommandActionDescGenerator(workbench);
      handledGenerator := new HandledActionDescGenerator(workbench);
      actionUsageMonitor := map[];
      popUps := [];
    }

    /** `handleEvent`: only tool and menu items carrying a contribution item are processed. */
    method HandleEvent(event: SwtEvent) returns (o: Outcome)
      requires Valid()
      modifies this, event, collector, actionGenerator
      ensures WidgetItem(event.widget).None? ==> o == Pass && unchanged(this, event, collector)
      ensures WidgetItem(event.widget).Some? ==>
        var r := RespondToItem(preferences.store, preferences.Table(), workbench, actionGenerator.revision,
                               old(State()), old(EventOf(event)), WidgetItem(event.widget).value);
        Reached(r, old(State()), old(EventOf(event)), State(), EventOf(event), o)
        && (Logs(r) ==> collector.lastAction != null && collector.lastAction.State() == r.value.logged.value)
        && (!Logs(r) ==> unchanged(collector))
    {
      var item := WidgetItem(event.widget);
      if item.None? {
        return Pass;
      }
      o := ProcessContributionItem(item.value, event);
    }

    /** `processContributionItem`: unwraps sub-items and hands the item to the matching generator. */
    method ProcessContributionItem(item: ContributionItem, event: SwtEvent) returns (o: Outcome)
      requires Valid()
      modifies this, event, collector, actionGenerator
      decreases item
      ensures var r := RespondToItem(preferences.store, preferences.Table(), workbench, actionGenerator.revision,
                                     old(State()), old(EventOf(event)), item);
        Reached(r, old(State()), old(EventOf(event)), State(), EventOf(event), o)
        && (Logs(r) ==> collector.lastAction != null && collector.lastAction.State() == r.value.logged.value)
        && (!Logs(r) ==> unchanged(collector))
    {
      match item {
        case SubContributionItem(inner) =>
          if inner.None? {
            return Pass;
          }
          o := ProcessContributionItem(inner.value, event);
        case OtherContributionItem =>
          return Pass;
        case _ =>
          o := ProcessGeneratedItem(item, event);
      }
    }

    /** The branches of `processContributionItem` that ask a generator for the item's descriptor. */
    method ProcessGeneratedItem(item: ContributionItem, event: SwtEvent) returns (o: Outcome)
      requires Valid()
      requires item.ActionContributionItem? || item.CommandContributionItem? || item.HandledContributionItem?
      modifies this, event, collector, actionGenerator
      ensures var r := RespondToItem(preferences.store, preferences.Table(), workbench, actionGenerator.revision,
                                     old(State()), old(EventOf(event)), item);
        Reached(r, old(State()), old(EventOf(event)), State(), EventOf(event), o)
        && (Logs(r) ==> collector.lastAction != null && collector.lastAction.State() == r.value.logged.value)
        && (!Logs(r) ==> unchanged(collector))
    {
      if item.ActionContributionItem? {
        var r := actionGenerator.Generate(item.action);
        if r.Err? {
          return Fail(r.failure);
        }
        o := ProcessActionDesc(r.value, event);
      } else {
        var r;
        if item.CommandContributionItem? {
          r := commandGenerator.Generate(Some(item));
        } else {
          r := handledGenerator.Generate(Some(item));
        }
        if r.Err? {
          return Fail(r.failure);
        }
        o := ProcessActionDesc(r.value, event);
      }
    }

    /** `processActionDesc`: a null descriptor fails on `getId`; the configure command is skipped. */
    method ProcessActionDesc(desc: ActionDesc?, event: SwtEvent) returns (o: Outcome)
      requires desc != null ==> desc.Valid()
      modifies this, event, collector
      ensures desc == null ==> o == Fail(NullPointer) && unchanged(this, event, collector)
      ensures desc != null ==>
        var r := Respond(preferences.store, preferences.Table(), workbench, old(State()), old(EventOf(event)), desc.State());
        Reached(r, old(State()), old(EventOf(event)), State(), EventOf(event), o)
        && (Logs(r) ==> collector.lastAction == desc) && (!Logs(r) ==> unchanged(collector))
    {
      if desc == null {
        return Fail(NullPointer);
      }
      if desc.GetId() == Some(ConfigureActionInvocationDef) {
        return Pass;
      }
      o := GiveActionFeedback(desc, event);
      if o.Fail? {
        return;
      }
      var logged := collector.OnAction(desc);
    }

    /** `giveActionFeedback`. */
    method GiveActionFeedback(desc: ActionDesc, event: SwtEvent) returns (o: Outcome)
      modifies this, event
      ensures var f := GiveFeedback(preferences.store, preferences.Table(), workbench, old(actionUsageMonitor), desc.State());
        match f
        case Err(e) => o == Fail(e) && unchanged(this, event)
        case Ok(fb) =>
          o == Pass && actionUsageMonitor == fb.usage
          && popUps == old(popUps) + (if fb.popUp.Some? then [fb.popUp.value] else [])
          && (Cancels(fb.popUp) ==> EventOf(event) == CancelledEvent)
          && (!Cancels(fb.popUp) ==> unchanged(event))
    {
      if IsBlank(desc.labelText) {
        return Fail(IllegalArgument);
      }
      if !preferences.IsInvocationControlEnabled() {
        return Pass;
      }
      var id := Id(desc.State());
      if !desc.HasAccelerator() {
        var currentCount := if id in actionUsageMonitor then actionUsageMonitor[id] else 0;
        currentCount := Increment(currentCount);
        actionUsageMonitor := actionUsageMonitor[id := currentCount];
        if IsConfigureKeyboardShortcutEnabled(currentCount) && Configurable(workbench, id) {
          popUps := popUps + [ShortcutPrompt(desc.labelText, id)];
        }
        return Pass;
      }
      var mode := GetOnWrongInvocationMode(preferences, id);
      if mode.Err? {
        return Fail(mode.failure);
      }
      match mode.value {
        case DoNothing =>
        case Remind =>
          popUps := popUps + [Reminder(desc.labelText, desc.accelerator, false)];
        case Enforce =>
          CancelEvent(event);
          popUps := popUps + [Reminder(desc.labelText, desc.accelerator, true)];
      }
      return Pass;
    }

    /** `isConfigureKeyboardShortcutEnabled(currentCount)`. */
    function IsConfigureKeyboardShortcutEnabled(currentCount: int32): (r: bool)
      reads this, preferences
      ensures r <==> preferences.IsConfigureKeyboardShortcutEnabled()
                     && currentCount > preferences.GetConfigureKeyboardShortcutThreshold()
    {
      PromptEnabled(preferences.store, currentCount)
    }

  }

  /**
   * `getOnWrongInvocationMode(id)`, which both listeners declare alike: the
   * action's override, or the global policy when the override has none.
   */
  method GetOnWrongInvocationMode(preferences: PreferenceAccessor, id: Option<string>) returns (r: Result<Mode>)
    ensures r == EffectiveMode(preferences.store, preferences.Table(), id)
  {
    var mode := preferences.GetOnWrongInvocationMode(id);
    if mode.Err? {
      return Err(mode.failure);
    }
    if mode.value.None? {
      r := preferences.GetDefaultOnWrongInvocationMode();
      return;
    }
    return Ok(mode.value.value);
  }

  /** `cancelEvent` of both listeners. */
  method CancelEvent(event: SwtEvent)
    modifies event
    ensures EventOf(event) == CancelledEvent && event.Cancelled()
  {
    event.eventType := SwtNone;
    event.doit := false;
  }

  // ---------------------------------------------------------------------------
  // The collector's feedback listener
  // ---------------------------------------------------------------------------

  /**
   * `FeedbackEventListener.event` on an action event carrying `d`: unlike the
   * global listener it checks for a shortcut before it checks whether
   * invocation control is on, and it counts nothing.
   */
  function EventFeedback(store: StoreValues, table: map<Option<string>, Setting>, d: DescState): Result<Option<PopUp>> {
    if IsBlank(d.labelText) then Err(IllegalArgument)
    else if d.accelerator.None? then Ok(None)
    else if !store.invocationControlEnabled then Ok(None)
    else
      var mode :- EffectiveMode(store, table, Id(d));
      Ok(ReminderFor(mode, d))
  }

  /**
   * The two listeners agree on actions that have a shortcut: the same
   * pop-up, or the same failure, and no counting.
   */
  lemma ListenersAgreeOnShortcuts(store: StoreValues, table: map<Option<string>, Setting>, w: Workbench,
                                  usage: map<Option<string>, int32>, d: DescState)
    requires d.accelerator.Some?
    ensures var g := GiveFeedback(store, table, w, usage, d);
      var e := EventFeedback(store, table, d);
      (g.Ok? <==> e.Ok?) && (g.Err? ==> g.failure == e.failure)
      && (g.Ok? ==> g.value.usage == usage && g.value.popUp == e.value)
  {
  }

  /** The SWT event an action event came from, as a frame. */
  function Client(event: Collector.Event): set<SwtEvent>
    reads event
  {
    if event.clientEvent == null then {} else {event.clientEvent}
  }

  /** `FeedbackEventListener`: the pop-ups it opened. */
  class FeedbackEventListener {
    const preferences: PreferenceAccessor
    var popUps: seq<PopUp>

    constructor (preferences: PreferenceAccessor)
      ensures this.preferences == preferences && popUps == []
    {
      this.preferences := preferences;
      popUps := [];
    }

    /**
     * `event`: a null event is refused; under the enforce policy the SWT event
     * the action event came from is cancelled, which fails when there is none.
     */
    method OnEvent(event: Collector.Event?, d: DescState) returns (o: Outcome)
      modifies this, if event != null then Client(event) else {}
      ensures event == null ==> o == Fail(IllegalArgument) && unchanged(this)
      ensures event != null ==>
        var f := EventFeedback(preferences.store, preferences.Table(), d);
        match f
        case Err(e) => o == Fail(e) && unchanged(this) && unchanged(Client(event))
        case Ok(p) =>
          if Cancels(p) && event.clientEvent == null then o == Fail(NullPointer) && unchanged(this)
          else o == Pass && popUps == old(popUps) + (if p.Some? then [p.value] else [])
               && (Cancels(p) ==> EventOf(event.clientEvent) == CancelledEvent)
               && (!Cancels(p) ==> unchanged(Client(event)))
    {
      if event == null {
        return Fail(IllegalArgument);
      }
      if IsBlank(d.labelText) {
        return Fail(IllegalArgument);
      }
      if d.accelerator.None? {
        return Pass;
      }
      if !preferences.IsInvocationControlEnabled() {
        return Pass;
      }
      var mode := GetOnWrongInvocationMode(preferences, Id(d));
      if mode.Err? {
        return Fail(mode.failure);
      }
      match mode.value {
        case DoNothing =>
        case Remind =>
          popUps := popUps + [Reminder(d.labelText, d.accelerator, false)];
        case Enforce =>
          var client := event.clientEvent;
          if client == null {
            return Fail(NullPointer);
          }
          CancelEvent(client);
          popUps := popUps + [Reminder(d.labelText, d.accelerator, true)];
      }
      return Pass;
    }

  }
}
