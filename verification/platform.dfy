/**
 * The Eclipse and SWT values the plug-in inspects, as data: JFace actions,
 * commands with their bindings and handlers, contribution items and widgets.
 * Services the plug-in only queries are functions of a `Workbench` value.
 */
module Platform {
  import opened Outcomes

  /** A field read by reflection: the field may not exist, or may hold null. */
  datatype Field<+T> = NoSuchField | Field(value: Option<T>)

  /** Whether an action is a `RetargetAction`, and then its current handler. */
  datatype ActionKind = PlainAction | RetargetAction(actionHandler: Option<Action>)

  /**
   * A JFace `IAction`. Classes are identified by their fully qualified name;
   * `accelerator` is the SWT key code (0 for none); `enclosing` is the
   * synthetic `this$0` field of an inner class.
   */
  datatype Action = Action(
    className: string,
    simpleName: string,
    text: Option<string>,
    toolTipText: Option<string>,
    accelerator: int,
    definitionId: Option<string>,
    kind: ActionKind,
    enclosing: Field<EnclosingObject>)

  /** The object an inner action class belongs to: its class and its declared action fields. */
  datatype EnclosingObject = EnclosingObject(className: string, fields: map<string, Option<Action>>)

  /** A command; `name` is `None` when `getName()` throws NotDefinedException. */
  datatype Command = Command(id: string, defined: bool, name: Option<string>)

  /** The handler a command currently has: an `ActionHandler` wraps a (possibly null) action. */
  datatype Handler = ActionHandler(action: Option<Action>) | OtherHandler

  /** One entry of the binding manager's partial matches: trigger sequence text, command, its handler. */
  datatype Binding = Binding(trigger: string, command: Command, handler: Handler)

  /** The workbench services the generators and the listener query. */
  datatype Workbench = Workbench(
    keyToStr: int -> string,                    // SWTKeySupport key code to key stroke text
    acceleratorText: string -> Option<string>,  // ExternalActionManager callback, by definition id
    internalBindingService: bool,               // bindingService instanceof BindingService
    partialMatches: seq<Binding>,               // partial matches of the empty key sequence, in map order
    activityEnabled: string -> bool,            // activity manager identifier for a command id is enabled
    bestActiveBinding: string -> Option<string>,// formatted best active binding for a command id
    configurable: string -> bool)               // the command with this id has parameterized combinations

  /** What a contribution item is, as far as the listener distinguishes. */
  datatype ContributionItem =
    | SubContributionItem(inner: Option<ContributionItem>)
    | ActionContributionItem(action: Option<Action>)
    | CommandContributionItem(command: Option<Command>)   // the command its locator finds
    | HandledContributionItem(handled: Option<Command>)   // the command its locator finds
    | OtherContributionItem

  /** The data an SWT widget carries. */
  datatype WidgetData = ContributionData(item: ContributionItem) | OtherData

  /** The widget an SWT event comes from. */
  datatype Widget = ToolItem(data: WidgetData) | MenuItem(data: WidgetData) | OtherWidget

  /** `SWT.None`. */
  const SwtNone := 0

  /** An SWT `Event`: its source widget, and the two fields a listener may reset to cancel it. */
  class SwtEvent {
    const widget: Widget
    var eventType: int
    var doit: bool

    constructor (widget: Widget, eventType: int)
      ensures this.widget == widget && this.eventType == eventType && doit
    {
      this.widget := widget;
      this.eventType := eventType;
      doit := true;
    }

    /** Whether the event has been stopped the way the listeners stop it. */
    predicate Cancelled()
      reads this
    {
      eventType == SwtNone && !doit
    }
  }
}
