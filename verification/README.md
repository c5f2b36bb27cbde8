# MouseFeed core, modelled in Dafny

MouseFeed is an Eclipse plug-in that watches how the user invokes actions.
When an action that has a keyboard shortcut is run from a menu or a tool bar,
it reminds the user of the shortcut. Under the ENFORCE policy it also cancels
the action. When an action has no shortcut, it counts the invocations and,
past a threshold, offers to configure one.

This project models the plug-in's core as Dafny and proves properties of that
model:

- **Descriptors.** An action descriptor holds a label, an accelerator, a class
  name and a definition id. Three setter disciplines are modelled: the
  client-side base class, the first-write-wins `ActionDescImpl`, and the
  last-write-wins Eclipse `ActionDesc`.
- **Generators.** Descriptors are built from JFace actions, from command
  contribution items and from handled contribution items. The action
  generator looks at the key code, the definition id, a retarget action's
  handler and a scan of the key bindings. The scan can search inside
  `TextActionHandler`.
- **Policies.** The three reaction policies, DO_NOTHING, REMIND and ENFORCE,
  with their names, ordinals and localized labels.
- **Messages.** Message lookup in the resource bundle.
- **Preferences.** The preference accessor has global switches, a
  threshold, a default policy, and per-action overrides. The overrides are
  loaded from and saved to an XML memento.
- **Listeners.** The global selection listener and the collector's feedback
  listener. They count invocations, open the prompt or reminder pop-ups, and
  cancel events.
- **Preference-page table.** The cell modifier and the label provider of the
  overrides table.
- **Small pieces.** The init-once providers, the per-action configuration
  dialog's OK button, and the collector.

Objects the source updates in place are Dafny classes whose methods are proved
against pure specification functions. These classes are the descriptors, the
overrides, the accessor, the generators, the listeners, the collector, the
cell modifier and the providers. Code that only computes is written as
functions and lemmas.

Some Java mechanisms are modelled as follows:

- **Exceptions** become the `Result`/`Outcome` values of module `Outcomes`.
  The exception kinds are IllegalArgument (from commons-lang `Validate`),
  IllegalState, NullPointer, MissingResource, AssertionError, RuntimeException
  and IndexOutOfBounds.
- **Java `null`** becomes `Option` for values, or a nullable reference `T?`
  for objects.
- **Java `int`** is a 32-bit `int32` that wraps around on increment.
- **Class identity** is a fully qualified class name. An inner class is named
  `Outer$Inner`.
- **Platform services** are fields of a `Workbench` value (module `Platform`).
  These are the key-stroke formatting, the accelerator texts, the binding
  service and its partial matches, activity enablement, the best active
  binding, and whether a command can be configured.
- **Pop-ups.** The pop-ups the listeners open are recorded in a `popUps`
  sequence.

Where the comments and the code disagree, the model follows the code:

- `ActionDescImpl.isNullOrNotEqual` says the two values "should be
  different". Its check accepts a repeated equal value and refuses a
  different one, and that is what is modelled.
- `CommandActionDescGenerator.generate` is documented as never returning
  null. It returns null when the locator finds no command, and the global
  listener then fails on that null descriptor. Both steps are modelled.
- `PreferenceAccessor.getOnWrongInvocationMode()` falls back to the default
  policy only when the stored value is null. A stored name that is not a
  policy name is an IllegalArgumentException.
- `setLabel("&")` passes the non-blank check and stores the empty label.

## Model

| member | source | states |
|---|---|---|
| Outcomes.Increment | com.mousefeed/src/com/mousefeed/eclipse/GlobalSelectionListener.java:208 | Java `int` increment: plus one below the maximum; the maximum wraps to the minimum |
| Text.StripMnemonics | com.mousefeed/src/com/mousefeed/client/collector/AbstractActionDesc.java:65 | the result holds no '&' and has exactly the input's other characters, with the same multiplicities |
| Text.StripMnemonicsKeepsPlainText | com.mousefeed/src/com/mousefeed/client/collector/AbstractActionDesc.java:65 | a label without '&' is stored unchanged |
| Text.StripMnemonicsAppend | com.mousefeed/src/com/mousefeed/client/collector/AbstractActionDesc.java:65 | removing mnemonics distributes over concatenation |
| Messages.NewMessages | com.mousefeed/src/com/mousefeed/client/Messages.java:63-66 | a null owner class gives the marker class name; otherwise the owner's name is kept |
| Messages.GetFromBundle | com.mousefeed/src/com/mousefeed/client/Messages.java:106-110 | a missing key is a MissingResourceException for that key; without arguments the raw pattern is returned |
| Messages.GetLookupOrder | com.mousefeed/src/com/mousefeed/client/Messages.java:85-97 | blank key iff NullPointerException; the class-qualified entry wins; the plain key is the fallback; if neither exists, the plain key is reported missing |
| Messages.ShortAndFullKeyAgree | com.mousefeed/src/com/mousefeed/client/Messages.java:85-97 | asking for `k` or for `C.k` through a `Messages(C)` gives the same `C.k` entry (unless a `C.C.k` entry exists) |
| Messages.NullOwnerIsNoOwner | com.mousefeed/src/com/mousefeed/client/Messages.java:50-66 | `new Messages(null)` and `new Messages()` make the same lookups |
| Modes.Values | com.mousefeed/src/com/mousefeed/client/OnWrongInvocationMode.java:19-33 | three policies |
| Modes.Ordinal | com.mousefeed/src/com/mousefeed/client/OnWrongInvocationMode.java:19-33 | every policy sits at its ordinal in `values()`, so the enumeration is complete and ordinals are in range |
| Modes.ValueOf | com.mousefeed/src/com/mousefeed/eclipse/preferences/PreferenceAccessor.java:193 | `valueOf`: null is a NullPointerException; an unknown name is an IllegalArgumentException; a known name gives the policy with that name |
| Modes.NameRoundTrip | com.mousefeed/src/com/mousefeed/eclipse/preferences/PreferenceAccessor.java:276-280 | `valueOf(m.name()) == m` for every policy, so a stored policy reads back as itself |
| Modes.ValueAt | com.mousefeed/src/com/mousefeed/eclipse/preferences/ActionInvocationModeTableCellModifier.java:89-90 | `values()[i]` succeeds iff `0 <= i < 3`, and gives the policy with ordinal i; otherwise IndexOutOfBounds |
| Modes.LabelLookup | com.mousefeed/src/com/mousefeed/client/OnWrongInvocationMode.java:50-52 | a policy's label is the `OnWrongInvocationMode.<NAME>` entry if present, else the `<NAME>` entry; missing iff neither exists |
| Modes.AccessValues | com.mousefeed/src/com/mousefeed/client/OnWrongAccessMode.java:19-33 | three access policies |
| Modes.GetLabelsAndNames | com.mousefeed/src/com/mousefeed/client/OnWrongAccessMode.java:56-64 | success iff every label is found; then one row per constant in declaration order, holding its label and its name |
| Descriptors.WithLabel | com.mousefeed/src/com/mousefeed/client/collector/AbstractActionDesc.java:63-66 | a blank label is refused with IllegalArgument and nothing changes; otherwise the stored label has no '&', keeps the other characters, and the other fields are untouched |
| Descriptors.Assign | com.mousefeed/src/com/mousefeed/eclipse/ActionDescImpl.java:102-105 | a blank value is ignored; first-write-wins refuses a value different from a set one; last-write-wins always overwrites |
| Descriptors.FirstWriteWinsKeepsValue | com.mousefeed/src/com/mousefeed/eclipse/ActionDescImpl.java:87-94 | once set, a first-write-wins field keeps its value: an equal write passes, a different one fails |
| Descriptors.LastWriteWinsOverwrites | com.mousefeed/src/com/mousefeed/eclipse/ActionDesc.java:82-87 | a non-blank write to a last-write-wins field always replaces the value |
| Descriptors.WithClassName | com.mousefeed/src/com/mousefeed/eclipse/ActionDescImpl.java:64-71 | the class name follows the discipline's rule; the other fields are untouched |
| Descriptors.WithDef | com.mousefeed/src/com/mousefeed/eclipse/ActionDescImpl.java:87-94 | the definition id follows the discipline's rule; the other fields are untouched |
| Descriptors.IdPriority | com.mousefeed/src/com/mousefeed/eclipse/ActionDescImpl.java:40-48 | the id is the definition id if not blank, else the class name if not blank, else the label; a non-blank label gives a non-blank id |
| Descriptors.ActionDesc.GetId | com.mousefeed/src/com/mousefeed/client/collector/AbstractActionDesc.java:46-48 | the base class's id is its label; the Eclipse descriptors' id follows the priority rule |
| Descriptors.ActionDesc.SetLabel | com.mousefeed/src/com/mousefeed/client/collector/AbstractActionDesc.java:63-66 | the object's new state and outcome are those of `WithLabel` |
| Descriptors.ActionDesc.SetAccelerator | com.mousefeed/src/com/mousefeed/client/collector/AbstractActionDesc.java:91-93 | only the accelerator changes, to the given value (null included) |
| Descriptors.ActionDesc.SetClassName | com.mousefeed/src/com/mousefeed/eclipse/ActionDesc.java:61-66 | the object's new state and outcome are those of `WithClassName` |
| Descriptors.ActionDesc.SetDef | com.mousefeed/src/com/mousefeed/eclipse/ActionDescImpl.java:87-94 | the object's new state and outcome are those of `WithDef` |
| Locator.IsSearchable | com.mousefeed/src/com/mousefeed/eclipse/TextActionHandlerActionLocator.java:57-61 | null is refused; otherwise true iff the class name starts with `org.eclipse.ui.actions.TextActionHandler$` |
| Locator.TextActionHandler | com.mousefeed/src/com/mousefeed/eclipse/TextActionHandlerActionLocator.java:125-137 | a missing `this$0` field is an AssertionError; a null handler or one of another class is refused; otherwise the enclosing handler |
| Locator.SearchFields | com.mousefeed/src/com/mousefeed/eclipse/TextActionHandlerActionLocator.java:87-106 | any id found is the one mapped to one of the searched fields; failures are AssertionErrors |
| Locator.SearchFindsFirst | com.mousefeed/src/com/mousefeed/eclipse/TextActionHandlerActionLocator.java:94-104 | the search returns the id of the first field that holds an action of the requested class |
| Locator.SearchFindsNothing | com.mousefeed/src/com/mousefeed/eclipse/TextActionHandlerActionLocator.java:94-105 | the search returns null iff every field exists and none holds such an action |
| Locator.FindActionDefinitionId | com.mousefeed/src/com/mousefeed/eclipse/TextActionHandlerActionLocator.java:70-80 | a found id is the copy command's id; success needs a well-formed handler; failures are AssertionError or IllegalArgument |
| Locator.FindsWrappedCopyAction | com.mousefeed/src/com/mousefeed/eclipse/TextActionHandlerActionLocator.java:43-48 | a handler whose `copyAction` has the requested class yields `org.eclipse.ui.edit.copy` |
| ActionGenerators.AcceleratorForDefinition | com.mousefeed/src/com/mousefeed/eclipse/ActionActionDescGenerator.java:176-183 | a blank definition id has no accelerator text |
| ActionGenerators.FromKeyCode | com.mousefeed/src/com/mousefeed/eclipse/ActionActionDescGenerator.java:161-165 | key code 0 changes nothing; any other replaces the accelerator with its key-stroke text; nothing else changes |
| ActionGenerators.FromDefinition | com.mousefeed/src/com/mousefeed/eclipse/ActionActionDescGenerator.java:144-153 | a null id changes nothing; it fails iff `setDef` refuses; the registered accelerator text replaces the accelerator; label and class name are kept |
| ActionGenerators.FromBindingData | com.mousefeed/src/com/mousefeed/eclipse/ActionActionDescGenerator.java:269-297 | one clause per branch: null bound action gives null; a bound action of the requested class gives the trigger text; a non-retarget action, or a retarget action without handler, gives null; a handler of the requested class gives the trigger text; a searchable handler gives the accelerator of the located definition id, locator failures propagating; any other handler gives null |
| ActionGenerators.RetargetToWrappedCopyAction | com.mousefeed/src/com/mousefeed/eclipse/ActionActionDescGenerator.java:283-294 | a retarget action whose handler is `TextActionHandler`'s inner action wrapping an action of the requested class answers with the copy command's accelerator |
| ActionGenerators.ScanFindsFirst | com.mousefeed/src/com/mousefeed/eclipse/ActionActionDescGenerator.java:232-249 | the scan answers with the first eligible binding that yields an accelerator |
| ActionGenerators.ScanFindsNothing | com.mousefeed/src/com/mousefeed/eclipse/ActionActionDescGenerator.java:232-251 | the scan returns null iff it passes over every binding |
| ActionGenerators.ScanResultIsDiscarded | com.mousefeed/src/com/mousefeed/eclipse/ActionActionDescGenerator.java:135 | the binding scan's answer never changes the descriptor; bindings decide only whether extraction throws |
| ActionGenerators.ExtractKeepsLabelClassAndAccelerator | com.mousefeed/src/com/mousefeed/eclipse/ActionActionDescGenerator.java:122-136 | extraction keeps label and class name, and never clears an accelerator |
| ActionGenerators.DefinitionOverridesKeyCode | com.mousefeed/src/com/mousefeed/eclipse/ActionActionDescGenerator.java:124-125 | for a plain action the definition's accelerator text beats the key code, which beats the old value |
| ActionGenerators.RetargetDefinitionConflict | com.mousefeed/src/com/mousefeed/eclipse/ActionActionDescGenerator.java:128-132 | with first-write-wins, a retarget action and its handler with different definition ids make generation fail with IllegalArgument |
| ActionGenerators.DescribedAction | com.mousefeed/src/com/mousefeed/eclipse/ActionActionDescGenerator.java:96-113 | a generated descriptor carries the text/tool-tip/simple-name label without '&', the class name, and an id that is the definition id or class name |
| ActionGenerators.BlankLabelIsRefused | com.mousefeed/src/com/mousefeed/eclipse/ActionActionEventGenerator.java:95-103 | a blank chosen label (or the older generator's null text) fails with IllegalArgument |
| ActionGenerators.ActionActionDescGenerator.Generate | com.mousefeed/src/com/mousefeed/eclipse/ActionActionDescGenerator.java:96-113 | null action is refused; success iff `DescribeAction` succeeds, with a fresh descriptor whose state is its value |
| ActionGenerators.ActionActionDescGenerator.ExtractActionData | com.mousefeed/src/com/mousefeed/eclipse/ActionActionDescGenerator.java:122-136 | null is refused; otherwise the descriptor's new state and outcome are those of `ExtractData` |
| ActionGenerators.ActionActionDescGenerator.FromActionBinding | com.mousefeed/src/com/mousefeed/eclipse/ActionActionDescGenerator.java:198-208 | equals `BindingAccelerator`: null for null, through the handler for a retarget action, the scan otherwise |
| ActionGenerators.ActionActionDescGenerator.ScanBindings | com.mousefeed/src/com/mousefeed/eclipse/ActionActionDescGenerator.java:220-252 | the loop's answer equals `ScanMatches`, whose first-match properties are the two Scan lemmas |
| CommandGenerators.DescribeCommand | com.mousefeed/src/com/mousefeed/eclipse/CommandActionDescGenerator.java:62-80 | undefined name is a RuntimeException; blank name is refused; label without '&'; accelerator is the best active binding; id is the command id |
| CommandGenerators.DescribeLocated | com.mousefeed/src/com/mousefeed/eclipse/CommandActionDescGenerator.java:63-66 | no command located gives null; otherwise the command's descriptor |
| CommandGenerators.GenerateFromCommand | com.mousefeed/src/com/mousefeed/eclipse/CommandActionDescGenerator.java:62-80 | the object result is `DescribeLocated` in object form, a fresh descriptor |
| CommandGenerators.CommandActionDescGenerator.Generate | com.mousefeed/src/com/mousefeed/eclipse/CommandActionDescGenerator.java:58-81 | null item is refused; otherwise as `DescribeLocated` for the located command |
| CommandGenerators.HandledActionDescGenerator.Generate | com.mousefeed/src/com/mousefeed/eclipse/HandledActionDescGenerator.java:65-88 | null item is refused; otherwise as `DescribeLocated` for the item's command |
| Overrides.ActionOnWrongInvocationMode.FromActionDesc | com.mousefeed/src/com/mousefeed/eclipse/preferences/ActionOnWrongInvocationMode.java:54-58 | null is refused; success iff id and label are non-blank (always for a valid descriptor with a label); copies id and label, no mode |
| Overrides.ActionOnWrongInvocationMode.SetId | com.mousefeed/src/com/mousefeed/eclipse/preferences/ActionOnWrongInvocationMode.java:72-75 | fails iff blank, changing nothing; otherwise only the id changes |
| Overrides.ActionOnWrongInvocationMode.SetLabel | com.mousefeed/src/com/mousefeed/eclipse/preferences/ActionOnWrongInvocationMode.java:89-92 | fails iff blank, changing nothing; otherwise only the label changes, kept verbatim |
| Overrides.ActionOnWrongInvocationMode.SetOnWrongInvocationMode | com.mousefeed/src/com/mousefeed/eclipse/preferences/ActionOnWrongInvocationMode.java:106-110 | fails iff null, changing nothing; otherwise only the mode changes |
| Overrides.ActionOnWrongInvocationMode.Clone | com.mousefeed/src/com/mousefeed/eclipse/preferences/PreferenceAccessor.java:251 | a fresh object with equal fields |
| Preferences.GlobalMode | com.mousefeed/src/com/mousefeed/eclipse/preferences/PreferenceAccessor.java:188-194 | null stored value gives REMIND; otherwise `valueOf` of the stored name |
| Preferences.DefaultStoreYieldsDefaultMode | com.mousefeed/src/com/mousefeed/eclipse/preferences/PreferenceInitializer.java:43-58 | the initializer's defaults make the global policy REMIND |
| Preferences.FromRecord | com.mousefeed/src/com/mousefeed/eclipse/preferences/PreferenceAccessor.java:320-328 | blank label or id is refused; on success the override carries the record's id and label and the policy named by the record |
| Preferences.RecordsOf | com.mousefeed/src/com/mousefeed/eclipse/preferences/PreferenceAccessor.java:358-369 | one memento child per override, in the given order |
| Preferences.LoadedIsPersistable | com.mousefeed/src/com/mousefeed/eclipse/preferences/PreferenceAccessor.java:317-330 | every loaded override is keyed by its own non-blank id and has a non-blank label and a mode |
| Preferences.LoadRecordsOf | com.mousefeed/src/com/mousefeed/eclipse/preferences/PreferenceAccessor.java:317-369 | loading the memento written for some of the keys gives back exactly those overrides |
| Preferences.SaveThenLoad | com.mousefeed/src/com/mousefeed/eclipse/preferences/PreferenceAccessor.java:317-369 | round trip: for every iteration order, saving a persistable table and loading it back gives the same table |
| Preferences.SaveFailsOnMissingMode | com.mousefeed/src/com/mousefeed/eclipse/preferences/PreferenceAccessor.java:365-366 | writing the memento fails (NullPointerException) iff some override has no mode |
| Preferences.PutAll | com.mousefeed/src/com/mousefeed/eclipse/preferences/PreferenceAccessor.java:247-256 | every key of the result was there before or is the id of a given override |
| Preferences.PutAllLastWins | com.mousefeed/src/com/mousefeed/eclipse/preferences/PreferenceAccessor.java:248-256 | the last override with a given id is the one kept |
| Preferences.PutAllKeyedById | com.mousefeed/src/com/mousefeed/eclipse/preferences/PreferenceAccessor.java:255 | every entry is keyed by its own id |
| Preferences.SavedFileLoadsBack | com.mousefeed/src/com/mousefeed/eclipse/preferences/PreferenceAccessor.java:335-352 | after a save of a persistable table the file loads back to that table |
| Preferences.LoadStopsAtFailure | com.mousefeed/src/com/mousefeed/eclipse/preferences/PreferenceAccessor.java:320-329 | the first invalid child ends loading; later children do not matter |
| Preferences.LoadRecord | com.mousefeed/src/com/mousefeed/eclipse/preferences/PreferenceAccessor.java:321-327 | the setters' object agrees with `FromRecord`: same success, failure and contents |
| Preferences.PreferenceAccessor.Create | com.mousefeed/src/com/mousefeed/eclipse/preferences/PreferenceAccessor.java:104-106 | construction succeeds iff the file loads; the table is what loading gives, and it is persistable |
| Preferences.PreferenceAccessor.LoadActionsOnWrongInvocationMode | com.mousefeed/src/com/mousefeed/eclipse/preferences/PreferenceAccessor.java:317-330 | the map is cleared and refilled to what `LoadAll` gives, with its failure |
| Preferences.PreferenceAccessor.StoreInvocationControlEnabled | com.mousefeed/src/com/mousefeed/eclipse/preferences/PreferenceAccessor.java:132-136 | the switch reads back as stored; nothing else changes |
| Preferences.PreferenceAccessor.StoreConfigureKeyboardShortcutEnabled | com.mousefeed/src/com/mousefeed/eclipse/preferences/PreferenceAccessor.java:155-159 | the switch reads back as stored; nothing else changes |
| Preferences.PreferenceAccessor.StoreConfigureKeyboardShortcutThreshold | com.mousefeed/src/com/mousefeed/eclipse/preferences/PreferenceAccessor.java:177-181 | the threshold reads back as stored; nothing else changes |
| Preferences.PreferenceAccessor.StoreOnWrongInvocationMode | com.mousefeed/src/com/mousefeed/eclipse/preferences/PreferenceAccessor.java:276-280 | null is refused; a stored policy reads back as itself; the other preferences are unchanged |
| Preferences.PreferenceAccessor.GetOnWrongInvocationMode | com.mousefeed/src/com/mousefeed/eclipse/preferences/PreferenceAccessor.java:205-210 | null id is refused; an id without override gives null; otherwise the override's mode |
| Preferences.PreferenceAccessor.GetActionsOnWrongInvocationMode | com.mousefeed/src/com/mousefeed/eclipse/preferences/PreferenceAccessor.java:233-236 | exactly the override objects held in the map |
| Preferences.PreferenceAccessor.UniqueIds | com.mousefeed/src/com/mousefeed/eclipse/preferences/PreferenceAccessor.java:224-236 | while the map is keyed by its objects' ids (as after construction and every load), any two returned objects with the same id are the same object, so all ids are unique |
| Preferences.PreferenceAccessor.CreateActionsOnWrongInvocationModeMemento | com.mousefeed/src/com/mousefeed/eclipse/preferences/PreferenceAccessor.java:358-369 | for some enumeration of the map's keys, the result is `RecordsOf` in that order |
| Preferences.PreferenceAccessor.SaveActionsOnWrongInvocationMode | com.mousefeed/src/com/mousefeed/eclipse/preferences/PreferenceAccessor.java:335-352 | the file becomes a memento of the table, or is untouched when writing fails |
| Preferences.PreferenceAccessor.SetOnWrongInvocationMode | com.mousefeed/src/com/mousefeed/eclipse/preferences/PreferenceAccessor.java:216-221 | null is refused; the object itself is stored under its id, its mode is then the action's override, and the table is saved |
| Preferences.PreferenceAccessor.SetActionsOnWrongInvocationMode | com.mousefeed/src/com/mousefeed/eclipse/preferences/PreferenceAccessor.java:245-258 | the map becomes fresh copies of the given overrides, later ids winning, and is saved |
| Preferences.PreferenceAccessor.CopyIntoMap | com.mousefeed/src/com/mousefeed/eclipse/preferences/PreferenceAccessor.java:247-256 | the loop builds exactly `PutAll` of the overrides' snapshots, from fresh clones |
| Preferences.PreferenceAccessor.RemoveOnWrongInvocationMode | com.mousefeed/src/com/mousefeed/eclipse/preferences/PreferenceAccessor.java:266-270 | null is refused; the override is removed (the lookup then gives null) and the table is saved |
| Collector.Event.SetClientEvent | com.mousefeed/src/com/mousefeed/client/collector/Event.java:56-59 | null is refused, changing nothing; otherwise the client event reads back as set |
| Collector.Collector.OnAction | com.mousefeed/src/com/mousefeed/client/collector/Collector.java:40-43 | null is refused, changing nothing; otherwise the action becomes the last action; repeating it changes nothing |
| Dispatch.EffectiveMode | com.mousefeed/src/com/mousefeed/eclipse/GlobalSelectionListener.java:286-290 | an override with a mode wins; otherwise the global policy; a null id is refused |
| Dispatch.CountsOnlyItsOwnAction | com.mousefeed/src/com/mousefeed/eclipse/GlobalSelectionListener.java:203-209 | feedback changes only the action's own counter, by a Java-int increment, and only with control on and no shortcut |
| Dispatch.PromptCadence | com.mousefeed/src/com/mousefeed/eclipse/GlobalSelectionListener.java:203-214 | over n invocations of a new action without shortcut, the counter reaches n and the k-th invocation prompts iff prompting is on, k > threshold and the command is configurable |
| Dispatch.CounterWrapsAround | com.mousefeed/src/com/mousefeed/eclipse/GlobalSelectionListener.java:208-210 | the invocation after 2^31-1 wraps the counter to the minimum, and no prompt appears |
| Dispatch.ControlOffDoesNothing | com.mousefeed/src/com/mousefeed/eclipse/GlobalSelectionListener.java:199-201 | with invocation control off nothing is counted or shown |
| Dispatch.OnlyEnforceCancels | com.mousefeed/src/com/mousefeed/eclipse/GlobalSelectionListener.java:217-232 | the event is cancelled iff control is on, the action has a shortcut and its effective policy is ENFORCE |
| Dispatch.ConfigureCommandIsIgnored | com.mousefeed/src/com/mousefeed/eclipse/GlobalSelectionListener.java:160-163 | the configure command is never counted, reminded, cancelled or logged |
| Dispatch.ResponseExtendsPopUps | com.mousefeed/src/com/mousefeed/eclipse/GlobalSelectionListener.java:158-167 | a response keeps earlier pop-ups, adds at most one, and leaves the event alone or cancels it |
| Dispatch.GlobalSelectionListener.HandleEvent | com.mousefeed/src/com/mousefeed/eclipse/GlobalSelectionListener.java:114-124 | only tool or menu items carrying a contribution item are processed, as `RespondToItem` specifies |
| Dispatch.GlobalSelectionListener.ProcessContributionItem | com.mousefeed/src/com/mousefeed/eclipse/GlobalSelectionListener.java:126-147 | listener, event and collector end as `RespondToItem` says: sub-items unwrapped, generator failures propagated, a null descriptor a NullPointerException |
| Dispatch.GlobalSelectionListener.ProcessGeneratedItem | com.mousefeed/src/com/mousefeed/eclipse/GlobalSelectionListener.java:131-143 | an action, command or handled item is described by its own generator; a generator failure is the outcome, otherwise the state ends as `RespondToItem` says |
| Dispatch.GlobalSelectionListener.ProcessActionDesc | com.mousefeed/src/com/mousefeed/eclipse/GlobalSelectionListener.java:158-167 | null is a NullPointerException; otherwise the state follows `Respond` and the descriptor is logged when fed back |
| Dispatch.GlobalSelectionListener.GiveActionFeedback | com.mousefeed/src/com/mousefeed/eclipse/GlobalSelectionListener.java:194-233 | counters, pop-ups and the event follow `GiveFeedback`; a failure changes nothing; only a cancelling reminder touches the event |
| Dispatch.GlobalSelectionListener.IsConfigureKeyboardShortcutEnabled | com.mousefeed/src/com/mousefeed/eclipse/GlobalSelectionListener.java:270-276 | true iff the switch is on and the count exceeds the threshold |
| Dispatch.GetOnWrongInvocationMode | com.mousefeed/src/com/mousefeed/eclipse/GlobalSelectionListener.java:286-290 | the lookup both listeners declare alike (also FeedbackEventListener.java lines 81-85): equals `EffectiveMode` on the accessor's table, so the override's policy wins and the global policy is the fallback |
| Dispatch.CancelEvent | com.mousefeed/src/com/mousefeed/eclipse/GlobalSelectionListener.java:298-301 | the event ends with type `SWT.None` and `doit` false |
| Dispatch.ListenersAgreeOnShortcuts | com.mousefeed/src/com/mousefeed/eclipse/FeedbackEventListener.java:45-73 | for actions with a shortcut both listeners fail alike or show the same pop-up, and count nothing |
| Dispatch.FeedbackEventListener.OnEvent | com.mousefeed/src/com/mousefeed/eclipse/FeedbackEventListener.java:45-73 | null is refused; pop-ups and the client event follow `EventFeedback`; ENFORCE without a client event is a NullPointerException |
| PreferenceTable.CanModify | com.mousefeed/src/com/mousefeed/eclipse/preferences/ActionInvocationModeTableCellModifier.java:60-65 | true exactly for the property "MODE", whatever the element |
| PreferenceTable.GetValue | com.mousefeed/src/com/mousefeed/eclipse/preferences/ActionInvocationModeTableCellModifier.java:68-79 | "LABEL" gives the label, "MODE" the ordinal selecting the row's mode, others null; a missing row or mode is a NullPointerException |
| PreferenceTable.CellModifier.Create | com.mousefeed/src/com/mousefeed/eclipse/preferences/ActionInvocationModeTableCellModifier.java:46-57 | a null viewer is refused with IllegalArgument |
| PreferenceTable.CellModifier.Modify | com.mousefeed/src/com/mousefeed/eclipse/preferences/ActionInvocationModeTableCellModifier.java:82-97 | items unwrapped; for "MODE" the row gets `values()[value]` and reads back as `value`, and the viewer is refreshed; bad index fails; other properties change nothing |
| PreferenceTable.ModeCellRoundTrip | com.mousefeed/src/com/mousefeed/eclipse/preferences/ActionInvocationModeTableCellModifier.java:74-90 | the ordinal read from a row selects that row's mode again |
| PreferenceTable.IsLabelProperty | com.mousefeed/src/com/mousefeed/eclipse/preferences/ActionInvocationModeTableLabelProvider.java:33-42 | false for "LABEL", true for "MODE", IllegalArgument otherwise |
| PreferenceTable.EditableIsLabelProperty | com.mousefeed/src/com/mousefeed/eclipse/preferences/ActionInvocationModeTableLabelProvider.java:33-42 | the editable property is exactly the label-affecting one |
| PreferenceTable.GetColumnImage | com.mousefeed/src/com/mousefeed/eclipse/preferences/ActionInvocationModeTableLabelProvider.java:47-49 | null for every element and column |
| PreferenceTable.GetColumnText | com.mousefeed/src/com/mousefeed/eclipse/preferences/ActionInvocationModeTableLabelProvider.java:52-63 | column 0 the label, column 1 the mode's label with the lookup's own failure, other indexes IllegalArgument; a missing row, or a row without a mode in column 1, is a NullPointerException |
| PreferenceTable.TextMatchesValue | com.mousefeed/src/com/mousefeed/eclipse/preferences/ActionInvocationModeTableLabelProvider.java:52-63 | the label provider shows what the cell modifier edits: the label column's text is the label value, the mode column's text is the label of the mode the cell value selects, and both fail alike on a row without a mode |
| Providers.Provider.Get | com.mousefeed/src/com/mousefeed/eclipse/PreferenceStoreProvider.java:67-73 | IllegalState before initialization; afterwards the held value |
| Providers.Provider.Set | com.mousefeed/src/com/mousefeed/eclipse/PluginProvider.java:80-87 | null refused first, then a second initialization; the first success makes `Get` return the value; a failure changes nothing |
| ConfigureDialog.SelectedMode | com.mousefeed/src/com/mousefeed/eclipse/commands/ConfigureActionInvocationDialog.java:167-171 | index 0 is "use the global setting"; index i selects the policy with ordinal i-1; out of range is IndexOutOfBounds |
| ConfigureDialog.SelectionRoundTrip | com.mousefeed/src/com/mousefeed/eclipse/commands/ConfigureActionInvocationDialog.java:156-171 | the entry shown for a setting selects that setting again |
| ConfigureDialog.OkPressed | com.mousefeed/src/com/mousefeed/eclipse/commands/ConfigureActionInvocationDialog.java:137-149 | the global entry removes exactly the action's override, so the global policy applies; a chosen policy puts exactly the action's override with that policy, which becomes its effective policy; other overrides and the store are untouched and the table is saved (a failed save keeps the new table and reports the failure); a bad index or blank label or id changes nothing |

## Left out

- Everything SWT/JFace draws is left out: the pop-up windows, their layout and timing, the preference pages, and the dialog's widgets. A pop-up is recorded as a value in `popUps`, and the table viewer as a list of refresh requests.
- File I/O and XML are left out. The overrides file is a sequence of records, one per `action` child. An attribute written as null is absent. Read/write `IOException`s and `WorkbenchException`s are not modelled. Likewise the file-exists/empty check and the file's location.
- Reflection is modelled by its outcome: `getHandler` via reflection, `this$0` and the handler's private fields. A missing field is an AssertionError. `getCommandHandler`'s own failures are not modelled.
- `MessageFormat.format` is a parameter of the lookup. `ResourceBundle` is a map.
- `PreferenceAccessor`, `PreferenceStoreProvider`, `PluginProvider` and `Collector` are singletons (`INSTANCE`, `getInstance`). Instead, the object is passed in, and `Activator` is not part of this model.
- `commandService.refreshElements` in `processActionDesc` is left out; it only repaints UI.
- `logUserAction` is modelled by `Collector.OnAction`. The user-activity view is left out.
- `ActionEvent` and `ActionEventImpl` are not part of this model. So:
  - the feedback listener takes the action event's data as a descriptor state;
  - the older event generator takes its descriptor's setter rule as a parameter (`Revision`).
- `Event.getType` is abstract in the source and is not modelled.
- `IPreferenceStore` is a record of the four preference values. Its defaults come from `PreferenceInitializer`.
- `Overrides.ActionOnWrongInvocationMode.Clone`: the class as written declares no superclass, does not implement `Cloneable` and declares no `clone()`. `Object.clone()` is protected, so the call `mode.clone()` in `setActionsOnWrongInvocationMode` does not compile as written. The model copies the fields instead, which is the copy that method and `getActionsOnWrongInvocationMode` document.
- `Preferences.PreferenceAccessor.CreateActionsOnWrongInvocationModeMemento`: the `HashMap` iteration order is not modelled; the result is proved for whichever order is taken.
- Java casts that would throw `ClassCastException` are not modelled. Examples are a table element that is not an override, or an action event of another class. The element types rule them out.
- The property names passed to the table's cell modifier and label provider are never null in the model.
- `Dispatch.Configurable` stands for `isConfigurableAction`. The command service's parameterized-command combinations are a workbench predicate, and an undefined command counts as not configurable.
- Concurrency is not modelled; SWT events arrive on one UI thread.
