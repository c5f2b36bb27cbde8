/**
 * Building a descriptor for a JFace action (eclipse/ActionActionDescGenerator.java
 * and its older copy eclipse/ActionActionEventGenerator.java): the label,
 * the class name, the definition id and the accelerator, the latter looked
 * up from the key code, from the definition id, from a retarget action's
 * handler, and by scanning the key bindings.
 */
module ActionGenerators {
  import opened Outcomes
  import opened Text
  import opened Descriptors
  import opened Platform
  import opened Locator

  /**
   * Which of the two generators: `DescRevision` is `ActionActionDescGenerator`;
   * `EventRevision` is the older `ActionActionEventGenerator`, whose descriptor
   * type is not part of this model and may either refuse (`overwrites` false)
   * or overwrite (`overwrites` true) a second definition id.
   */
  datatype Revision = DescRevision | EventRevision(overwrites: bool)

  /** The setter discipline of the descriptors a generator creates. */
  function DisciplineOf(revision: Revision): (r: Discipline)
    ensures r != LabelOnly
  {
    if revision.EventRevision? && revision.overwrites then LastWriteWins else FirstWriteWins
  }

  /**
   * The label offered to the descriptor: the action text, else its tool tip
   * text, else its class's simple name; the older generator offers the text
   * only, null included.
   */
  function LabelOf(revision: Revision, action: Action): Option<string> {
    if revision.EventRevision? || action.text.Some? then action.text
    else if action.toolTipText.Some? then action.toolTipText
    else Some(action.simpleName)
  }

  /** `findAcceleratorForActionDefinition`: no lookup for a blank id. */
  function AcceleratorForDefinition(w: Workbench, definitionId: Option<string>): (r: Option<string>)
    ensures IsBlank(definitionId) ==> r.None?
  {
    if IsBlank(definitionId) then None else w.acceleratorText(definitionId.value)
  }

  /** `fromActionAccelerator`: a non-zero key code replaces the accelerator with its key stroke text. */
  function FromKeyCode(w: Workbench, d: DescState, keyCode: int): (r: DescState)
    ensures r.labelText == d.labelText && r.className == d.className && r.def == d.def
    ensures keyCode == 0 ==> r == d
    ensures keyCode != 0 ==> r.accelerator == Some(w.keyToStr(keyCode))
  {
    if keyCode != 0 then d.(accelerator := Some(w.keyToStr(keyCode))) else d
  }

  /**
   * `fromActionDefinition`: a non-null id is offered to `setDef`, and the
   * accelerator text registered for it, when there is one, replaces the
   * accelerator.
   */
  function FromDefinition(w: Workbench, discipline: Discipline, d: DescState, definitionId: Option<string>): (r: Result<DescState>)
    requires discipline != LabelOnly
    ensures definitionId.None? ==> r == Ok(d)
    ensures r.Ok? ==> r.value.labelText == d.labelText && r.value.className == d.className
    ensures r.Ok? ==>
      var s := AcceleratorForDefinition(w, definitionId); r.value.accelerator == (if s.Some? then s else d.accelerator)
    ensures r.Err? <==> definitionId.Some? && WithDef(discipline, d, definitionId).Err?
  {
    if definitionId.None? then Ok(d)
    else
      var d1 :- WithDef(discipline, d, definitionId);
      var s := AcceleratorForDefinition(w, definitionId);
      if s.Some? then Ok(d1.(accelerator := s)) else Ok(d1)
  }

  /** `isCommandEnabled`: the command is defined and its activity identifier is enabled. */
  predicate IsCommandEnabled(w: Workbench, command: Command) {
    command.defined && w.activityEnabled(command.id)
  }

  /** A binding the scan looks at: its handler is an `ActionHandler` and its command is enabled. */
  predicate Eligible(w: Workbench, binding: Binding) {
    binding.handler.ActionHandler? && IsCommandEnabled(w, binding.command)
  }

  /**
   * `getFromBindingData` for an eligible binding: its trigger text when the
   * bound action, or the handler of a bound retarget action, has the class of
   * `action`; when that handler is one of `TextActionHandler`'s inner actions,
   * the accelerator of the definition id found inside it; null otherwise.
   */
  function FromBindingData(w: Workbench, action: Action, binding: Binding): (r: Result<Option<string>>)
    requires binding.handler.ActionHandler?
    ensures binding.handler.action.None? ==> r == Ok(None)
    ensures binding.handler.action.Some? && binding.handler.action.value.className == action.className ==>
      r == Ok(Some(binding.trigger))
    ensures binding.handler.action.Some? && binding.handler.action.value.className != action.className ==>
      var bound := binding.handler.action.value;
      && (!bound.kind.RetargetAction? ==> r == Ok(None))
      && (bound.kind.RetargetAction? && bound.kind.actionHandler.None? ==> r == Ok(None))
      && (bound.kind.RetargetAction? && bound.kind.actionHandler.Some? ==>
            var h := bound.kind.actionHandler.value;
            && (h.className == action.className ==> r == Ok(Some(binding.trigger)))
            && (h.className != action.className && IsSearchable(Some(h)) == Ok(true) ==>
                  r == (match FindActionDefinitionId(action, h)
                        case Ok(id) => Ok(AcceleratorForDefinition(w, id))
                        case Err(f) => Err(f)))
            && (h.className != action.className && IsSearchable(Some(h)) != Ok(true) ==> r == Ok(None)))
  {
    match binding.handler.action
    case None => Ok(None)
    case Some(bound) =>
      if bound.className == action.className then Ok(Some(binding.trigger))
      else if !bound.kind.RetargetAction? || bound.kind.actionHandler.None? then Ok(None)
      else
        var searchTarget := bound.kind.actionHandler.value;
        if searchTarget.className == action.className then Ok(Some(binding.trigger))
        else if IsSearchable(Some(searchTarget)) == Ok(true) then
          var id :- FindActionDefinitionId(action, searchTarget);
          Ok(AcceleratorForDefinition(w, id))
        else Ok(None)
  }

  /**
   * A bound retarget action whose current handler is `TextActionHandler`'s
   * inner action wrapping an action of the requested class answers with the
   * accelerator of the copy command.
   */
  lemma RetargetToWrappedCopyAction(w: Workbench, action: Action, binding: Binding)
    requires binding.handler.ActionHandler? && binding.handler.action.Some?
    requires binding.handler.action.value.className != action.className
    requires binding.handler.action.value.kind.RetargetAction?
    requires binding.handler.action.value.kind.actionHandler.Some?
    requires var h := binding.handler.action.value.kind.actionHandler.value;
      && h.className != action.className
      && StartsWith(h.className, HandlerClassName + "$")
      && TextActionHandler(h).Ok?
      && HoldsSameClass(TextActionHandler(h).value, "copyAction", action)
    ensures FromBindingData(w, action, binding) == Ok(AcceleratorForDefinition(w, Some("org.eclipse.ui.edit.copy")))
  {
    FindsWrappedCopyAction(action, binding.handler.action.value.kind.actionHandler.value);
  }

  /** The loop of `scanBindings` over the remaining partial matches. */
  function ScanFrom(w: Workbench, action: Action, matches: seq<Binding>): Result<Option<string>> {
    if matches == [] then Ok(None)
    else if !Eligible(w, matches[0]) then ScanFrom(w, action, matches[1..])
    else
      var accelerator :- FromBindingData(w, action, matches[0]);
      if accelerator.Some? then Ok(accelerator) else ScanFrom(w, action, matches[1..])
  }

  /** A binding the scan passes over without an answer. */
  predicate Skipped(w: Workbench, action: Action, binding: Binding) {
    !Eligible(w, binding) || FromBindingData(w, action, binding) == Ok(None)
  }

  /** The scan answers with the first eligible binding that yields an accelerator. */
  lemma {:induction false} ScanFindsFirst(w: Workbench, action: Action, matches: seq<Binding>, i: nat)
    requires i < |matches|
    requires forall j :: 0 <= j < i ==> Skipped(w, action, matches[j])
    requires Eligible(w, matches[i]) && FromBindingData(w, action, matches[i]).Ok?
    requires FromBindingData(w, action, matches[i]).value.Some?
    ensures ScanFrom(w, action, matches) == FromBindingData(w, action, matches[i])
  {
    if i > 0 {
      assert Skipped(w, action, matches[0]);
      ScanFindsFirst(w, action, matches[1..], i - 1);
    }
  }

  /** The scan finds nothing exactly when it passes over every binding. */
  lemma {:induction false} ScanFindsNothing(w: Workbench, action: Action, matches: seq<Binding>)
    ensures ScanFrom(w, action, matches) == Ok(None) <==> forall j :: 0 <= j < |matches| ==> Skipped(w, action, matches[j])
  {
    if matches != [] {
      ScanFindsNothing(w, action, matches[1..]);
      assert forall j :: 1 <= j < |matches| ==> matches[j] == matches[1..][j - 1];
    }
  }

  /**
   * `scanBindings`: the newer generator scans only when the binding service
   * is the workbench's own implementation; the older one always scans.
   */
  function ScanMatches(revision: Revision, w: Workbench, action: Action): Result<Option<string>> {
    if revision.DescRevision? && !w.internalBindingService then Ok(None)
    else ScanFrom(w, action, w.partialMatches)
  }

  /** `fromActionBinding`: a retarget action is looked up through its handler. */
  function BindingAccelerator(revision: Revision, w: Workbench, action: Option<Action>): Result<Option<string>>
    decreases action
  {
    match action
    case None => Ok(None)
    case Some(a) =>
      if a.kind.RetargetAction? then BindingAccelerator(revision, w, a.kind.actionHandler)
      else ScanMatches(revision, w, a)
  }

  /**
   * `extractActionData` applied to a descriptor in state `d`: key code, then
   * definition id, then the handler of a retarget action, then the binding
   * scan, whose answer is dropped but whose exceptions are not.
   */
  function ExtractData(revision: Revision, w: Workbench, d: DescState, action: Action): Result<DescState>
    decreases action
  {
    var d1 := FromKeyCode(w, d, action.accelerator);
    var d2 :- FromDefinition(w, DisciplineOf(revision), d1, action.definitionId);
    var d3 :- if action.kind.RetargetAction? && action.kind.actionHandler.Some?
              then ExtractData(revision, w, d2, action.kind.actionHandler.value)
              else Ok(d2);
    var _ :- BindingAccelerator(revision, w, Some(action));
    Ok(d3)
  }

  /** `generate`: a fresh descriptor, labelled, given the action's class name, then filled in. */
  function DescribeAction(revision: Revision, w: Workbench, action: Option<Action>): Result<DescState> {
    if action.None? then Err(IllegalArgument)
    else
      var d0 :- WithLabel(Fresh, LabelOf(revision, action.value));
      var d1 :- WithClassName(DisciplineOf(revision), d0, Some(action.value.className));
      ExtractData(revision, w, d1, action.value)
  }

  /** Two workbenches that render key codes and definition ids alike. */
  ghost predicate SameLookups(w1: Workbench, w2: Workbench) {
    (forall k :: w1.keyToStr(k) == w2.keyToStr(k)) && (forall id :: w1.acceleratorText(id) == w2.acceleratorText(id))
  }

  /**
   * The binding scan never changes the descriptor: with the same key code and
   * definition lookups, bindings, handlers and activities only decide whether
   * extraction throws, not what it produces.
   */
  lemma {:induction false} ScanResultIsDiscarded(revision: Revision, w1: Workbench, w2: Workbench, d: DescState, action: Action)
    requires SameLookups(w1, w2)
    requires ExtractData(revision, w1, d, action).Ok? && ExtractData(revision, w2, d, action).Ok?
    ensures ExtractData(revision, w1, d, action).value == ExtractData(revision, w2, d, action).value
    decreases action
  {
    var d2 := FromDefinition(w1, DisciplineOf(revision), FromKeyCode(w1, d, action.accelerator), action.definitionId);
    assert d2 == FromDefinition(w2, DisciplineOf(revision), FromKeyCode(w2, d, action.accelerator), action.definitionId);
    if action.kind.RetargetAction? && action.kind.actionHandler.Some? {
      ScanResultIsDiscarded(revision, w1, w2, d2.value, action.kind.actionHandler.value);
    }
  }

  /** Extraction touches only the definition id and the accelerator, and never clears an accelerator. */
  lemma {:induction false} ExtractKeepsLabelClassAndAccelerator(revision: Revision, w: Workbench, d: DescState, action: Action)
    requires ExtractData(revision, w, d, action).Ok?
    ensures ExtractData(revision, w, d, action).value.labelText == d.labelText
    ensures ExtractData(revision, w, d, action).value.className == d.className
    ensures d.accelerator.Some? ==> ExtractData(revision, w, d, action).value.accelerator.Some?
    decreases action
  {
    var d2 := FromDefinition(w, DisciplineOf(revision), FromKeyCode(w, d, action.accelerator), action.definitionId);
    if action.kind.RetargetAction? && action.kind.actionHandler.Some? {
      ExtractKeepsLabelClassAndAccelerator(revision, w, d2.value, action.kind.actionHandler.value);
    }
  }

  /**
   * For an action that is not a retarget action, the accelerator registered
   * for its definition id overrides the one derived from its key code, which
   * in turn overrides what the descriptor held.
   */
  lemma DefinitionOverridesKeyCode(revision: Revision, w: Workbench, d: DescState, action: Action)
    requires action.kind.PlainAction?
    requires ExtractData(revision, w, d, action).Ok?
    ensures AcceleratorForDefinition(w, action.definitionId).Some? ==>
      ExtractData(revision, w, d, action).value.accelerator == AcceleratorForDefinition(w, action.definitionId)
    ensures AcceleratorForDefinition(w, action.definitionId).None? && action.accelerator != 0 ==>
      ExtractData(revision, w, d, action).value.accelerator == Some(w.keyToStr(action.accelerator))
    ensures AcceleratorForDefinition(w, action.definitionId).None? && action.accelerator == 0 ==>
      ExtractData(revision, w, d, action).value.accelerator == d.accelerator
  {
  }

  /**
   * Under the newer generator's first-write-wins descriptor, a retarget action
   * and its handler with different non-blank definition ids make extraction
   * fail with an IllegalArgumentException.
   */
  lemma RetargetDefinitionConflict(w: Workbench, d: DescState, action: Action)
    requires action.kind.RetargetAction? && action.kind.actionHandler.Some?
    requires !IsBlank(action.definitionId) && (d.def.None? || d.def == action.definitionId)
    requires !IsBlank(action.kind.actionHandler.value.definitionId)
    requires action.kind.actionHandler.value.definitionId != action.definitionId
    ensures ExtractData(DescRevision, w, d, action) == Err(IllegalArgument)
  {
    var d2 := FromDefinition(w, FirstWriteWins, FromKeyCode(w, d, action.accelerator), action.definitionId);
    assert d2.Ok? && d2.value.def == action.definitionId;
    var h := action.kind.actionHandler.value;
    assert FromDefinition(w, FirstWriteWins, FromKeyCode(w, d2.value, h.accelerator), h.definitionId) == Err(IllegalArgument);
  }

  /**
   * A generated descriptor carries the chosen label without mnemonics, the
   * action's class name when that is not blank, and an id that is its
   * definition id or that class name.
   */
  lemma DescribedAction(revision: Revision, w: Workbench, action: Action)
    requires DescribeAction(revision, w, Some(action)).Ok?
    ensures LabelOf(revision, action).Some?
    ensures DescribeAction(revision, w, Some(action)).value.labelText == Some(StripMnemonics(LabelOf(revision, action).value))
    ensures !IsBlank(Some(action.className)) ==> DescribeAction(revision, w, Some(action)).value.className == Some(action.className)
    ensures !IsBlank(Some(action.className)) ==>
      Id(DescribeAction(revision, w, Some(action)).value) in {DescribeAction(revision, w, Some(action)).value.def, Some(action.className)}
  {
    var d0 := WithLabel(Fresh, LabelOf(revision, action)).value;
    var d1 := WithClassName(DisciplineOf(revision), d0, Some(action.className)).value;
    ExtractKeepsLabelClassAndAccelerator(revision, w, d1, action);
  }

  /** A label that is blank, or an older generator's null text, is refused before anything else. */
  lemma BlankLabelIsRefused(revision: Revision, w: Workbench, action: Action)
    requires IsBlank(LabelOf(revision, action))
    ensures DescribeAction(revision, w, Some(action)) == Err(IllegalArgument)
  {
  }

  /** A generator: the descriptor it is filling is the one field it updates. */
  class ActionActionDescGenerator {
    const revision: Revision
    const workbench: Workbench
    var actionDesc: ActionDesc?

    constructor (revision: Revision, workbench: Workbench)
      ensures this.revision == revision && this.workbench == workbench && actionDesc == null
    {
      this.revision := revision;
      this.workbench := workbench;
      actionDesc := null;
    }

    method Generate(action: Option<Action>) returns (r: Result<ActionDesc>)
      modifies this
      ensures r.Ok? <==> DescribeAction(revision, workbench, action).Ok?
      ensures r.Err? ==> r.failure == DescribeAction(revision, workbench, action).failure
      ensures r.Ok? ==> fresh(r.value) && r.value == actionDesc && r.value.discipline == DisciplineOf(revision)
                        && r.value.State() == DescribeAction(revision, workbench, action).value
    {
      if action.None? {
        return Err(IllegalArgument);
      }
      var desc := new ActionDesc(DisciplineOf(revision));
      actionDesc := desc;
      var o := desc.SetLabel(LabelOf(revision, action.value));
      if o.Fail? {
        return Err(o.failure);
      }
      // a fresh descriptor holds no class name yet, so this cannot be refused
      o := desc.SetClassName(Some(action.value.className));
      o := ExtractActionData(action);
      if o.Fail? {
        return Err(o.failure);
      }
      return Ok(desc);
    }

    method ExtractActionData(action: Option<Action>) returns (o: Outcome)
      requires actionDesc != null && actionDesc.discipline == DisciplineOf(revision)
      modifies actionDesc
      ensures action.None? ==> o == Fail(IllegalArgument) && unchanged(actionDesc)
      ensures action.Some? ==> match ExtractData(revision, workbench, old(actionDesc.State()), action.value)
                               case Ok(d) => o == Pass && actionDesc.State() == d
                               case Err(f) => o == Fail(f)
      decreases action
    {
      if action.None? {
        return Fail(IllegalArgument);
      }
      var a := action.value;
      if a.accelerator != 0 {
        actionDesc.SetAccelerator(Some(workbench.keyToStr(a.accelerator)));
      }
      if a.definitionId.Some? {
        o := actionDesc.SetDef(a.definitionId);
        if o.Fail? {
          return;
        }
        var s := AcceleratorForDefinition(workbench, a.definitionId);
        if s.Some? {
          actionDesc.SetAccelerator(s);
        }
      }
      if a.kind.RetargetAction? && a.kind.actionHandler.Some? {
        o := ExtractActionData(a.kind.actionHandler);
        if o.Fail? {
          return;
        }
      }
      var binding := FromActionBinding(action);
      if binding.Err? {
        return Fail(binding.failure);
      }
      return Pass;
    }

    method FromActionBinding(action: Option<Action>) returns (r: Result<Option<string>>)
      ensures r == BindingAccelerator(revision, workbench, action)
      decreases action
    {
      if action.None? {
        return Ok(None);
      }
      if action.value.kind.RetargetAction? {
        r := FromActionBinding(action.value.kind.actionHandler);
        return;
      }
      r := ScanBindings(action.value);
    }

    method ScanBindings(action: Action) returns (r: Result<Option<string>>)
      ensures r == ScanMatches(revision, workbench, action)
    {
      if revision.DescRevision? && !workbench.internalBindingService {
        return Ok(None);
      }
      var matches := workbench.partialMatches;
      var i := 0;
      while i < |matches|
        invariant 0 <= i <= |matches|
        invariant ScanFrom(workbench, action, matches[i..]) == ScanFrom(workbench, action, matches)
      {
        var binding := matches[i];
        assert matches[i..][1..] == matches[i + 1..];
        if binding.handler.ActionHandler? && IsCommandEnabled(workbench, binding.command) {
          var accelerator := FromBindingData(workbench, action, binding);
          if accelerator.Err? || accelerator.value.Some? {
            return accelerator;
          }
        }
        i := i + 1;
      }
      return Ok(None);
    }
  }
}
