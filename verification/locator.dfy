/**
 * Finding the definition id of an action that the workbench has wrapped in
 * one of `TextActionHandler`'s private inner actions
 * (eclipse/TextActionHandlerActionLocator.java). The reflective field reads
 * are reads of `Action.enclosing` and `EnclosingObject.fields`.
 */
module Locator {
  import opened Outcomes
  import opened Text
  import opened Platform

  /** The class whose inner actions can be searched. */
  const HandlerClassName := "org.eclipse.ui.actions.TextActionHandler"

  /** The handler's private action fields that are searched, with the definition id each stands for. */
  const HandlerActions: seq<(string, string)> := [("copyAction", "org.eclipse.ui.edit.copy")]

  /** `isSearchable`: the target's class is an inner class of `TextActionHandler`. */
  function IsSearchable(searchTarget: Option<Action>): (r: Result<bool>)
    ensures searchTarget.None? <==> r == Err(IllegalArgument)
    ensures r.Ok? ==> (r.value <==> StartsWith(searchTarget.value.className, HandlerClassName + "$"))
  {
    if searchTarget.None? then Err(IllegalArgument)
    else Ok(StartsWith(searchTarget.value.className, HandlerClassName + "$"))
  }

  /**
   * `getTextActionHandler` as seen through `findActionDefinitionId`: a
   * missing `this$0` field is an AssertionError, a null one or one of another
   * class an IllegalArgumentException.
   */
  function TextActionHandler(searchTarget: Action): (r: Result<EnclosingObject>)
    ensures r.Ok? <==> searchTarget.enclosing.Field? && searchTarget.enclosing.value.Some?
                       && searchTarget.enclosing.value.value.className == HandlerClassName
    ensures r.Ok? ==> r.value == searchTarget.enclosing.value.value
    ensures searchTarget.enclosing.NoSuchField? ==> r == Err(AssertionFailed)
  {
    match searchTarget.enclosing
    case NoSuchField => Err(AssertionFailed)
    case Field(None) => Err(IllegalArgument)
    case Field(Some(handler)) =>
      if handler.className == HandlerClassName then Ok(handler) else Err(IllegalArgument)
  }

  /** Whether the handler's field `name` holds an action of the same class as `action`. */
  predicate HoldsSameClass(handler: EnclosingObject, name: string, action: Action) {
    name in handler.fields && handler.fields[name].Some? && handler.fields[name].value.className == action.className
  }

  /**
   * The loop of `doFindActionDefinitionId` over `entries`: the id of the
   * first field holding an action of the requested class; null fields and
   * fields of other classes are skipped; a field the handler does not declare
   * is an AssertionError.
   */
  function SearchFields(action: Action, handler: EnclosingObject, entries: seq<(string, string)>): (r: Result<Option<string>>)
    ensures r.Ok? && r.value.Some? ==> exists i :: 0 <= i < |entries| && entries[i].1 == r.value.value
    ensures r.Err? ==> r.failure == AssertionFailed
  {
    if entries == [] then Ok(None)
    else
      var name := entries[0].0;
      if name !in handler.fields then Err(AssertionFailed)
      else if HoldsSameClass(handler, name, action) then Ok(Some(entries[0].1))
      else
        var rest := SearchFields(action, handler, entries[1..]);
        assert rest.Ok? && rest.value.Some? ==> exists i :: 1 <= i < |entries| && entries[i].1 == rest.value.value by {
          if rest.Ok? && rest.value.Some? {
            var i :| 0 <= i < |entries[1..]| && entries[1..][i].1 == rest.value.value;
            assert entries[i + 1].1 == rest.value.value;
          }
        }
        rest
  }

  /** The search stops at the first declared field holding an action of the requested class. */
  lemma {:induction false} SearchFindsFirst(action: Action, handler: EnclosingObject, entries: seq<(string, string)>, i: nat)
    requires i < |entries|
    requires forall j :: 0 <= j < i ==> entries[j].0 in handler.fields && !HoldsSameClass(handler, entries[j].0, action)
    requires HoldsSameClass(handler, entries[i].0, action)
    ensures SearchFields(action, handler, entries) == Ok(Some(entries[i].1))
  {
    if i > 0 {
      assert !HoldsSameClass(handler, entries[0].0, action);
      SearchFindsFirst(action, handler, entries[1..], i - 1);
    }
  }

  /** The search finds nothing exactly when every field is declared and none holds such an action. */
  lemma {:induction false} SearchFindsNothing(action: Action, handler: EnclosingObject, entries: seq<(string, string)>)
    ensures SearchFields(action, handler, entries) == Ok(None) <==>
      forall j :: 0 <= j < |entries| ==> entries[j].0 in handler.fields && !HoldsSameClass(handler, entries[j].0, action)
  {
    if entries != [] {
      SearchFindsNothing(action, handler, entries[1..]);
      assert forall j :: 1 <= j < |entries| ==> entries[j] == entries[1..][j - 1];
    }
  }

  /**
   * `findActionDefinitionId`: the only id it can report is the copy
   * command's, and it reports it when the handler's `copyAction` field holds
   * an action of the requested class.
   */
  function FindActionDefinitionId(action: Action, searchTarget: Action): (r: Result<Option<string>>)
    ensures r.Ok? && r.value.Some? ==> r.value.value == "org.eclipse.ui.edit.copy"
    ensures r.Ok? ==> TextActionHandler(searchTarget).Ok?
    ensures r.Err? ==> r.failure == AssertionFailed || r.failure == IllegalArgument
  {
    var handler :- TextActionHandler(searchTarget);
    SearchFields(action, handler, HandlerActions)
  }

  /** The copy action wrapped by a well-formed `TextActionHandler` is found. */
  lemma FindsWrappedCopyAction(action: Action, searchTarget: Action)
    requires TextActionHandler(searchTarget).Ok?
    requires HoldsSameClass(TextActionHandler(searchTarget).value, "copyAction", action)
    ensures FindActionDefinitionId(action, searchTarget) == Ok(Some("org.eclipse.ui.edit.copy"))
  {
    SearchFindsFirst(action, TextActionHandler(searchTarget).value, HandlerActions, 0);
  }
}
