/**
 * The per-action configuration dialog (eclipse/commands/ConfigureActionInvocationDialog.java):
 * its drop-down offers "use the global setting" at index 0 followed by the
 * three policies in declaration order, and pressing OK stores or removes
 * the action's override.
 */
module ConfigureDialog {
  import opened Outcomes
  import opened Text
  import opened Modes
  import opened Descriptors
  import opened Overrides
  import opened Preferences
  import opened Dispatch

  /** The drop-down index of the "use the global setting" entry. */
  const DefaultModeIndex := 0

  /** `getSelectedOnWrongInvocationMode`: `None` for the global setting, else the policy at index i - 1. */
  function SelectedMode(i: int): (r: Result<Option<Mode>>)
    ensures i == DefaultModeIndex ==> r == Ok(None)
    ensures i != DefaultModeIndex ==> (r.Ok? <==> 1 <= i <= |Values()|)
    ensures r.Ok? && r.value.Some? ==> Ordinal(r.value.value) == i - 1
    ensures r.Err? ==> r.failure == IndexOutOfBounds
  {
    if i == DefaultModeIndex then Ok(None)
    else
      var m :- ValueAt(i - 1);
      Ok(Some(m))
  }

  /** The index of the drop-down entry for an override: the global entry for none, else after it in policy order. */
  function ComboIndex(m: Option<Mode>): int {
    if m.None? then DefaultModeIndex else Ordinal(m.value) + 1
  }

  /** Opening the dialog on a setting and pressing OK selects that same setting again. */
  lemma SelectionRoundTrip(m: Option<Mode>)
    ensures SelectedMode(ComboIndex(m)) == Ok(m)
  {
  }

  /**
   * `okPressed`: with the global entry selected the action's override is
   * removed, so the global policy applies to it; with a policy selected, an
   * override built from the descriptor with that policy is stored, so the
   * policy applies to the action from then on. The other overrides and the
   * store are untouched, and the overrides are saved; a failed save leaves
   * the new table in place and reports the failure.
   */
  method OkPressed(preferences: PreferenceAccessor, desc: ActionDesc, selectionIndex: int) returns (o: Outcome)
    requires desc.Valid()
    modifies preferences
    ensures SelectedMode(selectionIndex).Err? ==> o == Fail(IndexOutOfBounds) && unchanged(preferences)
    ensures SelectedMode(selectionIndex) == Ok(None) && desc.GetId().Some? ==>
      preferences.Table() == old(preferences.Table()) - {desc.GetId()}
      && preferences.store == old(preferences.store)
      && SavedAs(preferences.Table(), old(preferences.file), preferences.file, o)
      && preferences.GetOnWrongInvocationMode(desc.GetId()) == Ok(None)
      && EffectiveMode(preferences.store, preferences.Table(), desc.GetId()) == GlobalMode(old(preferences.store).defaultOnWrongInvocationMode)
    ensures SelectedMode(selectionIndex) == Ok(None) && desc.GetId().None? ==> o == Fail(IllegalArgument) && unchanged(preferences)
    ensures SelectedMode(selectionIndex).Ok? && SelectedMode(selectionIndex).value.Some? && !IsBlank(desc.labelText) ==>
      var m := SelectedMode(selectionIndex).value.value;
      preferences.Table() == old(preferences.Table())[desc.GetId() := Setting(desc.GetId(), desc.labelText, Some(m))]
      && preferences.store == old(preferences.store)
      && SavedAs(preferences.Table(), old(preferences.file), preferences.file, o)
      && preferences.GetOnWrongInvocationMode(desc.GetId()) == Ok(Some(m))
      && EffectiveMode(preferences.store, preferences.Table(), desc.GetId()) == Ok(m)
    ensures SelectedMode(selectionIndex).Ok? && SelectedMode(selectionIndex).value.Some? && IsBlank(desc.labelText) ==>
      o == Fail(IllegalArgument) && unchanged(preferences)
  {
    var mode := SelectedMode(selectionIndex);
    if mode.Err? {
      return Fail(mode.failure);
    }
    if mode.value.None? {
      o := preferences.RemoveOnWrongInvocationMode(desc.GetId());
      return;
    }
    var actionMode := ActionOnWrongInvocationMode.FromActionDesc(desc);
    if actionMode.Err? {
      return Fail(actionMode.failure);
    }
    IdPriority(desc.State());
    // a selected policy is never null, so the setter cannot refuse it
    o := actionMode.value.SetOnWrongInvocationMode(mode.value);
    o := preferences.SetOnWrongInvocationMode(actionMode.value);
  }
}
