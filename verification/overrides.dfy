/**
 * A per-action override of the reaction policy
 * (eclipse/preferences/ActionOnWrongInvocationMode.java): a mutable bean
 * with validating setters.
 */
module Overrides {
  import opened Outcomes
  import opened Text
  import opened Modes
  import opened Descriptors

  /** The field values of an override at one moment. */
  datatype Setting = Setting(id: Option<string>, labelText: Option<string>, mode: Option<Mode>)

  class ActionOnWrongInvocationMode {
    var id: Option<string>
    var labelText: Option<string>
    var mode: Option<Mode>

    function Snapshot(): Setting
      reads this
    {
      Setting(id, labelText, mode)
    }

    /** The no-argument constructor: every field null. */
    constructor ()
      ensures Snapshot() == Setting(None, None, None)
    {
      id := None;
      labelText := None;
      mode := None;
    }

    /**
     * The constructor from a descriptor: its id and label are copied through
     * the validating setters, the mode stays null. A descriptor whose label
     * has been set is always accepted.
     */
    static method FromActionDesc(desc: ActionDesc?) returns (r: Result<ActionOnWrongInvocationMode>)
      ensures desc == null ==> r == Err(IllegalArgument)
      ensures desc != null ==> (r.Ok? <==> !IsBlank(desc.GetId()) && !IsBlank(desc.labelText))
      ensures desc != null && desc.Valid() && !IsBlank(desc.labelText) ==> r.Ok?
      ensures r.Err? ==> r.failure == IllegalArgument
      ensures r.Ok? ==> fresh(r.value) && r.value.Snapshot() == Setting(desc.GetId(), desc.labelText, None)
    {
      if desc == null {
        return Err(IllegalArgument);
      }
      var setting := new ActionOnWrongInvocationMode();
      var o := setting.SetId(desc.GetId());
      if o.Fail? {
        IdPriority(desc.State());
        return Err(o.failure);
      }
      o := setting.SetLabel(desc.labelText);
      if o.Fail? {
        return Err(o.failure);
      }
      return Ok(setting);
    }

    /** `setId`: a blank id is refused and nothing changes. */
    method SetId(v: Option<string>) returns (o: Outcome)
      modifies this
      ensures o.Fail? <==> IsBlank(v)
      ensures o.Fail? ==> o.failure == IllegalArgument && Snapshot() == old(Snapshot())
      ensures o.Pass? ==> Snapshot() == old(Snapshot()).(id := v)
    {
      if IsBlank(v) {
        return Fail(IllegalArgument);
      }
      id := v;
      return Pass;
    }

    /** `setLabel`: a blank label is refused; others are kept verbatim, mnemonics included. */
    method SetLabel(v: Option<string>) returns (o: Outcome)
      modifies this
      ensures o.Fail? <==> IsBlank(v)
      ensures o.Fail? ==> o.failure == IllegalArgument && Snapshot() == old(Snapshot())
      ensures o.Pass? ==> Snapshot() == old(Snapshot()).(labelText := v)
    {
      if IsBlank(v) {
        return Fail(IllegalArgument);
      }
      labelText := v;
      return Pass;
    }

    /** `setOnWrongInvocationMode`: null is refused. */
    method SetOnWrongInvocationMode(m: Option<Mode>) returns (o: Outcome)
      modifies this
      ensures o.Fail? <==> m.None?
      ensures o.Fail? ==> o.failure == IllegalArgument && Snapshot() == old(Snapshot())
      ensures o.Pass? ==> Snapshot() == old(Snapshot()).(mode := m)
    {
      if m.None? {
        return Fail(IllegalArgument);
      }
      mode := m;
      return Pass;
    }

    /** `clone()`: a field-by-field copy that later changes to either object do not reach. */
    method Clone() returns (c: ActionOnWrongInvocationMode)
      ensures fresh(c) && c.Snapshot() == Snapshot()
    {
      c := new ActionOnWrongInvocationMode();
      c.id := id;
      c.labelText := labelText;
      c.mode := mode;
    }
  }
}
