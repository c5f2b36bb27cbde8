/**
 * Building a descriptor for a menu or tool item backed by a command
 * (eclipse/CommandActionDescGenerator.java for `CommandContributionItem`,
 * eclipse/HandledActionDescGenerator.java for the Eclipse 4
 * `HandledContributionItem`). Locating the item's command is done by
 * reflection in classes that are not part of this model; the located command
 * is carried by the item.
 */
module CommandGenerators {
  import opened Outcomes
  import opened Text
  import opened Descriptors
  import opened Platform

  /**
   * The descriptor for a located command: labelled with the command name
   * (an undefined name is a RuntimeException), identified by the command id
   * and carrying the best active binding as accelerator.
   */
  function DescribeCommand(w: Workbench, command: Command): (r: Result<DescState>)
    ensures command.name.None? ==> r == Err(RuntimeFailure)
    ensures command.name.Some? && IsBlank(command.name) ==> r == Err(IllegalArgument)
    ensures r.Ok? ==> r.value.labelText == Some(StripMnemonics(command.name.value))
    ensures r.Ok? ==> r.value.className.None? && r.value.accelerator == w.bestActiveBinding(command.id)
    ensures r.Ok? && !IsBlank(Some(command.id)) ==> r.value.def == Some(command.id) && Id(r.value) == Some(command.id)
    ensures r.Ok? && IsBlank(Some(command.id)) ==> Id(r.value) == r.value.labelText
  {
    if command.name.None? then Err(RuntimeFailure)
    else
      var d0 :- WithLabel(Fresh, command.name);
      // a fresh descriptor holds no definition id yet, so this cannot be refused
      var d1 := WithDef(FirstWriteWins, d0, Some(command.id)).value;
      var binding := w.bestActiveBinding(command.id);
      Ok(if binding.Some? then d1.(accelerator := binding) else d1)
  }

  /** `generate` once the item is known not to be null: no command, no descriptor. */
  function DescribeLocated(w: Workbench, command: Option<Command>): (r: Result<Option<DescState>>)
    ensures command.None? ==> r == Ok(None)
    ensures command.Some? ==> (r.Ok? <==> DescribeCommand(w, command.value).Ok?)
    ensures r.Ok? && command.Some? ==> r.value == Some(DescribeCommand(w, command.value).value)
  {
    if command.None? then Ok(None)
    else
      var d :- DescribeCommand(w, command.value);
      Ok(Some(d))
  }

  /** Whether `r`, the result of a generator, is the object form of `spec`. */
  ghost predicate Produces(r: Result<ActionDesc?>, spec: Result<Option<DescState>>)
    reads if r.Ok? && r.value != null then {r.value} else {}
  {
    match r
    case Err(f) => spec == Err(f)
    case Ok(desc) =>
      spec.Ok? && (desc == null <==> spec.value.None?)
      && (desc != null ==> desc.discipline == FirstWriteWins && desc.State() == spec.value.value)
  }

  /** The shared body of both generators, after the item's null check. */
  method GenerateFromCommand(w: Workbench, command: Option<Command>) returns (r: Result<ActionDesc?>)
    ensures Produces(r, DescribeLocated(w, command))
    ensures r.Ok? && r.value != null ==> fresh(r.value)
  {
    var desc := new ActionDesc(FirstWriteWins);
    if command.None? {
      return Ok(null);
    }
    var c := command.value;
    if c.name.None? {
      return Err(RuntimeFailure);
    }
    var o := desc.SetLabel(c.name);
    if o.Fail? {
      return Err(o.failure);
    }
    // a fresh descriptor holds no definition id yet, so this cannot be refused
    o := desc.SetDef(Some(c.id));
    var binding := w.bestActiveBinding(c.id);
    if binding.Some? {
      desc.SetAccelerator(binding);
    }
    return Ok(desc);
  }

  /** `CommandActionDescGenerator`. */
  class CommandActionDescGenerator {
    const workbench: Workbench

    constructor (workbench: Workbench)
      ensures this.workbench == workbench
    {
      this.workbench := workbench;
    }

    method Generate(item: Option<ContributionItem>) returns (r: Result<ActionDesc?>)
      requires item.Some? ==> item.value.CommandContributionItem?
      ensures item.None? ==> r == Err(IllegalArgument)
      ensures item.Some? ==> Produces(r, DescribeLocated(workbench, item.value.command))
      ensures r.Ok? && r.value != null ==> fresh(r.value)
    {
      if item.None? {
        return Err(IllegalArgument);
      }
      r := GenerateFromCommand(workbench, item.value.command);
    }
  }

  /** `HandledActionDescGenerator`. */
  class HandledActionDescGenerator {
    const workbench: Workbench

    constructor (workbench: Workbench)
      ensures this.workbench == workbench
    {
      this.workbench := workbench;
    }

    method Generate(item: Option<ContributionItem>) returns (r: Result<ActionDesc?>)
      requires item.Some? ==> item.value.HandledContributionItem?
      ensures item.None? ==> r == Err(IllegalArgument)
      ensures item.Some? ==> Produces(r, DescribeLocated(workbench, item.value.handled))
      ensures r.Ok? && r.value != null ==> fresh(r.value)
    {
      if item.None? {
        return Err(IllegalArgument);
      }
      r := GenerateFromCommand(workbench, item.value.handled);
    }
  }
}
