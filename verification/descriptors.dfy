/**
 * Action descriptors: what the plug-in knows about one user action
 * (client/collector/AbstractActionDesc.java, its older copy
 * client/collector/ActionDesc.java, and the two Eclipse subclasses
 * eclipse/ActionDescImpl.java and the older eclipse/ActionDesc.java).
 */
module Descriptors {
  import opened Outcomes
  import opened Text

  /**
   * How a descriptor treats a second non-blank class name or definition id.
   * `LabelOnly` is the base class, which has neither field;
   * `FirstWriteWins` is `ActionDescImpl`, which refuses a different value;
   * `LastWriteWins` is the older `eclipse.ActionDesc`, which overwrites.
   */
  datatype Discipline = LabelOnly | FirstWriteWins | LastWriteWins

  /** The fields of a descriptor; `None` is Java's null. */
  datatype DescState = DescState(
    labelText: Option<string>,
    accelerator: Option<string>,
    className: Option<string>,
    def: Option<string>)

  /** A newly constructed descriptor: every field null. */
  const Fresh := DescState(None, None, None, None)

  /**
   * `setLabel`: a blank label is an IllegalArgumentException; otherwise the
   * label is stored without its '&' mnemonic markers.
   */
  function WithLabel(d: DescState, l: Option<string>): (r: Result<DescState>)
    ensures r.Err? <==> IsBlank(l)
    ensures r.Err? ==> r.failure == IllegalArgument
    ensures r.Ok? ==> r.value.accelerator == d.accelerator && r.value.className == d.className && r.value.def == d.def
    ensures r.Ok? ==> r.value.labelText.Some? && '&' !in r.value.labelText.value
    ensures r.Ok? ==> multiset(r.value.labelText.value) == multiset(l.value)['&' := 0]
  {
    if IsBlank(l) then Err(IllegalArgument) else Ok(d.(labelText := Some(StripMnemonics(l.value))))
  }

  /**
   * The shared rule of `setClassName` and `setDef`: the new value of a field
   * currently holding `current` when `v` is offered. Blank offers change
   * nothing; under `FirstWriteWins` an offer differing from a value already
   * held is refused (re-offering the same value is accepted).
   */
  function Assign(discipline: Discipline, current: Option<string>, v: Option<string>): (r: Result<Option<string>>)
    requires discipline != LabelOnly
    ensures IsBlank(v) ==> r == Ok(current)
    ensures r.Err? <==> discipline == FirstWriteWins && !IsBlank(v) && current.Some? && current != v
    ensures r.Err? ==> r.failure == IllegalArgument
  {
    if IsBlank(v) then Ok(current)
    else if discipline == FirstWriteWins && current.Some? && current != v then Err(IllegalArgument)
    else Ok(v)
  }

  /** Under `FirstWriteWins`, once a field holds a value no accepted offer changes it. */
  lemma FirstWriteWinsKeepsValue(current: Option<string>, v: Option<string>)
    requires current.Some?
    requires Assign(FirstWriteWins, current, v).Ok?
    ensures Assign(FirstWriteWins, current, v).value == current
  {
  }

  /** Under `LastWriteWins` every offer is accepted and the last non-blank one is kept. */
  lemma LastWriteWinsOverwrites(current: Option<string>, v: Option<string>)
    ensures Assign(LastWriteWins, current, v).Ok?
    ensures !IsBlank(v) ==> Assign(LastWriteWins, current, v).value == v
  {
  }

  /** The rule of `setClassName`. */
  function WithClassName(discipline: Discipline, d: DescState, v: Option<string>): (r: Result<DescState>)
    requires discipline != LabelOnly
    ensures r.Ok? ==> r.value.labelText == d.labelText && r.value.accelerator == d.accelerator && r.value.def == d.def
    ensures r.Err? <==> Assign(discipline, d.className, v).Err?
  {
    var c :- Assign(discipline, d.className, v);
    Ok(d.(className := c))
  }

  /** The rule of `setDef`. */
  function WithDef(discipline: Discipline, d: DescState, v: Option<string>): (r: Result<DescState>)
    requires discipline != LabelOnly
    ensures r.Ok? ==> r.value.labelText == d.labelText && r.value.accelerator == d.accelerator && r.value.className == d.className
    ensures r.Err? <==> Assign(discipline, d.def, v).Err?
  {
    var v' :- Assign(discipline, d.def, v);
    Ok(d.(def := v'))
  }

  /**
   * `getId` of the Eclipse descriptors: the definition id if not blank, else
   * the class name if not blank, else the label.
   */
  function Id(d: DescState): Option<string> {
    if !IsBlank(d.def) then d.def
    else if !IsBlank(d.className) then d.className
    else d.labelText
  }

  /**
   * The id is one of the descriptor's own values, chosen by priority, and it
   * is never blank once the label is set (the label cannot be set blank).
   */
  lemma IdPriority(d: DescState)
    ensures !IsBlank(d.def) ==> Id(d) == d.def
    ensures IsBlank(d.def) && !IsBlank(d.className) ==> Id(d) == d.className
    ensures IsBlank(d.def) && IsBlank(d.className) ==> Id(d) == d.labelText
    ensures !IsBlank(d.labelText) ==> !IsBlank(Id(d))
  {
  }

  /** Whether `after` and `o` are what a setter whose rule gave `r` leaves behind. */
  predicate Applied(before: DescState, r: Result<DescState>, after: DescState, o: Outcome) {
    match r
    case Ok(d) => o == Pass && after == d
    case Err(f) => o == Fail(f) && after == before
  }

  /** A descriptor object; the setters update its fields in place. */
  class ActionDesc {
    const discipline: Discipline
    var labelText: Option<string>
    var accelerator: Option<string>
    var className: Option<string>
    var def: Option<string>

    /** The base class has no class name and no definition id. */
    ghost predicate Valid()
      reads this
    {
      discipline == LabelOnly ==> className.None? && def.None?
    }

    function State(): DescState
      reads this
    {
      DescState(labelText, accelerator, className, def)
    }

    constructor (discipline: Discipline)
      ensures this.discipline == discipline && State() == Fresh && Valid()
    {
      this.discipline := discipline;
      labelText := None;
      accelerator := None;
      className := None;
      def := None;
    }

    /** `getId`: the label for the base class, the priority rule for the Eclipse ones. */
    function GetId(): (r: Option<string>)
      reads this
      ensures Valid() ==> r == Id(State())
    {
      if discipline == LabelOnly then labelText else Id(State())
    }

    /** `hasAccelerator`. */
    function HasAccelerator(): bool
      reads this
    {
      accelerator.Some?
    }

    method SetLabel(l: Option<string>) returns (o: Outcome)
      requires Valid()
      modifies this
      ensures Valid() && Applied(old(State()), WithLabel(old(State()), l), State(), o)
    {
      if IsBlank(l) {
        return Fail(IllegalArgument);
      }
      labelText := Some(StripMnemonics(l.value));
      return Pass;
    }

    /** `setAccelerator`: stored as given, null included. */
    method SetAccelerator(a: Option<string>)
      requires Valid()
      modifies this
      ensures Valid() && State() == old(State()).(accelerator := a)
    {
      accelerator := a;
    }

    method SetClassName(v: Option<string>) returns (o: Outcome)
      requires discipline != LabelOnly
      modifies this
      ensures Applied(old(State()), WithClassName(discipline, old(State()), v), State(), o)
    {
      if IsBlank(v) {
        return Pass;
      }
      if discipline == FirstWriteWins && className.Some? && className != v {
        return Fail(IllegalArgument);
      }
      className := v;
      return Pass;
    }

    method SetDef(v: Option<string>) returns (o: Outcome)
      requires discipline != LabelOnly
      modifies this
      ensures Applied(old(State()), WithDef(discipline, old(State()), v), State(), o)
    {
      if IsBlank(v) {
        return Pass;
      }
      if discipline == FirstWriteWins && def.Some? && def != v {
        return Fail(IllegalArgument);
      }
      def := v;
      return Pass;
    }
  }
}
