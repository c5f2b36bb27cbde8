/**
 * The overrides table of the preference page: its cell modifier
 * (eclipse/preferences/ActionInvocationModeTableCellModifier.java) and its
 * label provider (eclipse/preferences/ActionInvocationModeTableLabelProvider.java).
 * Each row of the table is one override object.
 */
module PreferenceTable {
  import opened Outcomes
  import opened Messages
  import opened Modes
  import opened Overrides

  /** `ActionInvocationModeControl.Column`. */
  datatype Column = LabelColumn | ModeColumn

  /** The column's `name()`, which is also the table's property name for it. */
  function ColumnName(c: Column): string {
    match c
    case LabelColumn => "LABEL"
    case ModeColumn => "MODE"
  }

  /** The column's `ordinal()`, which is also its index in the table. */
  function ColumnIndex(c: Column): int {
    match c
    case LabelColumn => 0
    case ModeColumn => 1
  }

  /** An image the label provider could show. */
  datatype Image = Image(name: string)

  /** What `getValue` returns: the label text, the mode's ordinal, or null. */
  datatype CellValue = LabelValue(text: Option<string>) | OrdinalValue(ordinal: int) | NoValue

  /** The element `modify` is given: a row object, or a table item whose data is the row object. */
  datatype Element = Row(setting: ActionOnWrongInvocationMode?) | TableItem(data: ActionOnWrongInvocationMode?)

  /** The row object an element stands for. */
  function Unwrap(e: Element): ActionOnWrongInvocationMode? {
    match e
    case Row(s) => s
    case TableItem(d) => d
  }

  /** The row object an element stands for, as a frame. */
  function Rows(e: Element): set<ActionOnWrongInvocationMode> {
    if Unwrap(e) == null then {} else {Unwrap(e)}
  }

  /** `canModify`: only the mode column can be edited, whatever the element. */
  function CanModify(property: string): (r: bool)
    ensures r <==> property == ColumnName(ModeColumn)
  {
    property == ColumnName(ModeColumn)
  }

  /**
   * `getValue`: the label for the label column, the ordinal of the mode for
   * the mode column, null for any other property; a missing row or mode
   * fails with a null dereference.
   */
  function GetValue(element: ActionOnWrongInvocationMode?, property: string): (r: Result<CellValue>)
    reads element
    ensures property == ColumnName(LabelColumn) ==>
      r == (if element == null then Err(NullPointer) else Ok(LabelValue(element.Snapshot().labelText)))
    ensures property == ColumnName(ModeColumn) && element != null && element.mode.Some? ==>
      r.Ok? && r.value.OrdinalValue? && ValueAt(r.value.ordinal) == Ok(element.mode.value)
    ensures property == ColumnName(ModeColumn) && (element == null || element.mode.None?) ==> r == Err(NullPointer)
    ensures property != ColumnName(LabelColumn) && property != ColumnName(ModeColumn) ==> r == Ok(NoValue)
  {
    if property == ColumnName(LabelColumn) then
      if element == null then Err(NullPointer) else Ok(LabelValue(element.labelText))
    else if property == ColumnName(ModeColumn) then
      if element == null || element.mode.None? then Err(NullPointer)
      else Ok(OrdinalValue(Ordinal(element.mode.value)))
    else Ok(NoValue)
  }

  /** A table viewer; it records the refresh requests it receives. */
  class TableViewer {
    var updates: seq<(ActionOnWrongInvocationMode, string)>

    constructor ()
      ensures updates == []
    {
      updates := [];
    }

    /** `update(element, properties)` with a single property. */
    method Update(element: ActionOnWrongInvocationMode, property: string)
      modifies this
      ensures updates == old(updates) + [(element, property)]
    {
      updates := updates + [(element, property)];
    }
  }

  /** `ActionInvocationModeTableCellModifier`. */
  class CellModifier {
    const tableViewer: TableViewer

    constructor (tableViewer: TableViewer)
      ensures this.tableViewer == tableViewer
    {
      this.tableViewer := tableViewer;
    }

    /** The constructor with `validateTableViewer`: a null viewer is refused. */
    static method Create(tableViewer: TableViewer?) returns (r: Result<CellModifier>)
      ensures tableViewer == null ==> r == Err(IllegalArgument)
      ensures tableViewer != null ==> r.Ok? && fresh(r.value) && r.value.tableViewer == tableViewer
    {
      if tableViewer == null {
        return Err(IllegalArgument);
      }
      var m := new CellModifier(tableViewer);
      return Ok(m);
    }

    /**
     * `modify`: a table item is unwrapped to its data; for the mode column
     * the row gets the mode with ordinal `value`, and the viewer refreshes
     * that cell; any other property changes nothing. Reading the cell back
     * gives `value`.
     */
    method Modify(element: Element, property: string, value: int) returns (o: Outcome)
      modifies Rows(element), tableViewer
      ensures property != ColumnName(ModeColumn) ==> o == Pass && unchanged(Rows(element), tableViewer)
      ensures property == ColumnName(ModeColumn) && ValueAt(value).Err? ==>
        o == Fail(IndexOutOfBounds) && unchanged(Rows(element), tableViewer)
      ensures property == ColumnName(ModeColumn) && ValueAt(value).Ok? && Unwrap(element) == null ==>
        o == Fail(NullPointer) && unchanged(tableViewer)
      ensures property == ColumnName(ModeColumn) && ValueAt(value).Ok? && Unwrap(element) != null ==>
        o == Pass
        && Unwrap(element).Snapshot() == old(Unwrap(element).Snapshot()).(mode := Some(ValueAt(value).value))
        && GetValue(Unwrap(element), property) == Ok(OrdinalValue(value))
        && tableViewer.updates == old(tableViewer.updates) + [(Unwrap(element), property)]
    {
      var actionMode := Unwrap(element);
      if property != ColumnName(ModeColumn) {
        return Pass;
      }
      var mode := ValueAt(value);
      if mode.Err? {
        return Fail(mode.failure);
      }
      if actionMode == null {
        return Fail(NullPointer);
      }
      // a value of the enumeration is never null, so the setter cannot refuse it
      o := actionMode.SetOnWrongInvocationMode(Some(mode.value));
      tableViewer.Update(actionMode, property);
    }
  }

  /**
   * Writing back the value just read leaves the row as it was: for every
   * row with a mode, the ordinal `GetValue` gives selects that same mode.
   */
  lemma ModeCellRoundTrip(element: ActionOnWrongInvocationMode)
    requires element.mode.Some?
    ensures GetValue(element, ColumnName(ModeColumn)).Ok?
    ensures var v := GetValue(element, ColumnName(ModeColumn)).value;
      v.OrdinalValue? && ValueAt(v.ordinal).Ok? && Some(ValueAt(v.ordinal).value) == element.mode
  {
  }

  /** `isLabelProperty`: a change of the mode changes the label shown, a change of the label column does not. */
  function IsLabelProperty(property: string): (r: Result<bool>)
    ensures property == ColumnName(LabelColumn) ==> r == Ok(false)
    ensures property == ColumnName(ModeColumn) ==> r == Ok(true)
    ensures property != ColumnName(LabelColumn) && property != ColumnName(ModeColumn) ==> r == Err(IllegalArgument)
  {
    if property == ColumnName(LabelColumn) then Ok(false)
    else if property == ColumnName(ModeColumn) then Ok(true)
    else Err(IllegalArgument)
  }

  /** The editable column is exactly the one whose changes affect the label. */
  lemma EditableIsLabelProperty(property: string)
    ensures CanModify(property) <==> IsLabelProperty(property) == Ok(true)
    ensures !CanModify(property) ==> IsLabelProperty(property) != Ok(true)
  {
  }

  /** `getColumnImage`: no column has an image. */
  function GetColumnImage(element: ActionOnWrongInvocationMode?, columnIndex: int): (r: Option<Image>)
    ensures r.None?
  {
    None
  }

  /**
   * `getColumnText`: the row's label in the label column, the localized name
   * of its mode in the mode column; any other index is refused, and a
   * missing row or mode fails with a null dereference.
   */
  function GetColumnText(bundle: Bundle, element: ActionOnWrongInvocationMode?, columnIndex: int): (r: Result<Option<string>>)
    reads element
    ensures columnIndex != ColumnIndex(LabelColumn) && columnIndex != ColumnIndex(ModeColumn) ==> r == Err(IllegalArgument)
    ensures columnIndex == ColumnIndex(LabelColumn) && element != null ==> r == Ok(element.Snapshot().labelText)
    ensures columnIndex == ColumnIndex(ModeColumn) && element != null && element.mode.Some? ==>
      (r.Ok? <==> Label(bundle, element.mode.value).Ok?)
      && (r.Ok? ==> r.value == Some(Label(bundle, element.mode.value).value))
      && (r.Err? ==> r.failure == Label(bundle, element.mode.value).failure)
    ensures columnIndex == ColumnIndex(ModeColumn) && element != null && element.mode.None? ==> r == Err(NullPointer)
    ensures (columnIndex == ColumnIndex(LabelColumn) || columnIndex == ColumnIndex(ModeColumn)) && element == null ==>
      r == Err(NullPointer)
  {
    if columnIndex == ColumnIndex(LabelColumn) then
      if element == null then Err(NullPointer) else Ok(element.labelText)
    else if columnIndex == ColumnIndex(ModeColumn) then
      if element == null || element.mode.None? then Err(NullPointer)
      else
        var text :- Label(bundle, element.mode.value);
        Ok(Some(text))
    else Err(IllegalArgument)
  }

  /**
   * The label provider shows what the cell modifier edits: the label column's
   * text is the label value, and the mode column's text is the label of the
   * mode whose ordinal is the mode value.
   */
  lemma TextMatchesValue(bundle: Bundle, element: ActionOnWrongInvocationMode)
    ensures GetValue(element, ColumnName(LabelColumn)) == Ok(LabelValue(GetColumnText(bundle, element, ColumnIndex(LabelColumn)).value))
    ensures element.mode.Some? ==>
      var v := GetValue(element, ColumnName(ModeColumn)).value;
      v.OrdinalValue? && ValueAt(v.ordinal).Ok?
      && GetColumnText(bundle, element, ColumnIndex(ModeColumn)) ==
           (var l := Label(bundle, ValueAt(v.ordinal).value); if l.Ok? then Ok(Some(l.value)) else Err(l.failure))
    ensures element.mode.None? ==>
      GetValue(element, ColumnName(ModeColumn)) == Err(NullPointer)
      && GetColumnText(bundle, element, ColumnIndex(ModeColumn)) == Err(NullPointer)
  {
  }
}
