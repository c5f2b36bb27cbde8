/**
 * The plug-in's preferences (eclipse/preferences/PreferenceAccessor.java):
 * three values in the Eclipse preference store, the global reaction policy,
 * and the per-action overrides, which are kept in a map and persisted to a
 * file of records after every change.
 */
module Preferences {
  import opened Outcomes
  import opened Text
  import opened Modes
  import opened Overrides

  /** One persisted override: the `id`, `label` and `onWrongInvocationMode` attributes of an `action` element; an attribute written with a null value is absent. */
  datatype Record = Record(id: Option<string>, labelText: Option<string>, mode: Option<string>)

  /** The preference store entries the accessor reads and writes. */
  datatype StoreValues = StoreValues(
    invocationControlEnabled: bool,
    configureKeyboardShortcutEnabled: bool,
    configureKeyboardShortcutThreshold: int32,
    defaultOnWrongInvocationMode: Option<string>)

  /** The defaults the preference initializer registers (PreferenceConstants, PreferenceInitializer). */
  const DefaultStore := StoreValues(true, true, 2, Some(Name(DefaultMode)))

  /** `getOnWrongInvocationMode()`: the stored name, or the default policy when nothing is stored. */
  function GlobalMode(stored: Option<string>): (r: Result<Mode>)
    ensures stored.None? ==> r == Ok(DefaultMode)
    ensures stored.Some? ==> r == ValueOf(stored)
  {
    if stored.None? then Ok(DefaultMode) else ValueOf(stored)
  }

  /** The store as initialised yields the default policy. */
  lemma DefaultStoreYieldsDefaultMode()
    ensures GlobalMode(DefaultStore.defaultOnWrongInvocationMode) == Ok(DefaultMode)
  {
    NameRoundTrip(DefaultMode);
  }

  /** One record of `createActionsOnWrongInvocationModeMemento`; an override without a mode is a NullPointerException. */
  function ToRecord(s: Setting): (r: Result<Record>)
    ensures r.Err? <==> s.mode.None?
    ensures r.Err? ==> r.failure == NullPointer
  {
    if s.mode.None? then Err(NullPointer) else Ok(Record(s.id, s.labelText, Some(Name(s.mode.value))))
  }

  /** The records written for the overrides in `t`, visited in the order `order`. */
  function RecordsOf(t: map<Option<string>, Setting>, order: seq<Option<string>>): (r: Result<seq<Record>>)
    requires forall k :: k in order ==> k in t
    ensures r.Ok? ==> |r.value| == |order|
    decreases |order|
  {
    if order == [] then Ok([])
    else
      var front :- RecordsOf(t, order[..|order| - 1]);
      var last :- ToRecord(t[order[|order| - 1]]);
      Ok(front + [last])
  }

  /** `order` visits every key of the map exactly once, as iteration over a `HashMap` does. */
  ghost predicate IsEnumeration(order: seq<Option<string>>, keys: set<Option<string>>) {
    (forall i, j :: 0 <= i < j < |order| ==> order[i] != order[j]) && (forall k :: k in keys <==> k in order)
  }

  /** Reading one record back: label first, then id, then the mode name. */
  function FromRecord(rec: Record): (r: Result<Setting>)
    ensures r.Ok? ==> r.value.id == rec.id && r.value.labelText == rec.labelText && r.value.mode.Some?
    ensures r.Ok? ==> rec.mode == Some(Name(r.value.mode.value))
    ensures IsBlank(rec.labelText) || IsBlank(rec.id) ==> r == Err(IllegalArgument)
  {
    if IsBlank(rec.labelText) then Err(IllegalArgument)
    else if IsBlank(rec.id) then Err(IllegalArgument)
    else
      var m :- ValueOf(rec.mode);
      Ok(Setting(rec.id, rec.labelText, Some(m)))
  }

  /** The map after loading, and the exception that stopped loading, if any. */
  datatype Loaded = Loaded(table: map<Option<string>, Setting>, failure: Option<Failure>)

  /** `loadActionsOnWrongInvocationMode(memento)`: start empty, put record after record, stop at the first bad one. */
  function LoadAll(records: seq<Record>): Loaded
    decreases |records|
  {
    if records == [] then Loaded(map[], None)
    else
      var before := LoadAll(records[..|records| - 1]);
      if before.failure.Some? then before
      else match FromRecord(records[|records| - 1])
        case Err(f) => Loaded(before.table, Some(f))
        case Ok(s) => Loaded(before.table[s.id := s], None)
  }

  /** A map of overrides that can be written and read back: keyed by id, every field set. */
  ghost predicate Persistable(t: map<Option<string>, Setting>) {
    forall k :: k in t ==> t[k].id == k && !IsBlank(k) && !IsBlank(t[k].labelText) && t[k].mode.Some?
  }

  /** Whatever a file holds, loading it, even partly, gives a map that can be written back. */
  lemma {:induction false} LoadedIsPersistable(records: seq<Record>)
    ensures Persistable(LoadAll(records).table)
    decreases |records|
  {
    if records != [] {
      LoadedIsPersistable(records[..|records| - 1]);
    }
  }

  /** The overrides of `t` under the keys visited by `order`. */
  ghost function Restrict(t: map<Option<string>, Setting>, order: seq<Option<string>>): (r: map<Option<string>, Setting>)
    requires forall k :: k in order ==> k in t
    ensures forall k :: k in r <==> k in order
    ensures forall k :: k in r ==> r[k] == t[k]
    decreases |order|
  {
    if order == [] then map[]
    else
      assert forall k :: k in order[..|order| - 1] ==> k in order;
      Restrict(t, order[..|order| - 1])[order[|order| - 1] := t[order[|order| - 1]]]
  }

  /** Writing the overrides in any order and loading the records gives back the overrides written. */
  lemma {:induction false} LoadRecordsOf(t: map<Option<string>, Setting>, order: seq<Option<string>>)
    requires Persistable(t)
    requires forall k :: k in order ==> k in t
    ensures RecordsOf(t, order).Ok?
    ensures LoadAll(RecordsOf(t, order).value) == Loaded(Restrict(t, order), None)
    decreases |order|
  {
    if order != [] {
      var front := order[..|order| - 1];
      var last := order[|order| - 1];
      assert forall k :: k in front ==> k in order;
      LoadRecordsOf(t, front);
      var rs := RecordsOf(t, order).value;
      assert rs[..|rs| - 1] == RecordsOf(t, front).value;
      var s := t[last];
      assert FromRecord(rs[|rs| - 1]) == Ok(s) by {
        NameRoundTrip(s.mode.value);
      }
    }
  }

  /** The persistence round trip: saving a map that can be persisted and loading the file restores it. */
  lemma SaveThenLoad(t: map<Option<string>, Setting>, order: seq<Option<string>>)
    requires Persistable(t) && IsEnumeration(order, t.Keys)
    ensures RecordsOf(t, order).Ok?
    ensures LoadAll(RecordsOf(t, order).value) == Loaded(t, None)
  {
    assert forall k :: k in order ==> k in t;
    LoadRecordsOf(t, order);
    var r := Restrict(t, order);
    assert r.Keys == t.Keys;
    assert forall k :: k in r ==> r[k] == t[k];
    assert r == t;
  }

  /** Saving fails exactly when some override has no mode, whatever the visiting order. */
  lemma {:induction false} SaveFailsOnMissingMode(t: map<Option<string>, Setting>, order: seq<Option<string>>)
    requires forall k :: k in order ==> k in t
    ensures RecordsOf(t, order).Err? <==> exists k :: k in order && t[k].mode.None?
    ensures RecordsOf(t, order).Err? ==> RecordsOf(t, order).failure == NullPointer
    decreases |order|
  {
    if order != [] {
      var front := order[..|order| - 1];
      assert forall k :: k in front ==> k in order;
      SaveFailsOnMissingMode(t, front);
      assert forall k :: k in order <==> k in front || k == order[|order| - 1];
    }
  }

  /** `setActionsOnWrongInvocationMode` on values: put every override under its id, later ones replacing earlier ones. */
  function PutAll(t: map<Option<string>, Setting>, settings: seq<Setting>): (r: map<Option<string>, Setting>)
    ensures forall k :: k in r ==> k in t || exists i :: 0 <= i < |settings| && settings[i].id == k
    decreases |settings|
  {
    if settings == [] then t
    else
      var front := PutAll(t, settings[..|settings| - 1]);
      var last := settings[|settings| - 1];
      assert forall i :: 0 <= i < |settings| - 1 ==> settings[..|settings| - 1][i] == settings[i];
      front[last.id := last]
  }

  /** One more override given: it replaces whatever was stored under its id. */
  lemma PutAllStep(t: map<Option<string>, Setting>, settings: seq<Setting>, i: nat)
    requires i < |settings|
    ensures PutAll(t, settings[..i + 1]) == PutAll(t, settings[..i])[settings[i].id := settings[i]]
  {
    assert settings[..i + 1][..i] == settings[..i];
  }

  /** After replacing, the override stored under an id is the last one given with that id. */
  lemma {:induction false} PutAllLastWins(t: map<Option<string>, Setting>, settings: seq<Setting>, i: nat)
    requires i < |settings|
    requires forall j :: i < j < |settings| ==> settings[j].id != settings[i].id
    ensures settings[i].id in PutAll(t, settings) && PutAll(t, settings)[settings[i].id] == settings[i]
    decreases |settings|
  {
    if i < |settings| - 1 {
      PutAllLastWins(t, settings[..|settings| - 1], i);
    }
  }

  /** A map built by `PutAll` from an empty map is keyed by the ids of what it holds. */
  lemma {:induction false} PutAllKeyedById(settings: seq<Setting>)
    ensures forall k :: k in PutAll(map[], settings) ==> PutAll(map[], settings)[k].id == k
    decreases |settings|
  {
    if settings != [] {
      PutAllKeyedById(settings[..|settings| - 1]);
    }
  }

  /** The snapshots of a sequence of override objects. */
  function Snapshots(settings: seq<ActionOnWrongInvocationMode>): (r: seq<Setting>)
    reads settings
    ensures |r| == |settings| && forall i :: 0 <= i < |settings| ==> r[i] == settings[i].Snapshot()
  {
    seq(|settings|, i reads settings requires 0 <= i < |settings| => settings[i].Snapshot())
  }

  /** Whether `file` and `o` are what saving the overrides `t` leaves when the file held `before`. */
  ghost predicate SavedAs(t: map<Option<string>, Setting>, before: seq<Record>, file: seq<Record>, o: Outcome) {
    exists order :: IsEnumeration(order, t.Keys) &&
      match RecordsOf(t, order)
      case Ok(records) => o == Pass && file == records
      case Err(f) => o == Fail(f) && file == before
  }

  /** Saving a map that can be persisted succeeds, and the file then loads back to that map. */
  lemma SavedFileLoadsBack(t: map<Option<string>, Setting>, before: seq<Record>, file: seq<Record>, o: Outcome)
    requires Persistable(t) && SavedAs(t, before, file, o)
    ensures o == Pass && LoadAll(file) == Loaded(t, None)
  {
    var order :| IsEnumeration(order, t.Keys) &&
      match RecordsOf(t, order)
      case Ok(records) => o == Pass && file == records
      case Err(f) => o == Fail(f) && file == before;
    SaveThenLoad(t, order);
  }

  /** The preference accessor: the store it reads, the overrides map, and the overrides file. */
  class PreferenceAccessor {
    var store: StoreValues
    var actionsOnWrongMode: map<Option<string>, ActionOnWrongInvocationMode>
    var file: seq<Record>

    /** The overrides as values; the map holds the objects themselves, so changing one shows here. */
    function Table(): (r: map<Option<string>, Setting>)
      reads this`actionsOnWrongMode, actionsOnWrongMode.Values
      ensures forall k :: k in r <==> k in actionsOnWrongMode
    {
      map k | k in actionsOnWrongMode :: actionsOnWrongMode[k].Snapshot()
    }

    /**
     * The constructor: the store as given, the overrides loaded from the file.
     * A file that cannot be loaded makes construction fail.
     */
    static method Create(store: StoreValues, file: seq<Record>) returns (r: Result<PreferenceAccessor>)
      ensures r.Ok? <==> LoadAll(file).failure.None?
      ensures r.Err? ==> r.failure == LoadAll(file).failure.value
      ensures r.Ok? ==> fresh(r.value) && r.value.store == store && r.value.file == file
      ensures r.Ok? ==> r.value.Table() == LoadAll(file).table && Persistable(r.value.Table())
    {
      var accessor := new PreferenceAccessor.Init(store, file);
      var o := accessor.LoadActionsOnWrongInvocationMode();
      if o.Fail? {
        return Err(o.failure);
      }
      LoadedIsPersistable(file);
      return Ok(accessor);
    }

    constructor Init(store: StoreValues, file: seq<Record>)
      ensures this.store == store && this.file == file && actionsOnWrongMode == map[]
    {
      this.store := store;
      this.file := file;
      actionsOnWrongMode := map[];
    }

    /** Loading the file into a cleared map, one new override object per record. */
    method LoadActionsOnWrongInvocationMode() returns (o: Outcome)
      modifies this
      ensures store == old(store) && file == old(file)
      ensures Table() == LoadAll(file).table
      ensures o == (if LoadAll(file).failure.None? then Pass else Fail(LoadAll(file).failure.value))
      ensures forall v :: v in actionsOnWrongMode.Values ==> fresh(v)
    {
      actionsOnWrongMode := map[];
      for i := 0 to |file|
        invariant store == old(store) && file == old(file)
        invariant LoadAll(file[..i]).failure.None?
        invariant Table() == LoadAll(file[..i]).table
        invariant forall v :: v in actionsOnWrongMode.Values ==> fresh(v)
      {
        assert file[..i + 1][..i] == file[..i];
        ghost var before := Table();
        var mode := LoadRecord(file[i]);
        if mode.Err? {
          LoadStopsAtFailure(file, i + 1);
          return Fail(mode.failure);
        }
        assert Table() == before;
        assert LoadAll(file[..i + 1]) == Loaded(before[mode.value.id := mode.value.Snapshot()], None);
        Put(mode.value.id, mode.value);
      }
      assert file[..|file|] == file;
      return Pass;
    }

    /** `put` on the overrides map. */
    method Put(key: Option<string>, v: ActionOnWrongInvocationMode)
      modifies this`actionsOnWrongMode
      ensures actionsOnWrongMode == old(actionsOnWrongMode)[key := v]
      ensures Table() == old(Table())[key := v.Snapshot()]
      ensures forall x :: x in actionsOnWrongMode.Values ==> x == v || x in old(actionsOnWrongMode).Values
    {
      ghost var before := Table();
      ghost var m := actionsOnWrongMode;
      actionsOnWrongMode := actionsOnWrongMode[key := v];
      assert forall k :: k in Table() ==> Table()[k] == before[key := v.Snapshot()][k];
      forall x | x in actionsOnWrongMode.Values
        ensures x == v || x in m.Values
      {
        var k :| k in actionsOnWrongMode && actionsOnWrongMode[k] == x;
        if k != key {
          assert m[k] == x;
        }
      }
    }

    /** `isInvocationControlEnabled`. */
    function IsInvocationControlEnabled(): bool
      reads this
    {
      store.invocationControlEnabled
    }

    method StoreInvocationControlEnabled(enabled: bool)
      modifies this
      ensures IsInvocationControlEnabled() == enabled
      ensures store == old(store).(invocationControlEnabled := enabled)
      ensures actionsOnWrongMode == old(actionsOnWrongMode) && file == old(file)
    {
      store := store.(invocationControlEnabled := enabled);
    }

    /** `isConfigureKeyboardShortcutEnabled`. */
    function IsConfigureKeyboardShortcutEnabled(): bool
      reads this
    {
      store.configureKeyboardShortcutEnabled
    }

    method StoreConfigureKeyboardShortcutEnabled(enabled: bool)
      modifies this
      ensures IsConfigureKeyboardShortcutEnabled() == enabled
      ensures store == old(store).(configureKeyboardShortcutEnabled := enabled)
      ensures actionsOnWrongMode == old(actionsOnWrongMode) && file == old(file)
    {
      store := store.(configureKeyboardShortcutEnabled := enabled);
    }

    /** `getConfigureKeyboardShortcutThreshold`. */
    function GetConfigureKeyboardShortcutThreshold(): int32
      reads this
    {
      store.configureKeyboardShortcutThreshold
    }

    method StoreConfigureKeyboardShortcutThreshold(threshold: int32)
      modifies this
      ensures GetConfigureKeyboardShortcutThreshold() == threshold
      ensures store == old(store).(configureKeyboardShortcutThreshold := threshold)
      ensures actionsOnWrongMode == old(actionsOnWrongMode) && file == old(file)
    {
      store := store.(configureKeyboardShortcutThreshold := threshold);
    }

    /** `getOnWrongInvocationMode()`: the global policy; an unknown stored name is an IllegalArgumentException. */
    function GetDefaultOnWrongInvocationMode(): Result<Mode>
      reads this
    {
      GlobalMode(store.defaultOnWrongInvocationMode)
    }

    /** `storeOnWrongInvocationMode`: null is refused; a stored policy is read back unchanged. */
    method StoreOnWrongInvocationMode(value: Option<Mode>) returns (o: Outcome)
      modifies this
      ensures value.None? ==> o == Fail(IllegalArgument) && store == old(store)
      ensures value.Some? ==> o == Pass && GetDefaultOnWrongInvocationMode() == Ok(value.value)
      ensures store.invocationControlEnabled == old(store.invocationControlEnabled)
      ensures store.configureKeyboardShortcutEnabled == old(store.configureKeyboardShortcutEnabled)
      ensures store.configureKeyboardShortcutThreshold == old(store.configureKeyboardShortcutThreshold)
      ensures actionsOnWrongMode == old(actionsOnWrongMode) && file == old(file)
    {
      if value.None? {
        return Fail(IllegalArgument);
      }
      store := store.(defaultOnWrongInvocationMode := Some(Name(value.value)));
      NameRoundTrip(value.value);
      return Pass;
    }

    /** `getOnWrongInvocationMode(actionId)`: the override's mode, null when there is none. */
    function GetOnWrongInvocationMode(actionId: Option<string>): (r: Result<Option<Mode>>)
      reads this`actionsOnWrongMode, actionsOnWrongMode.Values
      ensures actionId.None? ==> r == Err(IllegalArgument)
      ensures actionId.Some? && actionId !in Table() ==> r == Ok(None)
      ensures actionId.Some? && actionId in Table() ==> r == Ok(Table()[actionId].mode)
    {
      if actionId.None? then Err(IllegalArgument)
      else if actionId !in actionsOnWrongMode then Ok(None)
      else Ok(actionsOnWrongMode[actionId].mode)
    }

    /** `getActionsOnWrongInvocationMode`: the override objects themselves. */
    function GetActionsOnWrongInvocationMode(): (r: set<ActionOnWrongInvocationMode>)
      reads this
      ensures forall k :: k in actionsOnWrongMode ==> actionsOnWrongMode[k] in r
      ensures forall s :: s in r ==> exists k :: k in actionsOnWrongMode && actionsOnWrongMode[k] == s
    {
      actionsOnWrongMode.Values
    }

    /**
     * The objects `getActionsOnWrongInvocationMode` returns have unique ids
     * while the map is keyed by the ids of its objects, as it is after
     * construction and after every load.
     */
    lemma UniqueIds()
      requires Persistable(Table())
      ensures forall a, b :: a in GetActionsOnWrongInvocationMode() && b in GetActionsOnWrongInvocationMode() && a.id == b.id ==> a == b
    {
      forall a, b | a in GetActionsOnWrongInvocationMode() && b in GetActionsOnWrongInvocationMode() && a.id == b.id
        ensures a == b
      {
        var ka :| ka in actionsOnWrongMode && actionsOnWrongMode[ka] == a;
        var kb :| kb in actionsOnWrongMode && actionsOnWrongMode[kb] == b;
        assert Table()[ka].id == ka && Table()[kb].id == kb;
      }
    }

    /**
     * `createActionsOnWrongInvocationModeMemento`: one record per override, in
     * the map's iteration order; an override without a mode is a
     * NullPointerException.
     */
    method CreateActionsOnWrongInvocationModeMemento() returns (r: Result<seq<Record>>, ghost order: seq<Option<string>>)
      ensures IsEnumeration(order, Table().Keys)
      ensures r == RecordsOf(Table(), order)
    {
      var remaining := actionsOnWrongMode.Keys;
      var records := [];
      order := [];
      while remaining != {}
        invariant remaining <= actionsOnWrongMode.Keys
        invariant forall i, j :: 0 <= i < j < |order| ==> order[i] != order[j]
        invariant forall k :: k in order <==> k in actionsOnWrongMode && k !in remaining
        invariant RecordsOf(Table(), order) == Ok(records)
        decreases remaining
      {
        var k :| k in remaining;
        var rec := ToRecord(actionsOnWrongMode[k].Snapshot());
        if rec.Err? {
          ghost var rest := Enumerate(remaining - {k});
          AppendEnumeration(order + [k], rest, actionsOnWrongMode.Keys, remaining - {k});
          RecordsOfFailedPrefix(Table(), order + [k], rest);
          return Err(rec.failure), order + [k] + rest;
        }
        records := records + [rec.value];
        order := order + [k];
        assert order[..|order| - 1] + [k] == order;
        remaining := remaining - {k};
      }
      return Ok(records), order;
    }

    /** `saveActionsOnWrongInvocationMode`: the file is replaced only when every record could be built. */
    method SaveActionsOnWrongInvocationMode() returns (o: Outcome)
      modifies this
      ensures store == old(store) && actionsOnWrongMode == old(actionsOnWrongMode)
      ensures SavedAs(Table(), old(file), file, o)
    {
      var records;
      ghost var order;
      records, order := CreateActionsOnWrongInvocationModeMemento();
      if records.Err? {
        return Fail(records.failure);
      }
      file := records.value;
      return Pass;
    }

    /**
     * `setOnWrongInvocationMode(settings)`: the object itself is stored under
     * its current id, so later changes to it show through, then the overrides
     * are saved.
     */
    method SetOnWrongInvocationMode(settings: ActionOnWrongInvocationMode?) returns (o: Outcome)
      modifies this
      ensures settings == null ==> o == Fail(IllegalArgument) && unchanged(this)
      ensures settings != null ==> actionsOnWrongMode == old(actionsOnWrongMode)[settings.id := settings]
      ensures settings != null ==> Table() == old(Table())[settings.id := settings.Snapshot()]
      ensures settings != null && settings.id.Some? ==> GetOnWrongInvocationMode(settings.id) == Ok(settings.mode)
      ensures settings != null ==> store == old(store) && SavedAs(Table(), old(file), file, o)
    {
      if settings == null {
        return Fail(IllegalArgument);
      }
      Put(settings.id, settings);
      o := SaveActionsOnWrongInvocationMode();
    }

    /**
     * `setActionsOnWrongInvocationMode(settings)`: the map is replaced by
     * copies of the given overrides, later ones replacing earlier ones with
     * the same id, then saved.
     */
    method SetActionsOnWrongInvocationMode(settings: seq<ActionOnWrongInvocationMode>) returns (o: Outcome)
      modifies this
      ensures Table() == PutAll(map[], Snapshots(settings))
      ensures forall v :: v in actionsOnWrongMode.Values ==> fresh(v)
      ensures store == old(store) && SavedAs(Table(), old(file), file, o)
    {
      CopyIntoMap(settings);
      ghost var copied := Table();
      ghost var objects := actionsOnWrongMode;
      ghost var snapshots := Snapshots(settings);
      o := SaveActionsOnWrongInvocationMode();
      assert actionsOnWrongMode == objects && Table() == copied && Snapshots(settings) == snapshots;
    }

    /** The loop of `setActionsOnWrongInvocationMode`: clear the map, then put a copy of each override under its id. */
    method CopyIntoMap(settings: seq<ActionOnWrongInvocationMode>)
      modifies this`actionsOnWrongMode
      ensures Table() == PutAll(map[], Snapshots(settings))
      ensures forall v :: v in actionsOnWrongMode.Values ==> fresh(v)
    {
      ghost var snapshots := Snapshots(settings);
      actionsOnWrongMode := map[];
      for i := 0 to |settings|
        invariant Table() == PutAll(map[], snapshots[..i])
        invariant forall v :: v in actionsOnWrongMode.Values ==> fresh(v)
      {
        ghost var before := Table();
        var clone := settings[i].Clone();
        assert Table() == before && clone.Snapshot() == snapshots[i];
        Put(clone.id, clone);
        PutAllStep(map[], snapshots, i);
      }
      assert snapshots[..|settings|] == snapshots;
    }

    /** `removeOnWrongInvocaitonMode(actionId)`: drop the override, then save. */
    method RemoveOnWrongInvocationMode(actionId: Option<string>) returns (o: Outcome)
      modifies this
      ensures actionId.None? ==> o == Fail(IllegalArgument) && unchanged(this)
      ensures actionId.Some? ==> Table() == old(Table()) - {actionId} && GetOnWrongInvocationMode(actionId) == Ok(None)
      ensures actionId.Some? ==> store == old(store) && SavedAs(Table(), old(file), file, o)
    {
      if actionId.None? {
        return Fail(IllegalArgument);
      }
      actionsOnWrongMode := actionsOnWrongMode - {actionId};
      o := SaveActionsOnWrongInvocationMode();
    }
  }

  /** One child of the memento read into a new override object through its validating setters. */
  method LoadRecord(rec: Record) returns (r: Result<ActionOnWrongInvocationMode>)
    ensures r.Ok? <==> FromRecord(rec).Ok?
    ensures r.Err? ==> r.failure == FromRecord(rec).failure
    ensures r.Ok? ==> fresh(r.value) && r.value.Snapshot() == FromRecord(rec).value
  {
    var mode := new ActionOnWrongInvocationMode();
    var o := mode.SetLabel(rec.labelText);
    if o.Fail? {
      return Err(o.failure);
    }
    o := mode.SetId(rec.id);
    if o.Fail? {
      return Err(o.failure);
    }
    var parsed := ValueOf(rec.mode);
    if parsed.Err? {
      return Err(parsed.failure);
    }
    o := mode.SetOnWrongInvocationMode(Some(parsed.value));
    return Ok(mode);
  }

  /** Once loading has stopped, later records are not looked at. */
  lemma {:induction false} LoadStopsAtFailure(records: seq<Record>, n: nat)
    requires n <= |records| && LoadAll(records[..n]).failure.Some?
    ensures LoadAll(records) == LoadAll(records[..n])
    decreases |records| - n
  {
    if n < |records| {
      assert records[..n + 1][..n] == records[..n];
      LoadStopsAtFailure(records, n + 1);
    } else {
      assert records[..n] == records;
    }
  }

  /** Once a record cannot be built, the records of a longer visit cannot be either. */
  lemma {:induction false} RecordsOfFailedPrefix(t: map<Option<string>, Setting>, order: seq<Option<string>>, rest: seq<Option<string>>)
    requires forall k :: k in order + rest ==> k in t
    requires RecordsOf(t, order).Err?
    ensures RecordsOf(t, order + rest) == RecordsOf(t, order)
    decreases |rest|
  {
    if rest != [] {
      var longer := order + rest;
      assert longer[..|longer| - 1] == order + rest[..|rest| - 1];
      RecordsOfFailedPrefix(t, order, rest[..|rest| - 1]);
    } else {
      assert order + rest == order;
    }
  }

  /** Completing a visit of the keys not yet in `remaining` with a visit of `remaining` visits all keys once. */
  lemma AppendEnumeration(order: seq<Option<string>>, rest: seq<Option<string>>, keys: set<Option<string>>, remaining: set<Option<string>>)
    requires forall i, j :: 0 <= i < j < |order| ==> order[i] != order[j]
    requires forall x :: x in order <==> x in keys && x !in remaining
    requires forall i, j :: 0 <= i < j < |rest| ==> rest[i] != rest[j]
    requires forall x :: x in rest <==> x in remaining
    requires remaining <= keys
    ensures IsEnumeration(order + rest, keys)
  {
    var full := order + rest;
    forall i, j | 0 <= i < j < |full|
      ensures full[i] != full[j]
    {
      if i < |order| <= j {
        assert full[i] in order && full[j] in rest;
      } else if |order| <= i {
        assert full[i] == rest[i - |order|] && full[j] == rest[j - |order|];
      }
    }
  }

  /** Some order visiting every element of a finite set once. */
  ghost function Enumerate(s: set<Option<string>>): (r: seq<Option<string>>)
    ensures (forall i, j :: 0 <= i < j < |r| ==> r[i] != r[j]) && (forall k :: k in s <==> k in r)
    decreases s
  {
    if s == {} then []
    else
      var k :| k in s;
      [k] + Enumerate(s - {k})
  }
}
