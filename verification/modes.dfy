/**
 * The reaction policies (client/OnWrongInvocationMode.java and the older
 * client/OnWrongAccessMode.java): their constants, names, ordinals and
 * localised labels.
 */
module Modes {
  import opened Outcomes
  import opened Messages
  import opened Text

  /** `OnWrongInvocationMode`: what to do when an action with a shortcut is run by mouse. */
  datatype Mode = DoNothing | Remind | Enforce

  /** `OnWrongInvocationMode.DEFAULT`. */
  const DefaultMode := Remind

  /** `values()`, in declaration order. */
  function Values(): (r: seq<Mode>)
    ensures |r| == 3
  {
    [DoNothing, Remind, Enforce]
  }

  /** `ordinal()`. */
  function Ordinal(m: Mode): (r: nat)
    ensures r < |Values()| && Values()[r] == m
  {
    match m
    case DoNothing => 0
    case Remind => 1
    case Enforce => 2
  }

  /** `name()`. */
  function Name(m: Mode): string {
    match m
    case DoNothing => "DO_NOTHING"
    case Remind => "REMIND"
    case Enforce => "ENFORCE"
  }

  /** `valueOf(name)`: null is a NullPointerException, an unknown name an IllegalArgumentException. */
  function ValueOf(name: Option<string>): (r: Result<Mode>)
    ensures name.None? ==> r == Err(NullPointer)
    ensures r.Ok? ==> Name(r.value) == name.value
    ensures name.Some? && (forall m: Mode :: Name(m) != name.value) ==> r == Err(IllegalArgument)
  {
    if name.None? then Err(NullPointer)
    else if name.value == "DO_NOTHING" then Ok(DoNothing)
    else if name.value == "REMIND" then Ok(Remind)
    else if name.value == "ENFORCE" then Ok(Enforce)
    else Err(IllegalArgument)
  }

  /** Names and `valueOf` are inverse: every constant survives a round trip through its name. */
  lemma NameRoundTrip(m: Mode)
    ensures ValueOf(Some(Name(m))) == Ok(m)
  {
  }

  /** `values()[i]`: an index outside the constants is an ArrayIndexOutOfBoundsException. */
  function ValueAt(i: int): (r: Result<Mode>)
    ensures r.Ok? <==> 0 <= i < |Values()|
    ensures r.Ok? ==> Ordinal(r.value) == i
    ensures r.Err? ==> r.failure == IndexOutOfBounds
  {
    if 0 <= i < |Values()| then Ok(Values()[i]) else Err(IndexOutOfBounds)
  }

  /** `getLabel()`: the bundle entry `OnWrongInvocationMode.<NAME>`, falling back to `<NAME>`. */
  function Label(bundle: Bundle, m: Mode): Result<string> {
    Get(NewMessages(Some("OnWrongInvocationMode")), bundle, Some(Name(m)), [], Unformatted)
  }

  /**
   * A policy's label is the class-qualified bundle entry when there is one,
   * else the entry under its bare name; it is missing only when neither is.
   */
  lemma LabelLookup(bundle: Bundle, m: Mode)
    ensures Label(bundle, m).Ok? <==> "OnWrongInvocationMode." + Name(m) in bundle || Name(m) in bundle
    ensures "OnWrongInvocationMode." + Name(m) in bundle ==> Label(bundle, m) == Ok(bundle["OnWrongInvocationMode." + Name(m)])
    ensures "OnWrongInvocationMode." + Name(m) !in bundle && Name(m) in bundle ==> Label(bundle, m) == Ok(bundle[Name(m)])
  {
    assert !IsWhitespace(Name(m)[0]);
    assert NewMessages(Some("OnWrongInvocationMode")).forClassName + "." + Name(m) == "OnWrongInvocationMode." + Name(m);
    GetLookupOrder(NewMessages(Some("OnWrongInvocationMode")), bundle, Some(Name(m)), Unformatted);
  }

  /** `OnWrongAccessMode`: the older copy of the same three policies. */
  datatype AccessMode = AccessDoNothing | AccessRemind | AccessEnforce

  function AccessValues(): (r: seq<AccessMode>)
    ensures |r| == 3
  {
    [AccessDoNothing, AccessRemind, AccessEnforce]
  }

  function AccessName(m: AccessMode): string {
    match m
    case AccessDoNothing => "DO_NOTHING"
    case AccessRemind => "REMIND"
    case AccessEnforce => "ENFORCE"
  }

  /** `OnWrongAccessMode.getLabel()`, keyed by that enum's own simple name. */
  function AccessLabel(bundle: Bundle, m: AccessMode): Result<string> {
    Get(NewMessages(Some("OnWrongAccessMode")), bundle, Some(AccessName(m)), [], Unformatted)
  }

  /**
   * `OnWrongAccessMode.getLabelsAndNames()`: one row per constant, in
   * declaration order, holding its label and its name. The first label that
   * is missing from the bundle ends the call with its exception.
   */
  method GetLabelsAndNames(bundle: Bundle) returns (r: Result<array2<string>>)
    ensures r.Ok? ==> fresh(r.value) && r.value.Length0 == |AccessValues()| && r.value.Length1 == 2
    ensures r.Ok? ==> forall i :: 0 <= i < |AccessValues()| ==>
      AccessLabel(bundle, AccessValues()[i]) == Ok(r.value[i, 0]) && r.value[i, 1] == AccessName(AccessValues()[i])
    ensures r.Err? <==> exists i :: 0 <= i < |AccessValues()| && AccessLabel(bundle, AccessValues()[i]).Err?
  {
    var values := AccessValues();
    var result := new string[|values|, 2];
    for i := 0 to |values|
      invariant forall j :: 0 <= j < i ==> AccessLabel(bundle, values[j]) == Ok(result[j, 0]) && result[j, 1] == AccessName(values[j])
      invariant forall j :: 0 <= j < i ==> AccessLabel(bundle, values[j]).Ok?
    {
      var text := AccessLabel(bundle, values[i]);
      if text.Err? {
        return Err(text.failure);
      }
      result[i, 0] := text.value;
      result[i, 1] := AccessName(values[i]);
    }
    return Ok(result);
  }
}
