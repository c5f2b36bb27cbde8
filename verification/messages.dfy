/**
 * Localised message lookup (client/Messages.java): a key is first tried
 * with the owning class's simple name as a prefix, then as given.
 */
module Messages {
  import opened Outcomes
  import opened Text

  /** The resource bundle: key to message pattern. */
  type Bundle = map<string, string>

  /** `MessageFormat.format(pattern, arguments)`, supplied by the platform. */
  type Formatter = (string, seq<string>) -> string

  /** The formatter passed by callers that give no arguments, for which no formatting is applied. */
  const Unformatted: Formatter := (pattern, arguments) => pattern

  /** Simple name of the marker class used when no owner class is given. */
  const NoOwnerName := "NoForClassIsSpecified"

  /** A `Messages` object: the simple name of the class it retrieves messages for. */
  datatype Messages = Messages(forClassName: string)

  /** `new Messages(forClass)`; a null class behaves like the no-argument constructor. */
  function NewMessages(forClass: Option<string>): (m: Messages)
    ensures forClass.None? ==> m == Messages(NoOwnerName)
    ensures forClass.Some? ==> m.forClassName == forClass.value
  {
    Messages(if forClass.None? then NoOwnerName else forClass.value)
  }

  /** `getFromBundle`: the raw pattern without arguments, the formatted one otherwise. */
  function GetFromBundle(bundle: Bundle, key: string, arguments: seq<string>, format: Formatter): (r: Result<string>)
    ensures key !in bundle ==> r == Err(MissingResource(key))
    ensures key in bundle && arguments == [] ==> r == Ok(bundle[key])
  {
    if key !in bundle then Err(MissingResource(key))
    else if arguments == [] then Ok(bundle[key])
    else Ok(format(bundle[key], arguments))
  }

  /** `get(key, arguments)`. */
  function Get(m: Messages, bundle: Bundle, key: Option<string>, arguments: seq<string>, format: Formatter): (r: Result<string>)
  {
    if IsBlank(key) then Err(NullPointer)
    else
      var forClassKey := m.forClassName + "." + key.value;
      if forClassKey in bundle then GetFromBundle(bundle, forClassKey, arguments, format)
      else GetFromBundle(bundle, key.value, arguments, format)
  }

  /**
   * What `get` promises: a blank key is refused; otherwise the class-qualified
   * entry wins, the plain key is the fallback, and a key found under neither
   * name reports the plain key as missing.
   */
  lemma GetLookupOrder(m: Messages, bundle: Bundle, key: Option<string>, format: Formatter)
    ensures IsBlank(key) <==> Get(m, bundle, key, [], format) == Err(NullPointer)
    ensures !IsBlank(key) && m.forClassName + "." + key.value in bundle ==>
      Get(m, bundle, key, [], format) == Ok(bundle[m.forClassName + "." + key.value])
    ensures !IsBlank(key) && m.forClassName + "." + key.value !in bundle && key.value in bundle ==>
      Get(m, bundle, key, [], format) == Ok(bundle[key.value])
    ensures !IsBlank(key) && m.forClassName + "." + key.value !in bundle && key.value !in bundle ==>
      Get(m, bundle, key, [], format) == Err(MissingResource(key.value))
  {
  }

  /**
   * For a bundle entry `C.k`, asking an object for class `C` for the short key
   * `k` or for the full key `C.k` gives the same message, as long as the bundle
   * has no doubly qualified `C.C.k` entry.
   */
  lemma {:induction false} ShortAndFullKeyAgree(c: string, k: string, bundle: Bundle, format: Formatter)
    requires c != "" && !IsBlank(Some(k))
    requires c + "." + k in bundle
    requires c + "." + (c + "." + k) !in bundle
    ensures Get(NewMessages(Some(c)), bundle, Some(k), [], format)
         == Get(NewMessages(Some(c)), bundle, Some(c + "." + k), [], format)
         == Ok(bundle[c + "." + k])
  {
    var i :| 0 <= i < |k| && !IsWhitespace(k[i]);
    var full := c + "." + k;
    assert full[|c| + 1 + i] == k[i];
  }

  /** A null owner class and the no-argument constructor give the same lookups. */
  lemma NullOwnerIsNoOwner(bundle: Bundle, key: Option<string>, arguments: seq<string>, format: Formatter)
    ensures Get(NewMessages(None), bundle, key, arguments, format)
         == Get(Messages(NoOwnerName), bundle, key, arguments, format)
  {
  }
}
