/**
 * The two init-once holders (eclipse/PreferenceStoreProvider.java, holding
 * the preference store, and eclipse/PluginProvider.java, holding the plug-in):
 * both keep one value that may be set once and read only after it was set.
 * One generic class models both.
 */
module Providers {
  import opened Outcomes

  /** A holder that is set once: `None` until initialized. */
  class Provider<T> {
    var held: Option<T>

    /** A new holder is not initialized. */
    constructor ()
      ensures held.None?
    {
      held := None;
    }

    /** `getPreferenceStore` / `getPlugin`: reading before initialization is an illegal state. */
    function Get(): (r: Result<T>)
      reads this
      ensures r.Ok? <==> held.Some?
      ensures r.Ok? ==> Some(r.value) == held
      ensures r.Err? ==> r.failure == IllegalState
    {
      if held.None? then Err(IllegalState) else Ok(held.value)
    }

    /**
     * `setPreferenceStore` / `setPlugin`: null is refused first, then a second
     * initialization; only the first successful call stores a value, and that
     * value is then kept for good.
     */
    method Set(v: Option<T>) returns (o: Outcome)
      modifies this
      ensures v.None? ==> o == Fail(IllegalArgument)
      ensures v.Some? && old(held).Some? ==> o == Fail(IllegalState)
      ensures o.Pass? <==> v.Some? && old(held).None?
      ensures o.Pass? ==> Get() == Ok(v.value)
      ensures o.Fail? ==> held == old(held) && Get() == old(Get())
    {
      if v.None? {
        return Fail(IllegalArgument);
      }
      if held.Some? {
        return Fail(IllegalState);
      }
      held := v;
      return Pass;
    }
  }
}
