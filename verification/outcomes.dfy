/** Java's nullable references, its exceptions as data, and its 32-bit `int`. */
module Outcomes {

  /** A Java reference that may be null. */
  datatype Option<+T> = None | Some(value: T)

  /** The exception a Java call ends with. */
  datatype Failure =
    | IllegalArgument          // org.apache.commons.lang.Validate, explicit checks
    | IllegalState             // init-once providers
    | NullPointer              // dereference of null, Enum.valueOf(null)
    | MissingResource(key: string)
    | AssertionFailed          // "should never happen" reflection failures
    | RuntimeFailure           // NotDefinedException wrapped into RuntimeException
    | IndexOutOfBounds         // values()[i] with i out of range

  /** A value, or the exception that replaced it. */
  datatype Result<+T> = Ok(value: T) | Err(failure: Failure) {
    predicate IsFailure() { Err? }
    function PropagateFailure<U>(): Result<U>
      requires Err?
    {
      Err(failure)
    }
    function Extract(): T
      requires Ok?
    {
      value
    }
  }

  /** A call without a value that returned normally or threw. */
  datatype Outcome = Pass | Fail(failure: Failure) {
    predicate IsFailure() { Fail? }
    function PropagateFailure(): Outcome
      requires Fail?
    {
      this
    }
  }

  /** Java `int`. */
  newtype int32 = x: int | -0x8000_0000 <= x < 0x8000_0000

  /** `x + 1` on a Java `int`: the largest value wraps around to the smallest. */
  function Increment(x: int32): (r: int32)
    ensures x < 0x7fff_ffff ==> r as int == x as int + 1
    ensures x == 0x7fff_ffff ==> r == -0x8000_0000
  {
    if x == 0x7fff_ffff then -0x8000_0000 else x + 1
  }
}
