/** A value that may be missing, usable with `:-` to stop at the first missing one. */
module Wrappers {

  datatype Option<+T> = None | Some(value: T) {

    /** A missing value stops a `:-` chain. */
    predicate IsFailure() {
      None?
    }

    /** Carries a missing value on as a missing value of another type. */
    function PropagateFailure<U>(): Option<U>
      requires None?
    {
      None
    }

    /** The value that is present. */
    function Extract(): T
      requires Some?
    {
      value
    }
  }
}
