/** The optional value used wherever the source works with a possibly-null reference. */
module Wrappers {

  /** `None` stands for Java's `null`. Supports `:-` for early exit. */
  datatype Option<+T> = None | Some(value: T) {

    predicate IsFailure() {
      None?
    }

    function PropagateFailure<U>(): Option<U>
      requires None?
    {
      None
    }

    function Extract(): T
      requires Some?
    {
      value
    }
  }
}
