/** The result of an operation that the program ends by returning a value or by raising. */
module Wrappers {
  /** `None` stands for a raised exception or for Python's `None`; each use says which. */
  datatype Option<+T> = None | Some(value: T) {
    function UnwrapOr(default: T): T {
      if Some? then value else default
    }

    predicate IsFailure() { None? }

    function PropagateFailure<U>(): Option<U>
      requires None?
    {
      None
    }

    function Extract(): T
      requires Some?
    {
      value
    }
  }
}
