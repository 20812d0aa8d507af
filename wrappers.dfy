/** Small failure-compatible wrappers shared by every stage of the compiler. */
module Wrappers {

  /** Python's `None` / present value. */
  datatype Option<+T> = None | Some(value: T)

  /** Truthiness of an optional Python string: `None` and `""` are false. */
  predicate Truthy(s: Option<string>) {
    s.Some? && s.value != ""
  }

  /** Success or failure, usable with `:-`. */
  datatype Result<+T, +E> = Ok(value: T) | Err(error: E) {
    predicate IsFailure() {
      Err?
    }

    function PropagateFailure<U>(): Result<U, E>
      requires Err?
    {
      Err(error)
    }

    function Extract(): T
      requires Ok?
    {
      value
    }
  }
}
