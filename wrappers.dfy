/** Option and Result wrappers shared by every module of the model. */
module Wrappers {

  /** A value that may be absent: a Go nil pointer, a missing map entry. */
  datatype Option<T> = None | Some(value: T)

  /** The outcome of a Go function returning `(value, error)`. */
  datatype Result<T, E> = Ok(value: T) | Err(error: E)

  /** A Go `*bool` read as "set and true". */
  predicate IsTrue(b: Option<bool>)
  {
    b.Some? && b.value
  }
}
