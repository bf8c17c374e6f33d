/** Python's `None`-or-value and value-or-exception, as datatypes. */
module Wrappers {

  /** A value that may be Python's `None`. */
  datatype Option<+T> = None | Some(value: T)

  /** The outcome of evaluating an expression that may raise. */
  datatype Result<+T, +E> = Ok(value: T) | Err(error: E)
}
