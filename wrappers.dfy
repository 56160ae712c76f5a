/** Option and Result, the two failure-carrying datatypes the model uses. */
module Wrappers {

  /** Swift's optional value: `nil` is `None`. */
  datatype Option<+T> = None | Some(value: T)

  /** A value or the error a Swift `throw` or a failed promise would carry. */
  datatype Result<+T, +E> = Ok(value: T) | Err(error: E)

  /** The text Swift's string interpolation produces for a `Bool`. */
  function BoolText(b: bool): string
  {
    if b then "true" else "false"
  }
}
