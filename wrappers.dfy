/** Option and Result values shared by the rest of the model. */
module Wrappers {

  /** A value that may be absent: Python's `None` or a value. */
  datatype Option<+T> = None | Some(value: T)

  /** The outcome of a step that can raise Python's `ValueError` (from `int()`);
      the error carries the literal `int()` rejected. */
  datatype Result<+T> = Ok(value: T) | ValueError(literal: string)
}
