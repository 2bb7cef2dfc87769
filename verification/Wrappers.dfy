/** Values that may be missing, and operations that may raise. */
module Wrappers {
  datatype Option<+T> = None | Some(value: T)

  /** A call either returns a value or raises; the exception text is not modelled. */
  datatype Result<+T> = Ok(value: T) | Raised
}
