/** Failure-carrying values shared by the modules of the swap model. */
module Wrappers {

  /** A value that may be absent; `None` stands for a call that raised. */
  datatype Option<+T> = None | Some(value: T)

  /** A value or the error that prevented computing it. */
  datatype Result<+T, +E> = Ok(value: T) | Err(error: E)
}
