/** The optional and fallible results shared by the other modules. */
module Options {
  datatype Option<+T> = None | Some(value: T)

  /** What a source function does when it may throw: it returns, or it fails with a reason. */
  datatype Result<+T, +E> = Ok(value: T) | Err(error: E)
}
