/** Failure-carrying results shared by every component of the model. */
module Results {

  /** An optional value: the source's `null` or `undefined`. */
  datatype Option<+T> = None | Some(value: T)

  /** A value, or the reason why the source would have thrown. */
  datatype Result<+T, +E> = Ok(value: T) | Err(error: E)
}
