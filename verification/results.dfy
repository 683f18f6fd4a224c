/** Failure-carrying return values shared by the profile and time-step models. */
module Results {

  /** A value that may be absent. */
  datatype Option<+T> = None | Some(value: T)

  /** Either a computed value or the reason the computation aborted. */
  datatype Result<+T, +E> = Ok(value: T) | Err(error: E)
}
