/** The optional-value type shared by the rate limiter and the health monitor. */
module Options {

  /** A value that may be missing: Python's `None` or a present value. */
  datatype Option<T> = None | Some(value: T)
}
