/** Small wrappers shared by every module: optional values (Python's None),
    results that carry an error (Python exceptions), and integer timestamps. */
module Common {

  /** A value that may be absent; `None` plays the part of Python's `None` / SQL NULL. */
  datatype Option<+T> = None | Some(value: T)

  /** The outcome of an operation that may raise. */
  datatype Result<+T, +E> = Ok(value: T) | Err(error: E)

  /** Timestamps are whole seconds on one clock. */
  type Time = int

  const SecondsPerDay: int := 24 * 60 * 60

  /** The seven-day window both digest jobs use (`timedelta(days=7)`). */
  const Week: int := 7 * SecondsPerDay

  /** Python truthiness of an optional string: `None` and `''` are false. */
  predicate Truthy(v: Option<string>)
  {
    v.Some? && v.value != ""
  }
}
