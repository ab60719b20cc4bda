module Options {

  /** A value that may be absent: a nullable column, a lookup that may miss. */
  datatype Option<+T> = None | Some(value: T)

  /** The outcome of an operation that may fail; what the error says does not matter here. */
  datatype Result<+T> = Ok(value: T) | Err
}
