/** A value that may be absent, as Python's `None` return. */
module Options {
  datatype Option<+T> = None | Some(value: T)
}
