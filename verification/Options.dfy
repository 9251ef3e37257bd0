/** A value that may be absent: Python's `T | None`. */
module Options {
  datatype Option<T> = None | Some(value: T)
}
