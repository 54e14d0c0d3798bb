/** A value that may be absent: SQL NULL, a missing row, a lookup that finds nothing. */
module Options {
  datatype Option<T> = None | Some(value: T)
}
