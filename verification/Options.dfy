/** A value that may be absent: the source's `None`, and a nullable column. */
module Options {
  datatype Option<+T> = None | Some(value: T)
}
