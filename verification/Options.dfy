/** An optional value: a nullable column, or a Python argument that may be None. */
module Options {
  datatype Option<+T> = None | Some(value: T)
}
