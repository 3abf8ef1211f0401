/** A value that may be absent, for nil pointers and failed lookups. */
module Options {
  datatype Option<+T> = None | Some(value: T)
}
