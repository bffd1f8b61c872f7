/** A value that may be missing: a NULL column, a failed lookup, an error return. */
module Options {
  datatype Option<+T> = None | Some(value: T)
}
