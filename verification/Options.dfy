/** A value that may be missing: a map lookup, a nullable field, a promise that has not settled. */
module Options {
  datatype Option<+T> = None | Some(value: T)
}
