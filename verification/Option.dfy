/** A value that may be missing: the source's null references and empty optionals. */
module Options {
  datatype Option<+T> = None | Some(value: T)
}
