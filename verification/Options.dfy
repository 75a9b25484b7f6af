/** A value that may be missing: the source's NULL pointers and error returns. */
module Options {
  datatype Option<+T> = None | Some(value: T)
}
