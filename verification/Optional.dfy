/** A value that may be missing: the C code's NULL results. */
module Optional {
  datatype Option<+T> = None | Some(value: T)
}
