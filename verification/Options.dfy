/** A value that may be missing, where the source uses `None`. */
module Options {
  datatype Option<+T> = None | Some(value: T)
}
