/** The one optional value used throughout: a reference or string that may be missing. */
module Options {
  datatype Option<+T> = None | Some(value: T)
}
