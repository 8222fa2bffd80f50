module Options {
  /** A result that may be missing: a file that cannot be opened, a NULL pointer. */
  datatype Option<+T> = None | Some(value: T)
}
