module Options {

  /** A value or nothing. */
  datatype Option<+T> = None | Some(value: T)
}
