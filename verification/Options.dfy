module Options {
  /** The source's `null` or `undefined`, or a value. */
  datatype Option<+T> = None | Some(value: T)
}
