/** The Some/None datatype used for Go's nil-able values. */
module Options {
  datatype Option<+T> = None | Some(value: T)
}
