/** The Option datatype the other modules use for Go's nil pointers, empty slots and absent errors. */
module Options {
  datatype Option<+T> = None | Some(value: T)
}
