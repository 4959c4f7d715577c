/** A value that may be absent: Go's nil pointer, missing map entry or error result. */
module Options {
  datatype Option<+T> = None | Some(value: T)
}
