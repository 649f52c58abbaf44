/** Values that may be absent, as None is in the Python code. */
module Options {
  datatype Option<+T> = None | Some(value: T)
}
