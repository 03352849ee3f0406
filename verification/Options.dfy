/// A value that may be missing: a null pointer, an end iterator, or an exception thrown instead.
module Options {
  datatype Option<+T> = None | Some(value: T)
}
