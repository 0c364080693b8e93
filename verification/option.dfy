/** An optional value, for Python's `None`. */
module Optional {
  datatype Option<T> = None | Some(value: T)
}
