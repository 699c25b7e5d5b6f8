/** A value that may be missing: what is a NULL pointer in the interpreter. */
module Options {
  datatype Option<T> = None | Some(value: T)
}
