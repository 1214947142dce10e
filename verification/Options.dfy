/** A value that may be missing: a null pointer, an absent registration, a timer that is not armed. */
module Options {
  datatype Option<T> = None | Some(value: T)
}
