// A value that may be missing: a null pointer, a prompt that was declined, an event not registered.
module Options {
  datatype Option<T> = None | Some(value: T)
}
