/** Results that may be absent: a NULL pointer, a failed search. */
module Options {
  datatype Option<T> = None | Some(value: T)
}
