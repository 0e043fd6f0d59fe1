/** An optional value: an absent result, a nil pointer. */
module Options {
  datatype Option<T> = None | Some(value: T)
}
