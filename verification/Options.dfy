/** An optional value, for the source's `Option`. */
module Options {
  datatype Option<+T> = None | Some(value: T)
}
