/** Python's `None`-or-value, used for optional facility ids and for results that can fail. */
module Options {
  datatype Option<+T> = None | Some(value: T)
}
