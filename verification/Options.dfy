/** Optional values, used where the panel has a nil pointer, a missing file or an absent map entry. */
module Options {
  datatype Option<+T> = None | Some(value: T)
}
