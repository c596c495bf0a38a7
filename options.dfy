/** Optional values: a dictionary key that may be absent, a search that may find nothing. */
module Options {
  datatype Option<T> = None | Some(value: T)
}
