/** Optional values: a key that may be missing from the store, a field that may be
    missing from a record, a reduction over a list that may be empty. */
module Wrappers {
  datatype Option<+T> = None | Some(value: T)
}
