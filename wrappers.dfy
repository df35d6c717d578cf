// An optional value, for the lookups and replies that may have none.
module Wrappers {
  datatype Option<T> = None | Some(value: T)
}
