/** An optional value, used for the pointer fields of a request and for
    results that may be absent. */
module Wrappers {
  datatype Option<+T> = None | Some(value: T)
}
