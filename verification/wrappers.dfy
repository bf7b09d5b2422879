/** An optional value: a field of a parsed frame that may be absent, a
    socket without an id yet, a C call that may fail. */
module Wrappers {
  datatype Option<T> = None | Some(value: T)
}
