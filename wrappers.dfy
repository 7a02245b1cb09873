/** The optional value used for results that may be absent
    (an exhausted iterator, a failed integer conversion, a missing key). */
module Wrappers {
  datatype Option<T> = None | Some(value: T)
}
