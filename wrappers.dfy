/** The optional value used for a reference that may be null and for a
    service call that may throw. */
module Wrappers {

  datatype Option<+T> = None | Some(value: T)
}
