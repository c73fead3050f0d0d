/** The optional value used for nullable results (a missing token, a callback that does not fire). */
module Wrappers {

  datatype Option<+T> = None | Some(value: T)
}
