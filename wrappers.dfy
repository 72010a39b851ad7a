/** The Option type used for results that may be missing or may have failed. */
module Wrappers {

  datatype Option<+T> = None | Some(value: T)
}
