/** Option, for values that may be missing (an unset session key, a failed listing). */
module Wrappers {

  datatype Option<+T> = None | Some(value: T)
}
