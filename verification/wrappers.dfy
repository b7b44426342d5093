/** The optional value used for Go's nil pointers and for parse results. */
module Wrappers {

  datatype Option<+T> = None | Some(value: T)
}
