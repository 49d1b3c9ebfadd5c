/** The optional value used for Go's `value, ok` returns and nil-able fields. */
module Wrappers {

  datatype Option<+T> = None | Some(value: T)
}
