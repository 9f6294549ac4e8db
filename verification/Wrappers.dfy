/** The one wrapper the other modules share: Go's nil-able pointers and
    "value, ok" results become `Option`. */
module Wrappers {
  datatype Option<+T> = None | Some(value: T)
}
