/** The optional value used for the source's `Option` results. */
module Wrappers {
  datatype Option<+T> = None | Some(value: T)
}
