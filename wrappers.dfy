/** The optional value used wherever the source passes `None`. */
module Wrappers {
  datatype Option<+T> = None | Some(value: T)
}
