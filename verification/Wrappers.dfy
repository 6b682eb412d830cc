/** The optional value used for nullable columns and for answers that can fail. */
module Wrappers {
  datatype Option<+T> = None | Some(value: T)
}
