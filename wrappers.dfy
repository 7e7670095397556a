/** The optional value used wherever the source may find nothing (a missing header, an unknown id). */
module Wrappers {
  datatype Option<+T> = None | Some(value: T)
}
