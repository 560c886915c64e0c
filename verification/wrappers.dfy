/** The optional value that the source expresses as `null`/`undefined`. */
module Wrappers {
  datatype Option<+T> = None | Some(value: T)
}
