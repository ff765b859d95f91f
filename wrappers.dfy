/** The optional value used wherever the source returns `null`/`undefined` or reads a tag that may be absent. */
module Wrappers {
  datatype Option<+T> = None | Some(value: T)
}
