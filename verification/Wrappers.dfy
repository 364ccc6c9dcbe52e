/** Results of operations that may fail; the source's panics and error returns are failures here. */
module Wrappers {
  datatype Option<+T> = None | Some(value: T)
}
