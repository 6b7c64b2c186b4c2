/** An absent or present value. */
module Wrappers {
  datatype Option<+T> = None | Some(value: T)
}
