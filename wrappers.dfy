/** The "value or nothing" result the stack and the solver return where the
    source returns `null`. */
module Wrappers {
  datatype Option<+T> = None | Some(value: T)
}
