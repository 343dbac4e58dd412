/** The optional value used wherever the original code uses `None` or a falsy value. */
module Wrappers {
  datatype Option<+T> = None | Some(value: T)
}
