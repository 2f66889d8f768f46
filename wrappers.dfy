/** The optional value shared by every module: a value that may be absent
    (Python's `None`). */
module Wrappers {

  datatype Option<+T> = None | Some(value: T)
}
