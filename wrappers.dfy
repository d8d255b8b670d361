/** A Go pointer that may be nil: `None` stands for nil, `Some(v)` for a pointer to `v`. */
module Wrappers {

  datatype Option<+T> = None | Some(value: T)
}
