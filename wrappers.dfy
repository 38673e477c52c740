/** The Option type used for the quota query's "no result" return. */
module Wrappers {

  /** `None` stands for Python's bare `return` (the value `None`). */
  datatype Option<+T> = None | Some(value: T)
}
