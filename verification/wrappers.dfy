/** The optional value the model uses for Python's `None`-or-value returns. */
module Wrappers {

  /** `None` models Python's `None`; `Some(v)` any other value. */
  datatype Option<+T> = None | Some(value: T)
}
