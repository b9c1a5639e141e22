/** The optional-value type used where the Python code returns or accepts None. */
module Wrappers {

  datatype Option<+T> = None | Some(value: T)
}
