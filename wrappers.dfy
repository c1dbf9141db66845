/** An optional value, for inputs the solver may or may not be given. */
module Wrappers {
  datatype Option<+T> = None | Some(value: T)
}
