/** The Some/None type used where the sources use a nil pointer or a comma-ok result. */
module Wrappers {
  datatype Option<+T> = None | Some(value: T)
}
