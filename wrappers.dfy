/** The optional value the source writes as `None` or a number. */
module Wrappers {
  datatype Option<+T> = None | Some(value: T)
}
