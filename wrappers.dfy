/** The usual optional value, used for parsers and for a style rule that may be absent. */
module Wrappers {
  datatype Option<+T> = None | Some(value: T)
}
