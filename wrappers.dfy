/** The optional value the components use where the source has `T | null` or `undefined`. */
module Wrappers {
  datatype Option<+T> = None | Some(value: T)
}
