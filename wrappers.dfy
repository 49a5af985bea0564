/** The optional value used wherever the services hold `null` or `undefined`. */
module Wrappers {
  datatype Option<+T> = None | Some(value: T)
}
