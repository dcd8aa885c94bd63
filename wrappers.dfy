/** An optional value: a dictionary key that may be absent, a field that may not parse. */
module Wrappers {
  datatype Option<+T> = None | Some(value: T)
}
