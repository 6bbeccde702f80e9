/** The optional value used for partial conversions and for insights that may be absent. */
module Wrappers {

  datatype Option<+T> = None | Some(value: T)
}
