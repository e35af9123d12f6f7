/** The optional values that the decoder returns where a part of a name may be absent. */
module Wrappers {

  datatype Option<+T> = None | Some(value: T)
}
