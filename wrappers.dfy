/** The conventional optional value, used for "no candidate found yet". */
module Wrappers {

  datatype Option<+T> = None | Some(value: T)
}
