/** The optional value used wherever the controller has "None" in hand. */
module Wrappers {

  datatype Option<+T> = None | Some(value: T)
}
