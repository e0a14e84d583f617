/** The optional value used where the modelled code passes a possibly-null reference. */
module Wrappers {

  datatype Option<+T> = None | Some(value: T)
}
