/** The optional value used for the profile lookup and the period search. */
module Wrappers {
  datatype Option<+T> = None | Some(value: T)
}
