/** The optional value used for the hook's `connection?` state, for an absent code and for a parse that finds no number. */
module Wrappers {
  datatype Option<+T> = None | Some(value: T)
}
