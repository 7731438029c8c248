/** The optional value used for the round slot, which the screen keeps as `null` when no round exists. */
module Wrappers {

  datatype Option<+T> = None | Some(value: T)
}
