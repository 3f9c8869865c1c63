/** The optional value used for empty grid cells and for the current selection. */
module Wrappers {

  datatype Option<+T> = None | Some(value: T)
}
