/** The usual optional-value datatype, used for nullable values of the source. */
module Wrappers {

  datatype Option<+T> = None | Some(value: T)

}
