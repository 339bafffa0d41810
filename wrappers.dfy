/** The optional-value datatype used for "no message" versus "a message". */
module Wrappers {

  datatype Option<+T> = None | Some(value: T)

}
