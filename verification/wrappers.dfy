/** The optional-value datatype used for "no hand" and "no gesture". */
module Wrappers {

  datatype Option<+T> = None | Some(value: T)
}
