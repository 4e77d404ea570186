/** The optional value used for "a hand was (or was not) detected in this frame". */
module Wrappers {

  datatype Option<+T> = None | Some(value: T)
}
