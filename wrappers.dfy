/** The optional value used for the Kotlin nullable types of the model. */
module Wrappers {

  datatype Option<+T> = None | Some(value: T)
}
