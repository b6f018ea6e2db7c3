/** The optional value used where the scanner sees a nullable Kotlin value. */
module Wrappers {

  datatype Option<+T> = None | Some(value: T)
}
