/** Option type used for values that a C function reports as NULL or as an error code. */
module Wrappers {

  datatype Option<+T> = None | Some(value: T)

}
