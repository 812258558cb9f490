/** Result type for the register file's one error kind. */
module Wrappers {

  /** Either the value an access produced or the reason it was refused. */
  datatype Result<+R, +E> = Success(value: R) | Failure(error: E)
}
