/** Option and Result values standing in for Java's null, Optional and thrown exceptions. */
module Wrappers {

  datatype Option<+T> = None | Some(value: T)

  /** The exceptions the modelled Java code throws. */
  datatype Error =
    | IllegalArgument(message: string)
    | NullDereference

  datatype Result<+T> = Ok(value: T) | Err(error: Error)
}
