/** Failure-carrying wrappers shared by the model: an optional value, and a
    result that is either a value or the Python exception the source raises. */
module Wrappers {

  datatype Option<+T> = None | Some(value: T)

  /** The exceptions the modelled code raises, by their Python class. */
  datatype Exception =
    | ValueError(message: string)
    | TypeError(message: string)
    | AttributeError(attribute: string)
    | InterfaceError(message: string)
    | IndexError
    | IsADirectoryError(path: string)

  datatype Result<+T> = Ok(value: T) | Err(error: Exception)
}
