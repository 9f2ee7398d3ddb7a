/** The value-or-exception results of the utterance code, with the Python
    exceptions it raises or lets through. */
module Outcomes {

  datatype Option<T> = None | Some(value: T)

  /** The exceptions the utterance code raises. */
  datatype Exception =
    | ValueError
    | IndexError
    | AttributeError
    | NameError

  /** A Python call that either returns a value or raises. */
  datatype Outcome<T> = Ok(value: T) | Raised(error: Exception)
}
