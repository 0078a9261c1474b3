/** Outcome types shared by the model: an optional value, and a result that is
    either a value or one of the Python exceptions the modelled code can raise. */
module Wrappers {

  datatype Option<+T> = None | Some(value: T)

  /** The exceptions raised by the modelled code. */
  datatype Error =
    | KeyError     // a dict lookup with an absent key
    | IndexError   // a list index past the end
    | ValueError   // max()/min() of an empty sequence

  datatype Result<+T> = Ok(value: T) | Err(error: Error)
}
