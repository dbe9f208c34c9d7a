/** Option and Result, plus the Python exception kinds the modelled code can raise. */
module Wrappers {

  datatype Option<+T> = None | Some(value: T)

  datatype Result<+R, +E> = Success(value: R) | Failure(error: E)

  /** The exceptions that escape (or are caught inside) the modelled functions. */
  datatype Exception =
    | NameError(name: string)          // a global name that was never bound
    | AttributeError                   // an attribute looked up on `None`
    | IndexError                       // a list index out of range
    | ValueError                       // `str.split` with an empty separator
    | TypeError                        // an unexpected keyword argument
    | External(description: string)    // raised by code outside the model (templates, drivers)
}
