/** Option and Result, and the Python exceptions the script can raise, as values. */
module Wrappers {

  datatype Option<+T> = None | Some(value: T)

  /** The exceptions of the script that abort a run, each named after the Python exception. */
  datatype Error =
    | IndexError(what: string)            // a list indexed past its end
    | KeyError(key: string)               // a cache lookup of a URL that is not stored
    | ValueError(expected: nat, got: nat) // unpacking a cell list of the wrong length
    | AttributeError(what: string)        // an attribute read on `None`

  datatype Result<+T> = Success(value: T) | Failure(error: Error)
}
