/** Optional values and the Python exceptions the modelled code raises. */
module Outcomes {

  datatype Option<+T> = None | Some(value: T)

  /** The exception kinds raised by the modelled code. */
  datatype Error =
    | IndexError          // lookup of an absent key, a short list, a length mismatch
    | ValueError(msg: string)
    | TypeError           // a bad argument kind, an unbound baseline, a padded window
    | KeyError(key: string)

  /** A value or the exception raised instead of producing it. */
  datatype Result<+T> = Ok(value: T) | Err(error: Error)

  /** A procedure that returns nothing or raises. */
  datatype Outcome = Pass | Fail(error: Error)
}
