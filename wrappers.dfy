/** Optional values, and results standing for the exceptions the library throws. */
module Wrappers {

  datatype Option<T> = None | Some(value: T)

  /** The two exception classes the library throws: `Sepa_Exception` from
      the setters of the message and PHP's plain `Exception` from the
      currency check. */
  datatype Error = SepaException(message: string) | Exception(message: string)

  /** A value, or the exception thrown instead of returning it. */
  datatype Result<T> = Ok(value: T) | Err(error: Error)
}
