/** Error reporting for the settings helper: the .NET exceptions the source
    lets escape become values, so every error path is part of the model. */
module Outcomes {

  /** The exceptions the modelled code can raise. */
  datatype Error =
    | KeyNotFound      // Dictionary indexer on a missing key
    | DuplicateKey     // Dictionary.Add on a key already present
    | NullReference    // a member access through a null field
    | IndexOutOfRange  // NLog's per-level table indexed with LogLevel.Off

  /** The result of an operation that returns nothing. */
  datatype Outcome = Pass | Fail(error: Error)

  /** The result of an operation that returns a value. */
  datatype Result<+T> = Success(value: T) | Failure(error: Error)

  /** A reference that may be null. */
  datatype Option<+T> = None | Some(value: T)
}
