/** The option, exception and call-outcome types shared by every module of the model. */
module Wrappers {

  /** A value that may be absent; `None` stands for Ruby's `nil`. */
  datatype Option<+T> = None | Some(value: T)

  /** The exceptions the driver can raise. */
  datatype Exception =
    | DrizzleException(message: string)
      /** Ruby's `TypeError`, raised by `Integer#|` when an option word has no enum value. */
    | TypeError(message: string)

  /** The outcome of a Ruby call: it either returns a value or raises an exception. */
  datatype Raises<+T> = Returned(value: T) | Raised(error: Exception)

  /** The exception both `check_error` and `async_result` raise on a failed status. */
  function QueryFailed(lastError: string): (e: Exception)
    ensures e.DrizzleException? && |e.message| == 14 + |lastError|
    ensures e.message[..14] == "Query failed: " && e.message[14..] == lastError
  {
    DrizzleException("Query failed: " + lastError)
  }
}
