/** Values that cross the promise/future boundary: optional fields, captured
    exceptions, and the two shapes of an operation's result (a value or a throw,
    and a plain completion or a throw). */
module Exceptions {

  datatype Option<+T> = None | Some(value: T)

  /** A captured exception. Every exception the primitive raises itself is a
      std::runtime_error, identified by its message; any other exception a
      producer captures and hands over is an opaque token. */
  datatype Exception = RuntimeError(what: string) | Foreign(token: nat)

  /** An operation that returns a value or throws. */
  datatype Result<+T> = Ok(value: T) | Throw(exc: Exception)

  /** An operation that returns nothing or throws. */
  datatype Outcome = Pass | Fail(exc: Exception)

  // The messages of the runtime errors the primitive throws.
  const AlreadySatisfied := RuntimeError("Promise already satisfied")
  const InternalError := RuntimeError("Internal error: shared state ready but no value or exception")
  const FutureNoState := RuntimeError("Future has no associated state")
  const AlreadyRetrievedOrNoState := RuntimeError("Future already retrieved or no state")
  const PromiseNoState := RuntimeError("Promise has no state")
  const BrokenPromise := RuntimeError("Broken promise")
}
