/** Failure-carrying wrappers shared by every module of the model. */
module Base {

  /** `None` stands for a Java `null` reference. */
  datatype Option<+T> = None | Some(value: T) {
    function GetOr(default: T): T {
      match this
      case Some(v) => v
      case None => default
    }
  }

  /** The outcome of an operation that may throw: `Err` names the exception. */
  datatype Result<+R> = Ok(value: R) | Err(error: Error)

  /** The exceptions the modelled code raises itself. */
  datatype Error =
    /**
     * a handler method annotated without any parameter: a RuntimeException
     * for `@Handle` and the base class's methods, and an
     * ArrayIndexOutOfBoundsException (from `getParameterTypes()[0]`) for
     * `@OnException` methods
     */
    | NoParameter(handler: nat)
    /** two entries for the same key in a Guava ImmutableMap (IllegalArgumentException) */
    | DuplicateKey(key: nat)
    /** `fireAndForget` on a send builder that carries a timeout (IllegalArgumentException) */
    | FireAndForgetWithTimeout
    /** publishing to the event bus with an explicit sender (IllegalArgumentException) */
    | PublishWithReplyTo
    /** `request` without a handler for the response type (IllegalStateException) */
    | NoResponseHandler(response: nat)
    /** `request` without a handler for TimeoutMsg (IllegalStateException) */
    | NoTimeoutHandler
    /** unboxing or dereferencing a null reference (NullPointerException) */
    | NullPointer
    /** a call that makes another of itself until the thread's stack runs out (StackOverflowError) */
    | StackOverflow
}
