/** Failure-compatible result types and the error taxonomy shared by the services.

    A Java method that either returns a value or throws one of the application's
    exceptions is modelled as a function returning `Result<T, Error>`. */
module Outcomes {

  /** A value that may be absent; `None` stands for Java's `null`. */
  datatype Option<+T> = None | Some(value: T)

  /** Either a computed value or a failure. */
  datatype Result<+T, +E> = Success(value: T) | Failure(error: E) {

    predicate IsFailure() {
      Failure?
    }

    function PropagateFailure<U>(): Result<U, E>
      requires Failure?
    {
      Failure(error)
    }

    function Extract(): T
      requires Success?
    {
      value
    }
  }

  /** What a failed remote call looks like to the composite's HTTP client.
      `ClientError` is Spring's `HttpClientErrorException` (a 4xx status):
      its status, the `message` field of its body when the body parses as an
      error document, and the exception's own message. `OtherFailure` is any
      other exception (a 5xx status, an I/O error). */
  datatype HttpFailure =
    | ClientError(status: int, parsedMessage: Option<string>, exceptionMessage: string)
    | OtherFailure(message: string)

  /** The exceptions a service call can end in. */
  datatype Error =
    | InvalidInput(message: string)       // InvalidInputException (HTTP 422)
    | NotFound(message: string)           // NotFoundException (HTTP 404)
    | EventProcessing(message: string)    // EventProcessingException
    | Rethrown(failure: HttpFailure)      // a remote failure passed on unchanged
    | Unexpected(message: string)         // any other RuntimeException

  /** The outcome of a call to a service that owns a store: the store
      afterwards, and the value returned or the exception thrown. */
  datatype Response<S, T> = Response(state: S, result: Result<T, Error>)

  /** HTTP status codes the composite client tells apart. */
  const NOT_FOUND: int := 404
  const UNPROCESSABLE_ENTITY: int := 422
}
