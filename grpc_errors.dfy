/**
 * `MapGrpcError`: the gateway's translation of an error returned by the post
 * service into an HTTP status and an `{"error": message}` body.
 */
module GrpcErrors {
  import opened Wrappers
  import opened Grpc

  datatype HttpError = HttpError(status: int, message: string)

  const DownstreamInternal: string := "An internal error occurred in a downstream service"

  /** `None` when nothing is written (a nil error). */
  function MapGrpcError(err: Option<Error>): (r: Option<HttpError>)
    ensures r.None? <==> err.None?
    ensures err.Some? && err.value.PlainError? ==>
      r == Some(HttpError(500, "Internal server error (unexpected error type)"))
    ensures err.Some? && err.value.StatusError? ==>
      && r.Some? && r.value.status == HttpStatusOf(err.value.code)
      && (EchoesMessage(err.value.code) ==> r.value.message == err.value.message)
  {
    match err
    case None => None
    case Some(PlainError(_)) => Some(HttpError(500, "Internal server error (unexpected error type)"))
    case Some(StatusError(code, message)) =>
      Some(
        match code
        case NotFound => HttpError(404, message)
        case InvalidArgument => HttpError(400, message)
        case PermissionDenied => HttpError(403, message)
        case Unauthenticated => HttpError(401, message)
        case AlreadyExists => HttpError(409, message)
        case DeadlineExceeded => HttpError(504, "Request to downstream service timed out")
        case Unavailable => HttpError(503, "Downstream service is currently unavailable")
        case Unimplemented => HttpError(501, "Feature not implemented")
        case _ => HttpError(500, DownstreamInternal))
  }

  /** The codes whose status message reaches the client unchanged. */
  predicate EchoesMessage(code: Code)
  {
    code in {NotFound, InvalidArgument, PermissionDenied, Unauthenticated, AlreadyExists}
  }

  /** The HTTP status each code stands for. */
  function HttpStatusOf(code: Code): int
  {
    match code
    case NotFound => 404
    case InvalidArgument => 400
    case PermissionDenied => 403
    case Unauthenticated => 401
    case AlreadyExists => 409
    case DeadlineExceeded => 504
    case Unavailable => 503
    case Unimplemented => 501
    case _ => 500
  }

  /**
   * Outside the five client-facing codes the answer does not depend on what
   * the downstream service said.
   */
  lemma OtherCodesHideTheMessage(code: Code, message: string, other: string)
    requires !EchoesMessage(code)
    ensures MapGrpcError(Some(StatusError(code, message))) == MapGrpcError(Some(StatusError(code, other)))
  {
  }

  /** Every answer is an error status: 4xx or 5xx. */
  lemma AnswersAreErrors(err: Error)
    ensures 400 <= MapGrpcError(Some(err)).value.status < 600
  {
  }

  /** Codes without a case of their own (Unknown, Internal, OK, ...) are a generic 500. */
  lemma UnlistedCodesAreInternal(code: Code, message: string)
    requires HttpStatusOf(code) == 500
    ensures MapGrpcError(Some(StatusError(code, message))) == Some(HttpError(500, DownstreamInternal))
  {
  }
}
