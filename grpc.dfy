/**
 * gRPC status codes and the two shapes of Go `error` the core produces: a
 * gRPC status (`status.Error(code, msg)`) or a plain error (`errors.New`,
 * `fmt.Errorf`).
 */
module Grpc {

  datatype Code =
    | OK | Canceled | Unknown | InvalidArgument | DeadlineExceeded | NotFound
    | AlreadyExists | PermissionDenied | ResourceExhausted | FailedPrecondition
    | Aborted | OutOfRange | Unimplemented | Internal | Unavailable | DataLoss
    | Unauthenticated

  datatype Error =
    | StatusError(code: Code, message: string)
    | PlainError(message: string)
}
