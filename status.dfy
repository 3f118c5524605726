/** gRPC status codes and status errors, as plain values. */
module GrpcStatus {
  /** The canonical gRPC status codes. */
  datatype Code =
    | OK | Canceled | Unknown | InvalidArgument | DeadlineExceeded | NotFound
    | AlreadyExists | PermissionDenied | ResourceExhausted | FailedPrecondition
    | Aborted | OutOfRange | Unimplemented | Internal | Unavailable | DataLoss
    | Unauthenticated

  /** A status error: a code and a message. */
  datatype Status = Status(code: Code, message: string)
}
