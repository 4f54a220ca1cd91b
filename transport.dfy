/**
 * Conversion of a `Status` into the transport's status (the gRPC status of
 * the `tonic` library). The transport status is reduced to what the
 * conversion sets: a code and a message.
 */
module Transport {
  import E = Error

  /** The transport's status codes, in the order of their gRPC numbers 0..16. */
  datatype Code =
    | Ok
    | Cancelled
    | Unknown
    | InvalidArgument
    | DeadlineExceeded
    | NotFound
    | AlreadyExists
    | PermissionDenied
    | ResourceExhausted
    | FailedPrecondition
    | Aborted
    | OutOfRange
    | Unimplemented
    | Internal
    | Unavailable
    | DataLoss
    | Unauthenticated

  datatype TransportStatus = TransportStatus(code: Code, message: string)

  /** The canonical gRPC name of each transport code. */
  function GrpcName(c: Code): string
  {
    match c
    case Ok => "OK"
    case Cancelled => "CANCELLED"
    case Unknown => "UNKNOWN"
    case InvalidArgument => "INVALID_ARGUMENT"
    case DeadlineExceeded => "DEADLINE_EXCEEDED"
    case NotFound => "NOT_FOUND"
    case AlreadyExists => "ALREADY_EXISTS"
    case PermissionDenied => "PERMISSION_DENIED"
    case ResourceExhausted => "RESOURCE_EXHAUSTED"
    case FailedPrecondition => "FAILED_PRECONDITION"
    case Aborted => "ABORTED"
    case OutOfRange => "OUT_OF_RANGE"
    case Unimplemented => "UNIMPLEMENTED"
    case Internal => "INTERNAL"
    case Unavailable => "UNAVAILABLE"
    case DataLoss => "DATA_LOSS"
    case Unauthenticated => "UNAUTHENTICATED"
  }

  /**
   * Each variant goes to the transport status of the same name, carrying only
   * the message; the error details are dropped. Never yields `Ok`.
   */
  function FromStatus(s: E.Status): (t: TransportStatus)
    ensures t.message == s.details.message
    ensures t.code != Ok
  {
    match s
    case Cancelled(d) => TransportStatus(Cancelled, d.message)
    case Unknown(d) => TransportStatus(Unknown, d.message)
    case InvalidArgument(d) => TransportStatus(InvalidArgument, d.message)
    case DeadlineExceeded(d) => TransportStatus(DeadlineExceeded, d.message)
    case NotFound(d) => TransportStatus(NotFound, d.message)
    case AlreadyExists(d) => TransportStatus(AlreadyExists, d.message)
    case PermissionDenied(d) => TransportStatus(PermissionDenied, d.message)
    case Unauthenticated(d) => TransportStatus(Unauthenticated, d.message)
    case ResourceExhaused(d) => TransportStatus(ResourceExhausted, d.message)
    case FailedPrecondition(d) => TransportStatus(FailedPrecondition, d.message)
    case Aborted(d) => TransportStatus(Aborted, d.message)
    case OutOfRange(d) => TransportStatus(OutOfRange, d.message)
    case Unimplemented(d) => TransportStatus(Unimplemented, d.message)
    case Internal(d) => TransportStatus(Internal, d.message)
    case Unavailable(d) => TransportStatus(Unavailable, d.message)
    case DataLoss(d) => TransportStatus(DataLoss, d.message)
  }

  /**
   * The transport code bears the status's own token as its gRPC name, except
   * for the misspelt `ResourceExhaused`, which still goes to RESOURCE_EXHAUSTED.
   */
  lemma FromStatusKeepsCodeName(s: E.Status)
    ensures s.ResourceExhaused? ==> GrpcName(FromStatus(s).code) == "RESOURCE_EXHAUSTED"
    ensures !s.ResourceExhaused? ==> GrpcName(FromStatus(s).code) == E.Token(s)
  {
  }

  /** The misspelt token is not a gRPC name, so only that one variant changes name on the way. */
  lemma MisspeltTokenIsNoGrpcName(s: E.Status, c: Code)
    ensures GrpcName(c) == E.Token(s) <==> !s.ResourceExhaused? && c == FromStatus(s).code
  {
  }

  /** The conversion's code depends on the variant alone. */
  lemma FromStatusCodeIgnoresDetails(s: E.Status, d: E.StatusDetails)
    ensures FromStatus(s.(details := d)).code == FromStatus(s).code
  {
  }

  /** Two statuses get the same transport code exactly when they are the same variant. */
  lemma FromStatusCodeInjective(a: E.Status, b: E.Status)
    ensures FromStatus(a).code == FromStatus(b).code <==> a.(details := b.details) == b
  {
  }

  /**
   * The error details do not cross: statuses that differ only in their
   * details convert to equal transport statuses.
   */
  lemma FromStatusDropsDetails(s: E.Status, details: seq<E.ErrorDetails>)
    ensures FromStatus(s.(details := E.StatusDetails(s.details.message, details))) == FromStatus(s)
  {
    FromStatusCodeIgnoresDetails(s, E.StatusDetails(s.details.message, details));
  }

  /** A concrete pair of distinct statuses that the conversion cannot tell apart. */
  lemma DetailsAreLost()
    ensures E.Internal(E.StatusDetails("bug", [])) != E.Internal(E.StatusDetails("bug", [E.ErrorDetails.ErrorInfo(E.NewErrorInfo("BUG", "example.com"))]))
    ensures FromStatus(E.Internal(E.StatusDetails("bug", []))) == FromStatus(E.Internal(E.StatusDetails("bug", [E.ErrorDetails.ErrorInfo(E.NewErrorInfo("BUG", "example.com"))])))
  {
  }
}
