/**
 * The error taxonomy: `Status` (sixteen codes following the gRPC status-code
 * set, each carrying a `StatusDetails`), the structured `ErrorDetails` it may
 * carry, `ErrorInfo`, and the separate `ValidationError`, together with their
 * variant tokens, their one-line renderings and the constructors that wrap an
 * arbitrary displayable error.
 *
 * A "displayable error" is modelled by the string it displays as.
 */
module Error {
  import opened Wrappers

  // ---------------------------------------------------------------------------
  // Data model
  // ---------------------------------------------------------------------------

  /**
   * Machine-readable reason for a failure, shaped after google.rpc.ErrorInfo.
   * No format is enforced on `reason`, `domain` or the metadata keys.
   */
  datatype ErrorInfo = ErrorInfo(reason: string, domain: string, metadata: map<string, string>)

  /** Structured detail attached to a status; ErrorInfo is its only variant. */
  datatype ErrorDetails = ErrorInfo(info: ErrorInfo)

  /** The code-independent payload of a status. */
  datatype StatusDetails = StatusDetails(message: string, errorDetails: seq<ErrorDetails>)

  /**
   * One variant per status code, each wrapping the payload. `ResourceExhaused`
   * is spelt as in the source, and that spelling reaches its token.
   */
  datatype Status =
    | Cancelled(details: StatusDetails)
    | Unknown(details: StatusDetails)
    | InvalidArgument(details: StatusDetails)
    | DeadlineExceeded(details: StatusDetails)
    | NotFound(details: StatusDetails)
    | AlreadyExists(details: StatusDetails)
    | PermissionDenied(details: StatusDetails)
    | Unauthenticated(details: StatusDetails)
    | ResourceExhaused(details: StatusDetails)
    | FailedPrecondition(details: StatusDetails)
    | Aborted(details: StatusDetails)
    | OutOfRange(details: StatusDetails)
    | Unimplemented(details: StatusDetails)
    | Internal(details: StatusDetails)
    | Unavailable(details: StatusDetails)
    | DataLoss(details: StatusDetails)

  /** Input-validation failures, a taxonomy separate from `Status`. */
  datatype ValidationError = InvalidFormat(message: string)

  // ---------------------------------------------------------------------------
  // Variant tokens
  // ---------------------------------------------------------------------------

  predicate IsTokenChar(c: char) {
    'A' <= c <= 'Z' || c == '_'
  }

  /** A SCREAMING_SNAKE_CASE token: non-empty, upper-case letters and underscores only. */
  predicate IsScreamingSnake(t: string) {
    |t| > 0 && forall i :: 0 <= i < |t| ==> IsTokenChar(t[i])
  }

  /** The tokens of the sixteen status variants, in declaration order. */
  const StatusTokens: seq<string> := [
    "CANCELLED", "UNKNOWN", "INVALID_ARGUMENT", "DEADLINE_EXCEEDED",
    "NOT_FOUND", "ALREADY_EXISTS", "PERMISSION_DENIED", "UNAUTHENTICATED",
    "RESOURCE_EXHAUSED", "FAILED_PRECONDITION", "ABORTED", "OUT_OF_RANGE",
    "UNIMPLEMENTED", "INTERNAL", "UNAVAILABLE", "DATA_LOSS"
  ]

  /** The SCREAMING_SNAKE_CASE name of a status's variant; its display prefix and its `code` tag. */
  function Token(s: Status): (t: string)
    ensures t in StatusTokens
  {
    match s
    case Cancelled(_) => "CANCELLED"
    case Unknown(_) => "UNKNOWN"
    case InvalidArgument(_) => "INVALID_ARGUMENT"
    case DeadlineExceeded(_) => "DEADLINE_EXCEEDED"
    case NotFound(_) => "NOT_FOUND"
    case AlreadyExists(_) => "ALREADY_EXISTS"
    case PermissionDenied(_) => "PERMISSION_DENIED"
    case Unauthenticated(_) => "UNAUTHENTICATED"
    case ResourceExhaused(_) => "RESOURCE_EXHAUSED"
    case FailedPrecondition(_) => "FAILED_PRECONDITION"
    case Aborted(_) => "ABORTED"
    case OutOfRange(_) => "OUT_OF_RANGE"
    case Unimplemented(_) => "UNIMPLEMENTED"
    case Internal(_) => "INTERNAL"
    case Unavailable(_) => "UNAVAILABLE"
    case DataLoss(_) => "DATA_LOSS"
  }

  /**
   * Selects the variant a token names and wraps `d` in it; `None` for a token
   * that names no variant. This is how a `code` tag picks the variant.
   */
  function FromToken(token: string, d: StatusDetails): (r: Option<Status>)
    ensures r.Some? <==> token in StatusTokens
    ensures r.Some? ==> Token(r.value) == token && r.value.details == d
  {
    if token == "CANCELLED" then Some(Cancelled(d))
    else if token == "UNKNOWN" then Some(Unknown(d))
    else if token == "INVALID_ARGUMENT" then Some(InvalidArgument(d))
    else if token == "DEADLINE_EXCEEDED" then Some(DeadlineExceeded(d))
    else if token == "NOT_FOUND" then Some(NotFound(d))
    else if token == "ALREADY_EXISTS" then Some(AlreadyExists(d))
    else if token == "PERMISSION_DENIED" then Some(PermissionDenied(d))
    else if token == "UNAUTHENTICATED" then Some(Unauthenticated(d))
    else if token == "RESOURCE_EXHAUSED" then Some(ResourceExhaused(d))
    else if token == "FAILED_PRECONDITION" then Some(FailedPrecondition(d))
    else if token == "ABORTED" then Some(Aborted(d))
    else if token == "OUT_OF_RANGE" then Some(OutOfRange(d))
    else if token == "UNIMPLEMENTED" then Some(Unimplemented(d))
    else if token == "INTERNAL" then Some(Internal(d))
    else if token == "UNAVAILABLE" then Some(Unavailable(d))
    else if token == "DATA_LOSS" then Some(DataLoss(d))
    else None
  }

  /** Every status token is in SCREAMING_SNAKE_CASE. */
  lemma StatusTokensAreScreamingSnake(s: Status)
    ensures IsScreamingSnake(Token(s))
  {
  }

  /** Reading back a status's own token with its own payload gives the status again. */
  lemma TokenRoundTrip(s: Status)
    ensures FromToken(Token(s), s.details) == Some(s)
  {
  }

  /** Replacing the payload keeps the variant, hence the token, and installs the new payload. */
  lemma TokenIgnoresDetails(s: Status, d: StatusDetails)
    ensures Token(s.(details := d)) == Token(s)
    ensures s.(details := d).details == d
  {
  }

  /** A token read back with another payload rebuilds the same variant. */
  lemma SameTokenSameVariant(a: Status, b: Status)
    requires Token(a) == Token(b)
    ensures a.(details := b.details) == b
  {
  }

  /** Two statuses share a token exactly when they are the same variant. */
  lemma TokenInjective(a: Status, b: Status)
    ensures Token(a) == Token(b) <==> a.(details := b.details) == b
  {
    if Token(a) == Token(b) {
      SameTokenSameVariant(a, b);
    }
  }

  /** The token of the one validation-error variant. */
  function ValidationToken(e: ValidationError): (t: string)
    ensures IsScreamingSnake(t)
  {
    match e
    case InvalidFormat(_) => "INVALID_FORMAT"
  }

  // ---------------------------------------------------------------------------
  // Rendering
  // ---------------------------------------------------------------------------

  /** A status's payload renders as its message alone, without any code. */
  function DisplayDetails(d: StatusDetails): (line: string)
    ensures line == d.message
  {
    d.message
  }

  /** `"<TOKEN>: <message>"`; the error details never appear in the rendering. */
  function Display(s: Status): (line: string)
    ensures |line| == |Token(s)| + 2 + |s.details.message|
    ensures line[..|Token(s)|] == Token(s)
    ensures line[|Token(s)|..|Token(s)| + 2] == ": "
    ensures line[|Token(s)| + 2..] == s.details.message
  {
    Token(s) + ": " + DisplayDetails(s.details)
  }

  /** `"INVALID_FORMAT: <message>"`. */
  function DisplayValidation(e: ValidationError): (line: string)
    ensures |line| == |ValidationToken(e)| + 2 + |e.message|
    ensures line[..|ValidationToken(e)|] == ValidationToken(e)
    ensures line[|ValidationToken(e)|..|ValidationToken(e)| + 2] == ": "
    ensures line[|ValidationToken(e)| + 2..] == e.message
  {
    ValidationToken(e) + ": " + e.message
  }

  /** Index of the first ':' in `line`, or `|line|` when there is none. */
  function ColonIndex(line: string): (i: nat)
    ensures i <= |line|
    ensures i < |line| ==> line[i] == ':'
    ensures forall k :: 0 <= k < i ==> line[k] != ':'
  {
    if line == [] then 0
    else if line[0] == ':' then 0
    else 1 + ColonIndex(line[1..])
  }

  /**
   * Reads a rendered line back: the text before the first ':' and the text
   * after the ": " that follows it. This is the inverse of the renderings.
   */
  function SplitDisplay(line: string): (r: Option<(string, string)>)
    ensures r.Some? ==> line == r.value.0 + ": " + r.value.1 && ':' !in r.value.0
  {
    var i := ColonIndex(line);
    if i + 2 <= |line| && line[i + 1] == ' ' then
      assert line == line[..i] + ": " + line[i + 2..];
      Some((line[..i], line[i + 2..]))
    else
      None
  }

  /** A line `t + ": " + m` with a colon-free prefix splits back into `t` and `m`. */
  lemma {:induction false} SplitJoin(t: string, m: string)
    requires ':' !in t
    ensures SplitDisplay(t + ": " + m) == Some((t, m))
  {
    var line := t + ": " + m;
    var i := ColonIndex(line);
    assert line[..|t|] == t;
    assert line[|t|] == ':';
    assert i == |t|;
    assert line[i + 2..] == m;
  }

  lemma TokenHasNoColon(t: string)
    requires IsScreamingSnake(t)
    ensures ':' !in t
  {
    forall i | 0 <= i < |t|
      ensures t[i] != ':'
    {
      assert IsTokenChar(t[i]);
    }
  }

  /** The rendered line of a status splits back into its token and its message. */
  lemma DisplaySplits(s: Status)
    ensures SplitDisplay(Display(s)) == Some((Token(s), s.details.message))
  {
    StatusTokensAreScreamingSnake(s);
    TokenHasNoColon(Token(s));
    SplitJoin(Token(s), s.details.message);
  }

  /**
   * Two statuses render alike exactly when they are the same variant with the
   * same message; the rendering names the code and the message and nothing else.
   */
  lemma DisplayDeterminesCodeAndMessage(a: Status, b: Status)
    ensures Display(a) == Display(b) <==>
            a.(details := b.details) == b && a.details.message == b.details.message
  {
    DisplaySplits(a);
    DisplaySplits(b);
    TokenInjective(a, b);
  }

  /** The rendered validation error splits back into its token and its message. */
  lemma DisplayValidationSplits(e: ValidationError)
    ensures SplitDisplay(DisplayValidation(e)) == Some(("INVALID_FORMAT", e.message))
  {
    TokenHasNoColon(ValidationToken(e));
    SplitJoin(ValidationToken(e), e.message);
  }

  // ---------------------------------------------------------------------------
  // Constructors
  // ---------------------------------------------------------------------------

  /** `ErrorInfo::new(reason, domain)`: metadata starts empty. */
  function NewErrorInfo(reason: string, domain: string): (i: ErrorInfo)
    ensures i.reason == reason && i.domain == domain && i.metadata == map[]
  {
    ErrorInfo.ErrorInfo(reason, domain, map[])
  }

  /** Payload built from a displayable error: its rendering, and no details. */
  function StatusDetailsFromError(error: string): (d: StatusDetails)
    ensures DisplayDetails(d) == error && d.errorDetails == []
  {
    StatusDetails(error, [])
  }

  /** Wraps the payload built from `error` with the given variant constructor. */
  function NewFromError(cstr: StatusDetails -> Status, error: string): (s: Status)
    ensures s == cstr(StatusDetails(error, []))
  {
    cstr(StatusDetailsFromError(error))
  }

  function NewFailedPreconditionFromError(error: string): (s: Status)
    ensures s.FailedPrecondition? && s.details == StatusDetails(error, [])
    ensures Display(s) == "FAILED_PRECONDITION: " + error
  {
    NewFromError(d => FailedPrecondition(d), error)
  }

  function NewInvalidArgumentFromError(error: string): (s: Status)
    ensures s.InvalidArgument? && s.details == StatusDetails(error, [])
    ensures Display(s) == "INVALID_ARGUMENT: " + error
  {
    NewFromError(d => InvalidArgument(d), error)
  }

  function NewInternalFromError(error: string): (s: Status)
    ensures s.Internal? && s.details == StatusDetails(error, [])
    ensures Display(s) == "INTERNAL: " + error
  {
    NewFromError(d => Internal(d), error)
  }

  function NewUnknownFromError(error: string): (s: Status)
    ensures s.Unknown? && s.details == StatusDetails(error, [])
    ensures Display(s) == "UNKNOWN: " + error
  {
    NewFromError(d => Unknown(d), error)
  }

  // ---------------------------------------------------------------------------
  // The unit tests' expectations about rendering
  // ---------------------------------------------------------------------------

  /** The status the unit tests build: UNKNOWN with one ErrorInfo detail. */
  function SampleStatus(): (s: Status)
    ensures s.Unknown? && |s.details.errorDetails| == 1
  {
    Unknown(StatusDetails(
      "Unsure about that",
      [ErrorDetails.ErrorInfo(NewErrorInfo("UNKNOWN_FAULT", "com.appbiotic.error"))]))
  }

  lemma SampleStatusMessage()
    ensures Display(SampleStatus()) == "UNKNOWN: Unsure about that"
  {
  }

  lemma ValidationErrorMessage()
    ensures DisplayValidation(InvalidFormat("did not match regex")) == "INVALID_FORMAT: did not match regex"
  {
  }

  lemma StatusFromErrorMessage()
    ensures Display(NewInternalFromError("bug")) == "INTERNAL: bug"
  {
  }
}
