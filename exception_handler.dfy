/**
 * `GlobalExceptionHandler`: the mapping from an exception that escaped a controller to the
 * HTTP status and the `ErrorResponse` body sent back. Spring's choice of the most specific
 * `@ExceptionHandler` is already made: the exception arrives as one of seven kinds.
 */
module ExceptionHandler {
  import opened Wrappers
  import opened Time

  /** One `FieldError` of a failed `@Valid` check; Spring allows a null default message. */
  datatype FieldError = FieldError(field: string, defaultMessage: Option<string>)

  /** The exception kinds with a handler of their own, and everything else. */
  datatype HandledException =
    | AliasAlreadyExistsException(message: Option<string>)
    | ResourceNotFoundException(message: Option<string>)
    | MethodArgumentNotValidException(fieldErrors: seq<FieldError>)
    | AccessDeniedException
    | BadCredentialsException(message: Option<string>)
    | IllegalArgumentException(message: Option<string>)
    | OtherException(message: Option<string>)

  /** `ErrorResponse`; the five-argument constructor leaves `details` null. */
  datatype ErrorResponse = ErrorResponse(
    timestamp: Instant, status: int, error: string, message: Option<string>, path: string,
    details: Option<seq<string>>)

  /** `ResponseEntity<ErrorResponse>`: the HTTP status and the body. */
  datatype ResponseEntity = ResponseEntity(status: int, body: ErrorResponse)

  const UriMarker: string := "uri="

  /** Whether `uri=` occurs in `s` starting at index `i`. */
  predicate MarkerAt(s: string, i: nat)
  {
    i + |UriMarker| <= |s| && s[i..i + |UriMarker|] == UriMarker
  }

  /** Whether `s` contains `uri=` anywhere. */
  predicate ContainsUriMarker(s: string)
  {
    exists i: nat | i < |s| :: MarkerAt(s, i)
  }

  /**
   * Java's `s.replace("uri=", "")`: scans left to right and drops each occurrence, resuming
   * after it.
   */
  function RemoveUriMarkers(s: string): (r: string)
    ensures |r| <= |s|
  {
    if MarkerAt(s, 0) then RemoveUriMarkers(s[|UriMarker|..])
    else if s == [] then []
    else [s[0]] + RemoveUriMarkers(s[1..])
  }

  /** `getRequestPath`: the request description without its `uri=` markers. */
  function GetRequestPath(description: string): (r: string)
    ensures |r| <= |description|
    ensures !ContainsUriMarker(description) ==> r == description
  {
    if !ContainsUriMarker(description) then
      RemoveUriMarkersWithout(description);
      RemoveUriMarkers(description)
    else
      RemoveUriMarkers(description)
  }

  /** A description without the marker passes through unchanged. */
  lemma {:induction false} RemoveUriMarkersWithout(s: string)
    requires !ContainsUriMarker(s)
    ensures RemoveUriMarkers(s) == s
  {
    if s != [] {
      assert !MarkerAt(s, 0);
      forall i: nat | i < |s[1..]| && MarkerAt(s[1..], i) ensures MarkerAt(s, i + 1) {
        assert s[1..][i..i + |UriMarker|] == s[i + 1..i + 1 + |UriMarker|];
      }
      RemoveUriMarkersWithout(s[1..]);
    }
  }

  /** `"uri=" + p` becomes `p`, e.g. `uri=/api/urls/shorten` becomes `/api/urls/shorten`. */
  lemma RequestPathOfUriDescription(p: string)
    requires !ContainsUriMarker(p)
    ensures GetRequestPath(UriMarker + p) == p
  {
    assert MarkerAt(UriMarker + p, 0) by {
      assert (UriMarker + p)[0..|UriMarker|] == UriMarker;
    }
    assert (UriMarker + p)[|UriMarker|..] == p;
    RemoveUriMarkersWithout(p);
  }

  /**
   * Occurrences are removed in one pass, so removing one can join its neighbours into a new
   * occurrence that stays in the result.
   */
  lemma RemovalCanLeaveMarker()
    ensures GetRequestPath("uriuri==") == "uri="
  {
    var s := "uriuri==";
    assert !MarkerAt(s, 0) by { assert s[0..4][3] == 'u'; }
    assert !MarkerAt(s[1..], 0) by { assert s[1..][0..4][0] == 'r'; }
    assert !MarkerAt(s[2..], 0) by { assert s[2..][0..4][0] == 'i'; }
    assert MarkerAt(s[3..], 0) by { assert s[3..][0..4] == UriMarker; }
    assert s[3..][4..] == "=";
    assert !MarkerAt("=", 0);
    assert "="[1..] == [];
    calc {
      RemoveUriMarkers(s);
      [s[0]] + RemoveUriMarkers(s[1..]);
      { assert s[1..][1..] == s[2..]; }
      [s[0]] + ([s[1]] + RemoveUriMarkers(s[2..]));
      { assert s[2..][1..] == s[3..]; }
      [s[0]] + ([s[1]] + ([s[2]] + RemoveUriMarkers(s[3..])));
      [s[0]] + ([s[1]] + ([s[2]] + RemoveUriMarkers("=")));
      [s[0]] + ([s[1]] + ([s[2]] + ['=']));
    }
  }

  /** Java's string concatenation of a possibly null string. */
  function JavaString(s: Option<string>): string
  {
    if s.Some? then s.value else "null"
  }

  /** One validation detail: `field + ": " + defaultMessage`. */
  function FieldErrorDetail(e: FieldError): string
  {
    e.field + ": " + JavaString(e.defaultMessage)
  }

  /** The `details` list of `handleValidationErrors`: one entry per field error, in order. */
  function ValidationDetails(errors: seq<FieldError>): (r: seq<string>)
    ensures |r| == |errors|
    ensures forall i :: 0 <= i < |errors| ==> r[i] == FieldErrorDetail(errors[i])
  {
    seq(|errors|, i requires 0 <= i < |errors| => FieldErrorDetail(errors[i]))
  }

  /** The loop of `handleValidationErrors` that accumulates the details in an `ArrayList`. */
  method CollectValidationDetails(errors: seq<FieldError>) returns (details: seq<string>)
    ensures details == ValidationDetails(errors)
    ensures forall i :: 0 <= i < |errors| ==> errors[i].field + ": " <= details[i]
  {
    details := [];
    for k := 0 to |errors|
      invariant details == ValidationDetails(errors[..k])
    {
      assert errors[..k + 1] == errors[..k] + [errors[k]];
      details := details + [FieldErrorDetail(errors[k])];
    }
    assert errors[..|errors|] == errors;
  }

  /** The kinds whose response carries the exception's own message. */
  predicate EchoesMessage(ex: HandledException)
  {
    ex.AliasAlreadyExistsException? || ex.ResourceNotFoundException? || ex.IllegalArgumentException?
  }

  const ValidationMessage: string := "Request validation failed. Please check the details."
  const AccessDeniedMessage: string := "You do not have permission to access this resource."
  const BadCredentialsMessage: string := "Invalid username or password."
  const GenericMessage: string := "An unexpected error occurred. Please try again later."

  /** The seven `handle*` methods, selected by exception kind; `now` is `LocalDateTime.now()`. */
  function Handle(ex: HandledException, description: string, now: Instant): (r: ResponseEntity)
    ensures ex.AliasAlreadyExistsException? ==> r.status == 409 && r.body.error == "Conflict"
    ensures ex.ResourceNotFoundException? ==> r.status == 404 && r.body.error == "Not Found"
    ensures ex.MethodArgumentNotValidException? ==> r.status == 400 && r.body.error == "Validation Failed"
    ensures ex.AccessDeniedException? ==> r.status == 403 && r.body.error == "Forbidden"
    ensures ex.BadCredentialsException? ==> r.status == 401 && r.body.error == "Unauthorized"
    ensures ex.IllegalArgumentException? ==> r.status == 400 && r.body.error == "Bad Request"
    ensures ex.OtherException? ==> r.status == 500 && r.body.error == "Internal Server Error"
    ensures r.body.status == r.status
    ensures EchoesMessage(ex) ==> r.body.message == ex.message
    ensures ex.MethodArgumentNotValidException? ==> r.body.message == Some(ValidationMessage)
    ensures ex.AccessDeniedException? ==> r.body.message == Some(AccessDeniedMessage)
    ensures ex.BadCredentialsException? ==> r.body.message == Some(BadCredentialsMessage)
    ensures ex.OtherException? ==> r.body.message == Some(GenericMessage)
    ensures r.body.details.Some? <==> ex.MethodArgumentNotValidException?
    ensures ex.MethodArgumentNotValidException? ==> r.body.details == Some(ValidationDetails(ex.fieldErrors))
    ensures r.body.path == GetRequestPath(description) && r.body.timestamp == now
  {
    var path := GetRequestPath(description);
    match ex
    case AliasAlreadyExistsException(m) =>
      ResponseEntity(409, ErrorResponse(now, 409, "Conflict", m, path, None))
    case ResourceNotFoundException(m) =>
      ResponseEntity(404, ErrorResponse(now, 404, "Not Found", m, path, None))
    case MethodArgumentNotValidException(errors) =>
      ResponseEntity(400, ErrorResponse(now, 400, "Validation Failed", Some(ValidationMessage), path, Some(ValidationDetails(errors))))
    case AccessDeniedException =>
      ResponseEntity(403, ErrorResponse(now, 403, "Forbidden", Some(AccessDeniedMessage), path, None))
    case BadCredentialsException(_) =>
      ResponseEntity(401, ErrorResponse(now, 401, "Unauthorized", Some(BadCredentialsMessage), path, None))
    case IllegalArgumentException(m) =>
      ResponseEntity(400, ErrorResponse(now, 400, "Bad Request", m, path, None))
    case OtherException(_) =>
      ResponseEntity(500, ErrorResponse(now, 500, "Internal Server Error", Some(GenericMessage), path, None))
  }

  /** `handleValidationErrors`, with its accumulation loop; it answers as `Handle` does. */
  method HandleValidationErrors(errors: seq<FieldError>, description: string, now: Instant) returns (r: ResponseEntity)
    ensures r == Handle(MethodArgumentNotValidException(errors), description, now)
    ensures r.body.details.Some? && |r.body.details.value| == |errors|
  {
    var details := CollectValidationDetails(errors);
    r := ResponseEntity(400, ErrorResponse(now, 400, "Validation Failed", Some(ValidationMessage), GetRequestPath(description), Some(details)));
  }

  /**
   * Neither the catch-all nor the bad-credentials handler reveals the exception's message:
   * two exceptions of either kind that differ only in their messages get the same response.
   */
  lemma HiddenMessagesDoNotLeak(m1: Option<string>, m2: Option<string>, description: string, now: Instant)
    ensures Handle(OtherException(m1), description, now) == Handle(OtherException(m2), description, now)
    ensures Handle(BadCredentialsException(m1), description, now) == Handle(BadCredentialsException(m2), description, now)
  {
  }
}
