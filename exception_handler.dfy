/** `GlobalExceptionHandler`: the controller advice that turns each exception the core
    throws into the HTTP response the client sees. Every response is a failure whose body
    repeats the response status. */
module ExceptionHandler {
  import opened Common

  datatype HttpStatus = BAD_REQUEST | UNAUTHORIZED | FORBIDDEN | NOT_FOUND | CONFLICT | INTERNAL_SERVER_ERROR

  /** The numeric code of a status. */
  function Code(s: HttpStatus): (r: nat)
    ensures 400 <= r <= 500
    ensures r == 500 <==> s == INTERNAL_SERVER_ERROR
  {
    match s
    case BAD_REQUEST => 400
    case UNAUTHORIZED => 401
    case FORBIDDEN => 403
    case NOT_FOUND => 404
    case CONFLICT => 409
    case INTERNAL_SERVER_ERROR => 500
  }

  /** `GenericResponse`: only the fields the handlers set. */
  datatype GenericResponse = GenericResponse(isSuccess: bool, message: string, data: Option<seq<string>>, httpStatus: HttpStatus)

  datatype ResponseEntity = ResponseEntity(status: HttpStatus, body: GenericResponse)

  const ValidationFailed: string := "Validation Failed: Please provide valid data."
  const BadCredentialsMessage: string := "Invalid email or password"
  const AccessDeniedMessage: string := "You do not have permission to perform this action"
  const InternalErrorMessage: string := "An internal server error occurred. Please try again later."

  /** The exceptions that reach the catch-all handler. */
  predicate IsUnhandled(e: Exception) {
    e.IllegalState? || e.IllegalArgument? || e.DateTimeError? || e.IncorrectResultSize?
  }

  /** The status each handler answers with. */
  function StatusOf(e: Exception): (r: HttpStatus)
    ensures r == BAD_REQUEST <==> e.MethodArgumentNotValid?
    ensures r == NOT_FOUND <==> e.ResourceNotFound?
    ensures r == CONFLICT <==> e.UserAlreadyExists? || e.PaymentAlreadyVerified? || e.RoleAlreadyExists?
    ensures r == UNAUTHORIZED <==> e.InvalidCredentials? || e.BadCredentials? || e.Unauthorized?
    ensures r == FORBIDDEN <==> e.AccessDenied? || e.InsufficientPermission?
    ensures r == INTERNAL_SERVER_ERROR <==> IsUnhandled(e)
  {
    match e
    case MethodArgumentNotValid(_) => BAD_REQUEST
    case UserAlreadyExists(_) => CONFLICT
    case ResourceNotFound(_) => NOT_FOUND
    case InvalidCredentials(_) => UNAUTHORIZED
    case BadCredentials(_) => UNAUTHORIZED
    case Unauthorized(_) => UNAUTHORIZED
    case AccessDenied(_) => FORBIDDEN
    case PaymentAlreadyVerified(_) => CONFLICT
    case InsufficientPermission(_) => FORBIDDEN
    case RoleAlreadyExists(_) => CONFLICT
    case IllegalState(_) => INTERNAL_SERVER_ERROR
    case IllegalArgument(_) => INTERNAL_SERVER_ERROR
    case DateTimeError(_) => INTERNAL_SERVER_ERROR
    case IncorrectResultSize(_) => INTERNAL_SERVER_ERROR
  }

  /** The message each handler puts in the body: the exception's own, except for the
      validation, bad-credentials, access-denied and catch-all handlers, whose messages
      are fixed. */
  function MessageOf(e: Exception): (r: string)
    ensures e.MethodArgumentNotValid? ==> r == ValidationFailed
    ensures e.BadCredentials? ==> r == BadCredentialsMessage
    ensures e.AccessDenied? ==> r == AccessDeniedMessage
    ensures IsUnhandled(e) ==> r == InternalErrorMessage
    ensures !e.MethodArgumentNotValid? && !e.BadCredentials? && !e.AccessDenied? && !IsUnhandled(e) ==> r == e.message
  {
    match e
    case MethodArgumentNotValid(_) => ValidationFailed
    case BadCredentials(_) => BadCredentialsMessage
    case AccessDenied(_) => AccessDeniedMessage
    case IllegalState(_) => InternalErrorMessage
    case IllegalArgument(_) => InternalErrorMessage
    case DateTimeError(_) => InternalErrorMessage
    case IncorrectResultSize(_) => InternalErrorMessage
    case _ => e.message
  }

  /** The catch-all response never shows the exception's own message, so the guards that
      throw `IllegalStateException` (cancelling a verified payment, approving twice,
      touching a system role) all read the same to the client. */
  lemma UnhandledLooksAlike(e: Exception, f: Exception)
    requires IsUnhandled(e) && IsUnhandled(f)
    ensures StatusOf(e) == StatusOf(f) && MessageOf(e) == MessageOf(f)
  {
  }

  /** The `forEach` of the validation handler: the default message of each field error, in
      the order the binding result lists them. */
  method ValidationMessages(errors: seq<FieldError>) returns (messages: seq<string>)
    ensures |messages| == |errors|
    ensures forall i :: 0 <= i < |errors| ==> messages[i] == errors[i].defaultMessage
  {
    messages := [];
    for i := 0 to |errors|
      invariant |messages| == i
      invariant forall k :: 0 <= k < i ==> messages[k] == errors[k].defaultMessage
    {
      messages := messages + [errors[i].defaultMessage];
    }
  }

  /** The response for any exception: a failure carrying the handler's status and message,
      with the field messages as data for a validation failure only. */
  method Handle(e: Exception) returns (resp: ResponseEntity)
    ensures !resp.body.isSuccess
    ensures resp.body.httpStatus == resp.status
    ensures resp.status == StatusOf(e) && resp.body.message == MessageOf(e)
    ensures e.MethodArgumentNotValid? ==>
              && resp.body.data.Some?
              && |resp.body.data.value| == |e.fieldErrors|
              && forall i :: 0 <= i < |e.fieldErrors| ==> resp.body.data.value[i] == e.fieldErrors[i].defaultMessage
    ensures !e.MethodArgumentNotValid? ==> resp.body.data.None?
  {
    var data: Option<seq<string>> := None;
    if e.MethodArgumentNotValid? {
      var messages := ValidationMessages(e.fieldErrors);
      data := Some(messages);
    }
    var status := StatusOf(e);
    resp := ResponseEntity(status, GenericResponse(false, MessageOf(e), data, status));
  }
}
