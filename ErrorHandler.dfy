/** Error classification and the database session guard. An exception is
    one of the kinds the handlers tell apart by `isinstance`; the request
    id, the timestamp, the stack trace and the logging are not modelled. */
module ErrorHandler {
  import opened Wrappers
  import opened Text

  /** An exception reaching the handlers, by the first class in the
      `isinstance` chains it belongs to. `Other` is any other exception.
      `ValueFailure` is a `ValueError` or any subclass of it (a pydantic
      `ValidationError`, a `JSONDecodeError`), with its class name. */
  datatype Failure =
    | HttpFailure(status: int, detail: string)
    | DatabaseFailure(message: string)
    | ProcessingFailure(message: string, errorCode: string)
    | ValueFailure(typeName: string, text: string)
    | FileNotFound(text: string)
    | PermissionDenied(text: string)
    | Other(typeName: string, text: string)

  /** `ErrorContext._get_client_ip`. Header names are the lower-case keys
      of `headers`, as the request exposes them. */
  function ClientIp(headers: map<string, string>, clientHost: Option<string>): (ip: Option<string>)
    ensures "x-forwarded-for" in headers ==> ip == Some(Strip(SplitOn(headers["x-forwarded-for"], ',')[0]))
    ensures "x-forwarded-for" !in headers && "x-real-ip" in headers ==> ip == Some(headers["x-real-ip"])
    ensures "x-forwarded-for" !in headers && "x-real-ip" !in headers ==> ip == clientHost
  {
    if "x-forwarded-for" in headers then Some(Strip(SplitOn(headers["x-forwarded-for"], ',')[0]))
    else if "x-real-ip" in headers then Some(headers["x-real-ip"])
    else clientHost
  }

  /** The first element of `split(",")` is the text before the first comma. */
  lemma FirstForwardedHop(v: string)
    ensures SplitOn(v, ',')[0] == v[..IndexOf(v, ',')]
    ensures ',' !in ClientIp(map["x-forwarded-for" := v], None).value
  {
    var k := IndexOf(v, ',');
    if k == |v| {
      assert v[..k] == v;
    }
    var a := StripIsSlice(SplitOn(v, ',')[0]);
  }

  /** `ErrorHandler._get_error_code`. */
  function ErrorCode(e: Failure): string {
    match e
    case HttpFailure(status, _) => "HTTP_" + IntString(status)
    case DatabaseFailure(_) => "DATABASE_ERROR"
    case ProcessingFailure(_, code) => code
    case ValueFailure(_, _) => "VALIDATION_ERROR"
    case FileNotFound(_) => "FILE_NOT_FOUND"
    case PermissionDenied(_) => "PERMISSION_DENIED"
    case Other(_, _) => "INTERNAL_ERROR"
  }

  /** `ErrorHandler._get_user_friendly_message`. */
  function UserMessage(e: Failure): string {
    match e
    case HttpFailure(_, detail) => detail
    case DatabaseFailure(_) => "A database error occurred. Please try again later."
    case ProcessingFailure(message, _) => message
    case ValueFailure(_, _) => "Invalid input provided. Please check your data and try again."
    case FileNotFound(_) => "The requested file was not found."
    case PermissionDenied(_) => "You don't have permission to perform this operation."
    case Other(_, _) => "An unexpected error occurred. Please try again later."
  }

  /** Whether two exceptions are of the same kind. */
  predicate SameKind(e: Failure, e': Failure) {
    || (e.HttpFailure? && e'.HttpFailure?) || (e.DatabaseFailure? && e'.DatabaseFailure?)
    || (e.ProcessingFailure? && e'.ProcessingFailure?) || (e.ValueFailure? && e'.ValueFailure?)
    || (e.FileNotFound? && e'.FileNotFound?) || (e.PermissionDenied? && e'.PermissionDenied?)
    || (e.Other? && e'.Other?)
  }

  /** Only an HTTP error and a processing error let their own text reach
      the client; every other kind answers a fixed message that does not
      depend on the exception's text, and a database error never shows its
      message. The code of an HTTP error reads its status back. */
  lemma MessagesHideInternals(e: Failure, e': Failure)
    ensures SameKind(e, e') && !e.HttpFailure? && !e.ProcessingFailure? ==> UserMessage(e) == UserMessage(e')
    ensures e.HttpFailure? ==> UserMessage(e) == e.detail
    ensures e.ProcessingFailure? ==> UserMessage(e) == e.message && ErrorCode(e) == e.errorCode
    ensures e.HttpFailure? ==> ErrorCode(e)[..5] == "HTTP_" && ParseInt(ErrorCode(e)[5..]) == Some(e.status)
    ensures e.Other? ==> ErrorCode(e) == "INTERNAL_ERROR"
  {
    if e.HttpFailure? {
      ParseIntString(e.status);
      assert ErrorCode(e)[5..] == IntString(e.status);
    }
  }

  /** The `details` part of an error body. */
  datatype Details = Details(originalError: string, errorType: string)

  /** The `error` object of `create_error_response` (without the request
      id, timestamp and stack trace). */
  datatype ErrorBody = ErrorBody(code: string, message: string, endpoint: string, httpMethod: string,
                                 details: Option<Details>)

  /** `str(e)` and `type(e).__name__` for the details. Starlette renders an
      `HTTPException` as "<status_code>: <detail>". */
  function ErrorText(e: Failure): string {
    match e
    case HttpFailure(status, detail) => IntString(status) + ": " + detail
    case DatabaseFailure(message) => message
    case ProcessingFailure(message, _) => message
    case ValueFailure(_, t) => t
    case FileNotFound(t) => t
    case PermissionDenied(t) => t
    case Other(_, t) => t
  }

  function TypeName(e: Failure): string {
    match e
    case HttpFailure(_, _) => "HTTPException"
    case DatabaseFailure(_) => "DatabaseError"
    case ProcessingFailure(_, _) => "ProcessingError"
    case ValueFailure(name, _) => name
    case FileNotFound(_) => "FileNotFoundError"
    case PermissionDenied(_) => "PermissionError"
    case Other(name, _) => name
  }

  /** `ErrorHandler.create_error_response`: the code given when it is
      truthy, else the code of the kind; details only on request. */
  function CreateErrorResponse(endpoint: string, httpMethod: string, e: Failure, errorCode: Option<string>,
                               includeDetails: bool): (body: ErrorBody)
    ensures body.message == UserMessage(e)
    ensures body.code == if errorCode.Some? && errorCode.value != "" then errorCode.value else ErrorCode(e)
    ensures body.details.Some? <==> includeDetails
    ensures includeDetails ==> body.details.value.originalError == ErrorText(e)
    ensures includeDetails && e.HttpFailure? ==> body.details.value.originalError == IntString(e.status) + ": " + e.detail
    ensures includeDetails && e.ValueFailure? ==> body.details.value.errorType == e.typeName
  {
    var code := if errorCode.Some? && errorCode.value != "" then errorCode.value else ErrorCode(e);
    var details := if includeDetails then Some(Details(ErrorText(e), TypeName(e))) else None;
    ErrorBody(code, UserMessage(e), endpoint, httpMethod, details)
  }

  /** What `handle_exceptions` does with a handler's exception: raise it on
      unchanged, or answer with a status and an error body. */
  datatype Handled = Reraised(failure: Failure) | Responded(status: int, body: ErrorBody)

  /** The status `handle_exceptions` gives each kind. */
  function HandlerStatus(e: Failure): int {
    if e.DatabaseFailure? || e.ProcessingFailure? then 500
    else if e.ValueFailure? then 400
    else if e.FileNotFound? || e.PermissionDenied? then 403
    else 500
  }

  /** `handle_exceptions(include_details)` around a handler that raised `e`. */
  function HandleException(endpoint: string, httpMethod: string, e: Failure, includeDetails: bool): Handled {
    if e.HttpFailure? then Reraised(e)
    else Responded(HandlerStatus(e), CreateErrorResponse(endpoint, httpMethod, e, None, includeDetails))
  }

  /** HTTP errors pass through untouched; every other exception becomes a
      response whose status is 400 exactly for a value error, 403 exactly
      for a missing file or a denied permission and 500 otherwise, whose
      code is the code of its kind, and which carries details iff asked. */
  lemma HandlingRules(endpoint: string, httpMethod: string, e: Failure, includeDetails: bool)
    ensures var h := HandleException(endpoint, httpMethod, e, includeDetails);
      && (h.Reraised? <==> e.HttpFailure?)
      && (h.Reraised? ==> h.failure == e)
      && (h.Responded? ==>
            && (h.status == 400 <==> e.ValueFailure?)
            && (h.status == 403 <==> e.FileNotFound? || e.PermissionDenied?)
            && (h.status == 500 <==> e.DatabaseFailure? || e.ProcessingFailure? || e.Other?)
            && h.body.code == ErrorCode(e) && h.body.message == UserMessage(e)
            && (h.body.details.Some? <==> includeDetails))
  {
  }

  // ---- DatabaseManager ----

  /** What is done to the session, in order. */
  datatype SessionAction = Commit | Rollback | Close

  /** What the wrapped operation of `safe_execute` does: return, or raise
      an integrity error, another SQLAlchemy error, or any other exception,
      each with its text. */
  datatype Operation<T> = Returned(value: T) | IntegrityFailure(text: string)
                        | SqlFailure(text: string) | OtherFailure(failure: Failure)

  const DuplicateRecord := "A record with this information already exists"
  const IntegrityViolation := "Database integrity constraint violation"

  /** `DatabaseManager`: the session opened by `__enter__`, and everything
      done to it. The session factory and the session's own work are
      parameters: whether opening, committing or rolling back raises. */
  class DatabaseManager {
    var hasSession: bool
    var actions: seq<SessionAction>

    constructor ()
      ensures !hasSession && actions == []
    {
      hasSession := false;
      actions := [];
    }

    /** `__enter__`: opening fails with a `DatabaseError`. */
    method Enter(factoryFails: bool, reason: string) returns (r: Result<(), Failure>)
      modifies this
      ensures factoryFails ==> r == Err(DatabaseFailure("Failed to create database session: " + reason))
      ensures factoryFails ==> hasSession == old(hasSession) && actions == old(actions)
      ensures !factoryFails ==> r == Ok(()) && hasSession && actions == old(actions)
    {
      if factoryFails {
        return Err(DatabaseFailure("Failed to create database session: " + reason));
      }
      hasSession := true;
      r := Ok(());
    }

    /** `__exit__`: with a session, commit when the block raised nothing
      and roll back when it raised; if that step raises a SQLAlchemy error,
      roll back and raise a `DatabaseError`; close the session in every
      case. Without a session nothing happens. */
    method Exit(blockRaised: bool, stepFails: bool, reason: string) returns (r: Result<(), Failure>)
      modifies this
      ensures !old(hasSession) ==> r == Ok(()) && actions == old(actions)
      ensures old(hasSession) ==>
        actions == old(actions) + ExitActions(blockRaised, stepFails)
      ensures old(hasSession) ==>
        r == if stepFails then Err(DatabaseFailure("Database transaction failed: " + reason)) else Ok(())
      ensures hasSession == old(hasSession)
    {
      r := Ok(());
      if hasSession {
        if !blockRaised {
          actions := actions + [Commit];
        } else {
          actions := actions + [Rollback];
        }
        if stepFails {
          actions := actions + [Rollback];
          r := Err(DatabaseFailure("Database transaction failed: " + reason));
        }
        actions := actions + [Close];
      }
    }

    /** `safe_execute` inside an open session: a database failure rolls the
      session back and becomes a `DatabaseError`; any other exception
      passes unchanged. */
    method SafeExecute<T>(op: Operation<T>) returns (r: Result<T, Failure>)
      requires hasSession
      modifies this
      ensures r == SafeOutcome(op)
      ensures actions == old(actions) + (if op.IntegrityFailure? || op.SqlFailure? then [Rollback] else [])
      ensures hasSession
    {
      match op
      case Returned(v) => r := Ok(v);
      case IntegrityFailure(t) =>
        actions := actions + [Rollback];
        r := Err(DatabaseFailure(if Contains(t, "UNIQUE constraint failed") then DuplicateRecord else IntegrityViolation));
      case SqlFailure(t) =>
        actions := actions + [Rollback];
        r := Err(DatabaseFailure("Database operation failed: " + t));
      case OtherFailure(f) => r := Err(f);
    }
  }

  /** What `safe_execute` returns or raises. */
  function SafeOutcome<T>(op: Operation<T>): Result<T, Failure> {
    match op
    case Returned(v) => Ok(v)
    case IntegrityFailure(t) =>
      Err(DatabaseFailure(if Contains(t, "UNIQUE constraint failed") then DuplicateRecord else IntegrityViolation))
    case SqlFailure(t) => Err(DatabaseFailure("Database operation failed: " + t))
    case OtherFailure(f) => Err(f)
  }

  /** A session's life under the manager: a block that raised is never
      committed, one that raised nothing is committed, and the session is
      closed exactly once, last. */
  lemma SessionLifecycle(blockRaised: bool, stepFails: bool)
    ensures var acts := ExitActions(blockRaised, stepFails);
      && acts[|acts| - 1] == Close
      && (forall i :: 0 <= i < |acts| - 1 ==> acts[i] != Close)
      && (Commit in acts <==> !blockRaised)
      && (blockRaised ==> acts[0] == Rollback)
  {
  }

  /** The actions `Exit` appends when there is a session. */
  function ExitActions(blockRaised: bool, stepFails: bool): seq<SessionAction> {
    [if blockRaised then Rollback else Commit] + (if stepFails then [Rollback] else []) + [Close]
  }

  /** A failed unique constraint is reported as a duplicate record, any
      other integrity failure as a constraint violation, both as database
      errors whose message hides the database's own text. */
  lemma IntegrityMessages(t: string, t': string)
    ensures Contains(t, "UNIQUE constraint failed") ==> SafeOutcome<int>(IntegrityFailure(t)) == Err(DatabaseFailure(DuplicateRecord))
    ensures !Contains(t, "UNIQUE constraint failed") ==> SafeOutcome<int>(IntegrityFailure(t)) == Err(DatabaseFailure(IntegrityViolation))
    ensures SafeOutcome<int>(IntegrityFailure(t)).error.DatabaseFailure?
    ensures Contains(t, "UNIQUE constraint failed") == Contains(t', "UNIQUE constraint failed")
      ==> SafeOutcome<int>(IntegrityFailure(t)) == SafeOutcome<int>(IntegrityFailure(t'))
  {
  }
}
