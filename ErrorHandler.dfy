/**
 * The gateway's error middleware: it turns a thrown error into an HTTP status,
 * a message and a JSON body `{ error: { message, status, stack? } }`.
 */
module ErrorHandler {
  import opened Wrappers

  /** The fields of a thrown error that the middleware reads. */
  datatype Error = Error(name: string, statusCode: Option<int>, message: string, stack: Option<string>)

  /** The `error` object of the response body. */
  datatype ErrorBody = ErrorBody(message: string, status: int, stack: Option<string>)

  /** What is written to the response: the HTTP status and the body's `error` object. */
  datatype Response = Response(httpStatus: int, error: ErrorBody)

  const DefaultMessage := "Internal Server Error"
  const UnauthorizedMessage := "Unauthorized: Invalid or expired token"
  const ForbiddenMessage := "Forbidden: Insufficient permissions"
  const NotFoundMessage := "Resource not found"

  /** The four error names the middleware treats specially. */
  predicate IsKnownName(name: string)
  {
    name in {"ValidationError", "UnauthorizedError", "ForbiddenError", "NotFoundError"}
  }

  /**
   * Status and message for an error: first the defaults taken from the error
   * itself, then the override chosen by the error's name.
   */
  function Classify(err: Error): (r: (int, string))
    ensures IsKnownName(err.name) ==> r.0 in {400, 401, 403, 404}
    ensures !IsKnownName(err.name) && !TruthyInt(err.statusCode) ==> r.0 == 500
    ensures r.1 == "" ==> err.name == "ValidationError"
  {
    var defaultStatus := if TruthyInt(err.statusCode) then err.statusCode.value else 500;
    var defaultMessage := if err.message != "" then err.message else DefaultMessage;
    if err.name == "ValidationError" then (400, err.message)
    else if err.name == "UnauthorizedError" then (401, UnauthorizedMessage)
    else if err.name == "ForbiddenError" then (403, ForbiddenMessage)
    else if err.name == "NotFoundError" then (404, if err.message != "" then err.message else NotFoundMessage)
    else (defaultStatus, defaultMessage)
  }

  /** The whole response; `nodeEnv` is the NODE_ENV variable, None when unset. */
  function Handle(err: Error, nodeEnv: Option<string>): (r: Response)
    ensures r.error.status == r.httpStatus
    ensures r.httpStatus == Classify(err).0 && r.error.message == Classify(err).1
    ensures r.error.stack.Some? <==> nodeEnv != Some("production") && err.stack.Some?
    ensures r.error.stack.Some? ==> r.error.stack == err.stack
  {
    var (status, message) := Classify(err);
    Response(status, ErrorBody(message, status, if nodeEnv != Some("production") then err.stack else None))
  }

  /**
   * A known name fixes the status, whatever statusCode the error carries:
   * each name gets its own status.
   */
  lemma KnownNameFixesStatus(err: Error, code: Option<int>)
    requires IsKnownName(err.name)
    ensures Classify(err).0 == Classify(err.(statusCode := code)).0
    ensures err.name == "ValidationError" ==> Classify(err).0 == 400
    ensures err.name == "UnauthorizedError" ==> Classify(err).0 == 401
    ensures err.name == "ForbiddenError" ==> Classify(err).0 == 403
    ensures err.name == "NotFoundError" ==> Classify(err).0 == 404
  {
  }

  /** ValidationError keeps the error's own message, even an empty one. */
  lemma ValidationKeepsMessage(err: Error)
    requires err.name == "ValidationError"
    ensures Classify(err) == (400, err.message)
  {
  }

  /**
   * The two authorization errors get their own status and replace the
   * message with a fixed text, whatever message and statusCode they carry.
   */
  lemma AuthorizationErrorsHideMessage(err: Error, other: string)
    requires err.name in {"UnauthorizedError", "ForbiddenError"}
    ensures err.name == "UnauthorizedError" ==> Classify(err) == (401, UnauthorizedMessage)
    ensures err.name == "ForbiddenError" ==> Classify(err) == (403, ForbiddenMessage)
    ensures Classify(err) == Classify(err.(message := other))
  {
  }

  /** NotFoundError: 404, with the error's message or the fixed text when it has none. */
  lemma NotFoundKeepsMessage(err: Error)
    requires err.name == "NotFoundError"
    ensures err.message != "" ==> Classify(err) == (404, err.message)
    ensures err.message == "" ==> Classify(err) == (404, NotFoundMessage)
  {
  }

  /** An empty message is sent only for a ValidationError that carried none. */
  lemma EmptyMessageOnlyFromValidation(err: Error)
    ensures Classify(err).1 == "" <==> err.name == "ValidationError" && err.message == ""
  {
  }

  /** The message sent is the error's own or one of the fixed texts. */
  lemma MessageOrigin(err: Error)
    ensures Classify(err).1 in {err.message, DefaultMessage, UnauthorizedMessage, ForbiddenMessage, NotFoundMessage}
    ensures err.message != "" && err.name !in {"UnauthorizedError", "ForbiddenError"} ==> Classify(err).1 == err.message
  {
  }

  /**
   * Any other name: the error's statusCode, or 500 when it has none, and the
   * error's message, or the default text when it has none.
   */
  lemma UnknownNameUsesStatusCode(err: Error)
    requires !IsKnownName(err.name)
    ensures err.statusCode.None? || err.statusCode == Some(0) ==> Classify(err).0 == 500
    ensures err.statusCode.Some? && err.statusCode.value != 0 ==> Classify(err).0 == err.statusCode.value
    ensures err.message != "" ==> Classify(err).1 == err.message
    ensures err.message == "" ==> Classify(err).1 == DefaultMessage
  {
  }
}
