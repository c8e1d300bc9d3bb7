/** `ApiResponseFilter`: the result filter that wraps every action result in an
    `ApiResponse` envelope, unless the endpoint opts out, the result is a file
    or empty, or the value already is an `ApiResponse`. */
module ApiResponseFilter {
  import opened Wrappers
  import opened Values
  import opened ActionResults
  import ApiResponses
  import ApiResults

  /** Statuses the message table names. */
  const KnownStatuses: set<int> := {400, 401, 403, 404, 409, 422, 500}

  /** The status-to-message table of `BuildError`. */
  function StatusMessage(status: int): (message: string)
    ensures message != "Error" <==> status in KnownStatuses
    ensures status == 400 <==> message == "Bad Request"
    ensures status == 401 <==> message == "Unauthorized"
    ensures status == 403 <==> message == "Forbidden"
    ensures status == 404 <==> message == "Not Found"
    ensures status == 409 <==> message == "Conflict"
    ensures status == 422 <==> message == "Unprocessable Entity"
    ensures status == 500 <==> message == "Internal Server Error"
  {
    match status
    case 400 => "Bad Request"
    case 401 => "Unauthorized"
    case 403 => "Forbidden"
    case 404 => "Not Found"
    case 409 => "Conflict"
    case 422 => "Unprocessable Entity"
    case 500 => "Internal Server Error"
    case _ => "Error"
  }

  /** Known statuses get pairwise distinct messages. */
  lemma StatusMessageInjective(a: int, b: int)
    requires a in KnownStatuses
    ensures StatusMessage(a) == StatusMessage(b) <==> a == b
  {
  }

  /** Message and errors of a failure envelope. `ValidationProblemDetails` is
      matched first: it is also a `ProblemDetails`. */
  function BuildError(status: int, value: Option<Value>): (r: (string, Option<Value>))
    ensures value.Some? && value.value.ValidationProblem? ==>
      r == (StatusMessage(status), Some(ErrorMap(value.value.errors)))
    ensures value.Some? && value.value.Problem? ==>
      r == (value.value.title.GetOr(StatusMessage(status)), value)
    ensures !(value.Some? && (value.value.ValidationProblem? || value.value.Problem?)) ==>
      r == (StatusMessage(status), value)
  {
    var message := StatusMessage(status);
    match value
    case Some(ValidationProblem(_, _, errors)) => (message, Some(ErrorMap(errors)))
    case Some(Problem(title, _, _)) => (title.GetOr(message), value)
    case _ => (message, value)
  }

  /** The value is an `ApiResponse<>` of some payload type. An `ApiResult<>`
      is not one. */
  predicate IsApiResponse(value: Option<Value>) {
    value.Some? && value.value.Response?
  }

  /** A result that carries an `ApiResponse` envelope. */
  predicate IsEnveloped(r: ActionResult) {
    r.ObjectResult? && IsApiResponse(r.value)
  }

  /** How the filter classifies a result, in the order it tests. */
  datatype Classification =
    | Skipped
    | FileOrEmpty
    | NoContent
    | AlreadyEnveloped
    | SuccessObject(status: int, payload: Option<Value>)
    | FailureObject(status: int, payload: Option<Value>)
    | NoContentStatus
    | Unrecognised

  function Classify(skip: bool, r: ActionResult): (c: Classification)
    ensures c.SuccessObject? || c.FailureObject? <==> r.ObjectResult? && !skip && !IsApiResponse(r.value)
    ensures c.SuccessObject? || c.FailureObject? ==> c.status == r.statusCode.GetOr(200) && c.payload == r.value
    ensures c.SuccessObject? ==> 200 <= c.status < 300
    ensures c.FailureObject? ==> !(200 <= c.status < 300)
  {
    if skip then Skipped
    else if r.FileResult? || r.EmptyResult? then FileOrEmpty
    else if r.NoContentResult? then NoContent
    else if r.ObjectResult? then
      var status := r.statusCode.GetOr(200);
      if IsApiResponse(r.value) then AlreadyEnveloped
      else if 200 <= status < 300 then SuccessObject(status, r.value)
      else FailureObject(status, r.value)
    else if r.StatusCodeResult? && r.code == 204 then NoContentStatus
    else Unrecognised
  }

  /** `ApiResponse<object>.Ok(null)` with status 200, the rewrite of 204. */
  function EmptySuccess(): ActionResult {
    ObjectResult(Some(Response(ApiResponses.Ok(None))), Some(200))
  }

  /** `ApiResponse<T>.Fail(message, errors, null)` for `T` the runtime type of
      the payload: its `Data` is `default(T)`. */
  function FailFor(status: int, payload: Option<Value>): (e: Envelope)
    ensures !e.success && e.data == DefaultOf(payload) && e.meta.None?
    ensures (e.message, e.errors) == BuildError(status, payload)
  {
    var (message, errors) := BuildError(status, payload);
    ApiResponses.Fail(message, errors, None).(data := DefaultOf(payload))
  }

  /** `OnResultExecutionAsync`: the result the filter leaves for execution.
      Exactly the skipped, file, empty, already-enveloped and unrecognised
      results pass through; every other result comes out enveloped. */
  function OnResultExecution(skip: bool, r: ActionResult): (out: ActionResult)
    ensures out == r <==>
      skip || r.FileResult? || r.EmptyResult? || r.OtherResult? || IsEnveloped(r)
      || (r.StatusCodeResult? && r.code != 204)
    ensures out != r ==> IsEnveloped(out)
  {
    match Classify(skip, r)
    case Skipped => r
    case FileOrEmpty => r
    case NoContent => EmptySuccess()
    case AlreadyEnveloped => r
    case SuccessObject(status, payload) =>
      ObjectResult(Some(Response(ApiResponses.Ok(payload, ApiResponses.SuccessMessage, None))), Some(status))
    case FailureObject(status, payload) =>
      ObjectResult(Some(Response(FailFor(status, payload))), Some(status))
    case NoContentStatus => EmptySuccess()
    case Unrecognised => r
  }

  /** Filtering the filter's own output changes nothing. */
  lemma Idempotent(skip: bool, r: ActionResult)
    ensures OnResultExecution(skip, OnResultExecution(skip, r)) == OnResultExecution(skip, r)
  {
  }

  /** No-content results become a 200 success envelope without data. */
  lemma NoContentBecomesOk(skip: bool, r: ActionResult)
    requires !skip && (r.NoContentResult? || r == StatusCodeResult(204))
    ensures OnResultExecution(skip, r) == ObjectResult(Some(Response(ApiResponses.ApiResponse(true, "Thành công", None, None, None))), Some(200))
  {
  }

  /** An object result that is not yet enveloped keeps its status (200 when
      unset) and is wrapped as success exactly when that status is 2xx: the
      success carries the value as data, the failure the table message or
      the problem title, and the errors of `BuildError`. */
  lemma ObjectResultWrapped(skip: bool, value: Option<Value>, statusCode: Option<int>)
    requires !skip && !IsApiResponse(value)
    ensures var status := statusCode.GetOr(200);
      var out := OnResultExecution(skip, ObjectResult(value, statusCode));
      && IsEnveloped(out)
      && out.statusCode == Some(status)
      && var e := out.value.value.envelope;
      && (e.success <==> 200 <= status < 300)
      && (e.success ==> e == ApiResponses.ApiResponse(true, "Thành công", value, None, None))
      && (!e.success ==>
            && e.data == DefaultOf(value)
            && (e.errors.None? <==> value.None?)
            && (e.message, e.errors) == BuildError(status, value))
  {
  }

  /** An `ApiResult` is not an `ApiResponse`: it is wrapped once more, as data. */
  lemma ApiResultWrappedAgain(skip: bool, record: ApiResults.ApiResult<Value, Value>)
    requires !skip
    ensures OnResultExecution(skip, OkObject(Result(record)))
      == OkObject(Response(ApiResponses.ApiResponse(true, "Thành công", Some(Result(record)), None, None)))
  {
  }

  /** An object result with an explicit 204 keeps that status: only the
      no-content result kinds are turned into 200. */
  lemma ExplicitNoContentStatusKept(skip: bool, value: Value)
    requires !skip && !value.Response?
    ensures OnResultExecution(skip, ObjectResult(Some(value), Some(204))).statusCode == Some(204)
  {
  }
}
