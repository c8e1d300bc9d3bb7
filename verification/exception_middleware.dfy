/** `ExceptionMiddleware`: the outermost fault boundary. An exception from the
    rest of the pipeline becomes a 500 `Fail` envelope written as JSON. */
module ExceptionMiddleware {
  import opened Wrappers
  import opened Values
  import opened ActionResults
  import ApiResponses

  const InternalServerError := 500
  const JsonContentType := "application/json"
  const FaultMessage := "Internal Server Error"

  /** What reaches the client: the downstream result, or the response the
      middleware wrote itself. There is no exception case: the catch never
      rethrows. */
  datatype HttpResponse =
    | Downstream(result: ActionResult)
    | Written(statusCode: int, contentType: string, body: Envelope)

  /** The anonymous `{ Message, Source, StackTrace }` object. */
  function Details(ex: Exception): Value {
    Object([
      Field("Message", Some(Str(ex.message))),
      Field("Source", if ex.source.Some? then Some(Str(ex.source.value)) else None),
      Field("StackTrace", if ex.stackTrace.Some? then Some(Str(ex.stackTrace.value)) else None)])
  }

  function Invoke(isDevelopment: bool, downstream: Outcome): (response: HttpResponse)
    ensures downstream.Completed? ==> response == Downstream(downstream.result)
    ensures downstream.Threw? ==>
      && response.Written?
      && response.statusCode == InternalServerError
      && response.contentType == JsonContentType
      && ApiResponses.WellFormed(response.body)
      && !response.body.success
      && response.body.message == FaultMessage
      && response.body.meta.None?
      && (response.body.errors.None? <==> !isDevelopment)
    ensures downstream.Threw? && isDevelopment ==>
      response.body.errors == Some(Details(downstream.exception))
  {
    match downstream
    case Completed(result) => Downstream(result)
    case Threw(ex) =>
      var errors := if isDevelopment then Some(Details(ex)) else None;
      Written(InternalServerError, JsonContentType, ApiResponses.Fail(FaultMessage, errors))
  }

  /** Outside development the body is the same for every exception: nothing
      about the failure leaks. */
  lemma ProductionHidesException(e1: Exception, e2: Exception)
    ensures Invoke(false, Threw(e1)) == Invoke(false, Threw(e2))
  {
  }
}
