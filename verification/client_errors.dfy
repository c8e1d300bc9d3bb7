/** The client-error mapping an `[ApiController]` gets from the framework:
    `ClientErrorResultFilter` runs ahead of the application's result filters
    and turns a bodyless status result of 400 or more into a problem
    document, built by the default client-error factory. */
module ClientErrors {
  import opened Wrappers
  import opened Values
  import opened ActionResults

  /** The titles of the framework's default `ClientErrorMapping`. */
  const Titles: map<int, string> := map[
    400 := "Bad Request",
    401 := "Unauthorized",
    403 := "Forbidden",
    404 := "Not Found",
    405 := "Method Not Allowed",
    406 := "Not Acceptable",
    408 := "Request Timeout",
    409 := "Conflict",
    412 := "Precondition Failed",
    415 := "Unsupported Media Type",
    422 := "Unprocessable Entity",
    426 := "Upgrade Required",
    500 := "An error occurred while processing your request."]

  /** The title the factory gives a status: the mapping's, or none. */
  function Title(code: int): Option<string> {
    if code in Titles then Some(Titles[code]) else None
  }

  /** The problem document for a status. */
  function ProblemFor(code: int): Value {
    Problem(Title(code), Some(code), None)
  }

  /** `ClientErrorResultFilter.OnResultExecuting`. Only a status result is a
      client-error result; below 400 it is left alone. */
  function MapClientError(r: ActionResult): (out: ActionResult)
    ensures out != r <==> r.StatusCodeResult? && r.code >= 400
    ensures out != r ==> out == ObjectResult(Some(ProblemFor(r.code)), Some(r.code))
    ensures !out.StatusCodeResult? || out.code < 400
  {
    if r.StatusCodeResult? && r.code >= 400 then ObjectResult(Some(ProblemFor(r.code)), Some(r.code))
    else r
  }

  /** Mapping twice is mapping once: the filter's output is never a client
      error result itself. */
  lemma MapIdempotent(r: ActionResult)
    ensures MapClientError(MapClientError(r)) == MapClientError(r)
  {
  }
}
