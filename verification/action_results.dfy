/** The MVC action results the filter inspects, and what a controller action
    or the request pipeline below the middleware yields: a result, or an
    exception in flight. */
module ActionResults {
  import opened Wrappers
  import opened Values

  datatype ActionResult =
      /** `FileResult` and its subclasses (file downloads). */
    | FileResult(contentType: string, fileName: string)
    | EmptyResult
      /** `NoContentResult`, the `StatusCodeResult` of `NoContent()`. */
    | NoContentResult
      /** `ObjectResult` and its subclasses (`Ok(x)`, `BadRequest(x)`, ...);
          a missing status code is `None`. */
    | ObjectResult(value: Option<Value>, statusCode: Option<int>)
      /** Any other `StatusCodeResult` (`Ok()`, `NotFound()`, `StatusCode(n)`). */
    | StatusCodeResult(code: int)
      /** Every other `IActionResult` (`JsonResult`, `ContentResult`, redirects, ...). */
    | OtherResult(kind: string)

  /** `Ok(x)` of `ControllerBase`. */
  function OkObject(value: Value): ActionResult {
    ObjectResult(Some(value), Some(200))
  }

  /** A CLR exception as the middleware sees it. */
  datatype Exception = Exception(message: string, source: Option<string>, stackTrace: Option<string>)

  /** The outcome of running the pipeline below a middleware. */
  datatype Outcome = Completed(result: ActionResult) | Threw(exception: Exception)
}
