/** `ApiResult<T>`, the positional record in the Models namespace with the
    same shape as `ApiResponse<T>`. It is a different type: the response filter
    does not recognise it as an envelope. */
module ApiResults {
  import opened Wrappers

  const SuccessMessage := "Thành công"

  datatype ApiResult<+T, +O> = ApiResult(
    success: bool,
    message: string,
    data: Option<T>,
    errors: Option<O>,
    meta: Option<O>)

  predicate WellFormed<T, O>(r: ApiResult<T, O>) {
    && (r.success ==> r.errors.None?)
    && (!r.success ==> r.data.None?)
  }

  function Ok<T, O>(data: Option<T>, message: string := SuccessMessage, meta: Option<O> := None): (r: ApiResult<T, O>)
    ensures WellFormed(r) && r.success
    ensures r.data == data && r.message == message && r.meta == meta
  {
    ApiResult(true, message, data, None, meta)
  }

  function Fail<T, O>(message: string, errors: Option<O> := None, meta: Option<O> := None): (r: ApiResult<T, O>)
    ensures WellFormed(r) && !r.success
    ensures r.message == message && r.errors == errors && r.meta == meta
  {
    ApiResult(false, message, None, errors, meta)
  }

  /** Record equality is positional, and an `Ok` never equals a `Fail`. */
  lemma OkIsNeverFail<T, O>(data: Option<T>, m1: string, x1: Option<O>, m2: string, e: Option<O>, x2: Option<O>)
    ensures Ok(data, m1, x1) != Fail(m2, e, x2)
  {
  }

  lemma WellFormedIsFactoryBuilt<T, O>(r: ApiResult<T, O>)
    ensures WellFormed(r) <==>
      (r == Ok(r.data, r.message, r.meta) || r == Fail(r.message, r.errors, r.meta))
  {
  }

  lemma Defaults<T, O>(data: Option<T>, message: string)
    ensures Ok<T, O>(data) == ApiResult(true, SuccessMessage, data, None, None)
    ensures Fail<T, O>(message) == ApiResult(false, message, None, None, None)
  {
  }
}
