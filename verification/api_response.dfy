/** `ApiResponse<T>`, the response envelope the filter, the middleware and the
    controllers produce. `T` is the payload type; `O` stands for `object`, the
    static type of `Errors` and `Meta`. A null reference is `None`, so
    `Data = default(T)` for a reference type `T` is `data == None`. */
module ApiResponses {
  import opened Wrappers

  /** Default message of `Ok` ("Success"). */
  const SuccessMessage := "Thành công"

  datatype ApiResponse<+T, +O> = ApiResponse(
    success: bool,
    message: string,
    data: Option<T>,
    errors: Option<O>,
    meta: Option<O>)

  /** The envelope invariant: a success carries no errors, a failure no data. */
  predicate WellFormed<T, O>(r: ApiResponse<T, O>) {
    && (r.success ==> r.errors.None?)
    && (!r.success ==> r.data.None?)
  }

  function Ok<T, O>(data: Option<T>, message: string := SuccessMessage, meta: Option<O> := None): (r: ApiResponse<T, O>)
    ensures WellFormed(r) && r.success
    ensures r.data == data && r.message == message && r.meta == meta
  {
    ApiResponse(success := true, message := message, data := data, errors := None, meta := meta)
  }

  function Fail<T, O>(message: string, errors: Option<O> := None, meta: Option<O> := None): (r: ApiResponse<T, O>)
    ensures WellFormed(r) && !r.success
    ensures r.message == message && r.errors == errors && r.meta == meta
  {
    ApiResponse(success := false, message := message, data := None, errors := errors, meta := meta)
  }

  /** The factories are exactly the well-formed envelopes: every well-formed
      envelope is the `Ok` or the `Fail` of its own fields. */
  lemma WellFormedIsFactoryBuilt<T, O>(r: ApiResponse<T, O>)
    ensures WellFormed(r) <==>
      (r == Ok(r.data, r.message, r.meta) || r == Fail(r.message, r.errors, r.meta))
  {
  }

  /** The default arguments: "Thành công" and no meta for `Ok`, no errors and no meta for `Fail`. */
  lemma Defaults<T, O>(data: Option<T>, message: string)
    ensures Ok<T, O>(data) == ApiResponse(true, SuccessMessage, data, None, None)
    ensures Fail<T, O>(message) == ApiResponse(false, message, None, None, None)
  {
  }
}
