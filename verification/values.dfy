/** The runtime objects that travel through the pipeline as `object`: action
    payloads, problem details and boxed envelopes. A tagged union replaces the
    reflection the filter uses to discover a payload's type. */
module Values {
  import opened Wrappers
  import ApiResponses
  import ApiResults

  /** A property of an anonymous or DTO object; `None` is a null property. */
  datatype Field = Field(name: string, value: Option<Value>)

  datatype Value =
    | Bool(b: bool)
    | Int(i: int)
    | Str(s: string)
    | List(items: seq<Value>)
    | Object(fields: seq<Field>)
      /** `IDictionary<string, string[]>`, as in `ValidationProblemDetails.Errors`. */
    | ErrorMap(entries: map<string, seq<string>>)
      /** `ProblemDetails` (RFC 9457 problem document). */
    | Problem(title: Option<string>, status: Option<int>, detail: Option<string>)
      /** `ValidationProblemDetails`, a `ProblemDetails` carrying field errors. */
    | ValidationProblem(title: Option<string>, status: Option<int>, errors: map<string, seq<string>>)
      /** A boxed `ApiResponse<T>` of any `T`. */
    | Response(envelope: ApiResponses.ApiResponse<Value, Value>)
      /** A boxed `ApiResult<T>` of any `T`. */
    | Result(record: ApiResults.ApiResult<Value, Value>)

  type Envelope = ApiResponses.ApiResponse<Value, Value>

  /** Whether the runtime type of the object is a value type (`int`, `bool`). */
  predicate IsValueType(v: Value) {
    v.Bool? || v.Int?
  }

  /** `default(T)` where `T` is the runtime type of `v`, or `object` for null:
      zero for a value type, null for a reference type. */
  function DefaultOf(v: Option<Value>): (d: Option<Value>)
    ensures d.Some? <==> v.Some? && IsValueType(v.value)
    ensures d.Some? ==> d.value == (if v.value.Int? then Int(0) else Bool(false))
  {
    match v
    case Some(Int(_)) => Some(Int(0))
    case Some(Bool(_)) => Some(Bool(false))
    case _ => None
  }
}
