/** The signed token both token services produce, as an abstract record: the
    claims and registered fields of the payload, tagged with the key that
    signed it. Signing and the compact serialisation are left abstract: a
    `Codec` writes a token to text and reads text back. */
module JwtTokens {
  import opened Wrappers
  import opened Claims

  /** Times are whole seconds since the Unix epoch. */
  datatype Token = Token(
    signingKey: string,
    issuer: Option<string>,
    audience: Option<string>,
    claims: Principal,
    notBefore: Option<int>,
    expires: int)

  /** `WriteToken` and the parsing half of `ValidateToken`. */
  datatype Codec = Codec(write: Token -> string, read: string -> Option<Token>)

  /** A character of the JWS compact serialisation: the base64url alphabet
      and the `.` separating header, payload and signature. */
  predicate IsCompactChar(c: char) {
    ('A' <= c <= 'Z') || ('a' <= c <= 'z') || ('0' <= c <= '9') || c == '-' || c == '_' || c == '.'
  }

  /** Reading back what was written gives the same token, and the written
      text is a non-empty compact serialisation. */
  ghost predicate Faithful(codec: Codec) {
    forall t: Token ::
      && codec.read(codec.write(t)) == Some(t)
      && |codec.write(t)| > 0
      && forall i | 0 <= i < |codec.write(t)| :: IsCompactChar(codec.write(t)[i])
  }

  /** The `Jwt:*` configuration entries, `None` when absent. Lifetimes are
      whole hours and whole days. */
  datatype JwtConfig = JwtConfig(
    key: Option<string>,
    refreshSecret: Option<string>,
    issuer: Option<string>,
    audience: Option<string>,
    expiresHours: Option<int>,
    refreshExpiresDays: Option<int>)

  /** What `JwtPayload` records for `iss` and `aud`: the value, unless it is
      null or empty, in which case the claim is omitted. */
  function PayloadValue(s: Option<string>): (r: Option<string>)
    ensures r.None? <==> s.None? || s.value == ""
    ensures r.Some? ==> r == s
  {
    if s.Some? && s.value != "" then s else None
  }

  /** The range of `DateTime`, in whole seconds since the Unix epoch: from
      0001-01-01T00:00:00 to 9999-12-31T23:59:59. */
  const MinTime := -62135596800
  const MaxTime := 253402300799

  /** `DateTime.AddHours` and `AddDays` succeed exactly when the sum lies in
      that range; otherwise they throw. */
  predicate Representable(t: int) {
    MinTime <= t <= MaxTime
  }

  /** Exceptions the token services throw. */
  datatype Fault =
      /** `InvalidOperationException("Missing " + setting)`. */
    | MissingSetting(setting: string)
      /** `ArgumentNullException`: a setting read with `!` was absent. */
    | NullSetting(setting: string)
      /** `ArgumentException` of `JwtSecurityToken`: expiry not after not-before. */
    | ExpiryNotAfterNotBefore
      /** `ArgumentOutOfRangeException` of `AddHours`/`AddDays`: the expiry is
          not a `DateTime`. */
    | ExpiryOutOfRange

  /** The exception the fault surfaces as. */
  function FaultMessage(f: Fault): string {
    match f
    case MissingSetting(setting) => "Missing " + setting
    case NullSetting(_) => "Value cannot be null. (Parameter 's')"
    case ExpiryNotAfterNotBefore => "IDX12401: Expires must be after NotBefore."
    case ExpiryOutOfRange => "The added or subtracted value results in an un-representable DateTime. (Parameter 'value')"
  }

  /** Distinct tokens are written as distinct text. */
  lemma WriteInjective(codec: Codec, a: Token, b: Token)
    requires Faithful(codec) && a != b
    ensures codec.write(a) != codec.write(b)
  {
    assert codec.read(codec.write(a)) == Some(a);
    assert codec.read(codec.write(b)) == Some(b);
  }
}
