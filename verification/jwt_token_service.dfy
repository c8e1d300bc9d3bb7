/** `JwtTokenService` of the Services namespace, the one the authentication
    controller calls: access and refresh tokens with the same claims, signed
    with `Jwt:Key` and `Jwt:RefreshSecret`, and refresh-token validation. */
module JwtTokenService {
  import opened Wrappers
  import opened Numbers
  import opened Claims
  import opened JwtTokens
  import RoleHelper
  import Text

  const RoleIdType := "role_id"
  const RoleNameType := "role_name"
  const PermissionType := "permission"

  const DefaultAccessHours := 1
  const DefaultRefreshDays := 7
  const SecondsPerHour := 3600
  const SecondsPerDay := 86400
  /** `ClockSkew` of the refresh-token validation. */
  const ClockSkew := 30

  /** The fixed claims, in order, before the permission claims. */
  function FixedClaims(userId: int64, email: string, roleId: int32, roleName: string, jti: string, now: int): seq<Claim> {
    [ Claim(Sub, Decimal(userId as int)),
      Claim(Email, email),
      Claim(Jti, jti),
      Claim(Iat, Decimal(now)),
      Claim(RoleType, roleName),
      Claim(RoleIdType, Decimal(roleId as int)),
      Claim(RoleNameType, roleName) ]
  }

  function PermissionClaims(permissions: seq<string>): (claims: seq<Claim>)
    ensures |claims| == |permissions|
    ensures forall i | 0 <= i < |permissions| :: claims[i] == Claim(PermissionType, permissions[i])
  {
    if |permissions| == 0 then []
    else [Claim(PermissionType, permissions[0])] + PermissionClaims(permissions[1..])
  }

  /** `BuildCommonClaims`; `jti` is the fresh identifier and `now` the clock. */
  function BuildCommonClaims(userId: int64, email: string, roleId: int32, roleName: string,
                             permissions: seq<string>, jti: string, now: int): (claims: Principal)
    ensures |claims| == 7 + |permissions|
    ensures claims[..7] == FixedClaims(userId, email, roleId, roleName, jti, now)
    ensures forall i | 0 <= i < |permissions| :: claims[7 + i] == Claim(PermissionType, permissions[i])
  {
    FixedClaims(userId, email, roleId, roleName, jti, now) + PermissionClaims(permissions)
  }

  /** The steps both creators share: secret, issuer, audience, the expiry
      (computed before the token, so its range is checked first), then the
      token. */
  function Issue(cfg: JwtConfig, secretSetting: string, secret: Option<string>, lifetime: int,
                 claims: Principal, now: int): (r: Result<Token, Fault>)
    ensures secret.None? ==> r == Failure(MissingSetting(secretSetting))
    ensures secret.Some? && cfg.issuer.None? ==> r == Failure(MissingSetting("Jwt:Issuer"))
    ensures secret.Some? && cfg.issuer.Some? && cfg.audience.None? ==> r == Failure(MissingSetting("Jwt:Audience"))
    ensures secret.Some? && cfg.issuer.Some? && cfg.audience.Some? && !Representable(now + lifetime) ==>
      r == Failure(ExpiryOutOfRange)
    ensures secret.Some? && cfg.issuer.Some? && cfg.audience.Some? && Representable(now + lifetime) && lifetime <= 0 ==>
      r == Failure(ExpiryNotAfterNotBefore)
    ensures r.Success? <==>
      secret.Some? && cfg.issuer.Some? && cfg.audience.Some? && Representable(now + lifetime) && lifetime > 0
    ensures r.Success? ==>
      && r.value.signingKey == secret.value && r.value.claims == claims
      && r.value.issuer == PayloadValue(cfg.issuer) && r.value.audience == PayloadValue(cfg.audience)
      && r.value.notBefore == Some(now) && r.value.expires == now + lifetime
  {
    if secret.None? then Failure(MissingSetting(secretSetting))
    else if cfg.issuer.None? then Failure(MissingSetting("Jwt:Issuer"))
    else if cfg.audience.None? then Failure(MissingSetting("Jwt:Audience"))
    else if !Representable(now + lifetime) then Failure(ExpiryOutOfRange)
    else if lifetime <= 0 then Failure(ExpiryNotAfterNotBefore)
    else Success(Token(secret.value, PayloadValue(cfg.issuer), PayloadValue(cfg.audience), claims, Some(now), now + lifetime))
  }

  function AccessLifetime(cfg: JwtConfig): int {
    cfg.expiresHours.GetOr(DefaultAccessHours) * SecondsPerHour
  }

  function RefreshLifetime(cfg: JwtConfig): int {
    cfg.refreshExpiresDays.GetOr(DefaultRefreshDays) * SecondsPerDay
  }

  /** `CreateAccessToken`. */
  function CreateAccessToken(cfg: JwtConfig, userId: int64, email: string, roleId: int32,
                             permissions: seq<string>, jti: string, now: int): (r: Result<Token, Fault>)
    ensures cfg.key.None? ==> r == Failure(MissingSetting("Jwt:Key"))
    ensures r.Success? <==>
      && cfg.key.Some? && cfg.issuer.Some? && cfg.audience.Some? && cfg.expiresHours.GetOr(1) > 0
      && Representable(now + cfg.expiresHours.GetOr(1) * 3600)
    ensures r.Success? ==>
      && r.value.signingKey == cfg.key.value
      && r.value.claims == BuildCommonClaims(userId, email, roleId, RoleHelper.ToName(roleId), permissions, jti, now)
      && r.value.notBefore == Some(now)
      && r.value.expires == now + cfg.expiresHours.GetOr(1) * 3600
  {
    var claims := BuildCommonClaims(userId, email, roleId, RoleHelper.ToName(roleId), permissions, jti, now);
    Issue(cfg, "Jwt:Key", cfg.key, AccessLifetime(cfg), claims, now)
  }

  /** `CreateRefreshToken`. */
  function CreateRefreshToken(cfg: JwtConfig, userId: int64, email: string, roleId: int32,
                              permissions: seq<string>, jti: string, now: int): (r: Result<Token, Fault>)
    ensures cfg.refreshSecret.None? ==> r == Failure(MissingSetting("Jwt:RefreshSecret"))
    ensures r.Success? <==>
      && cfg.refreshSecret.Some? && cfg.issuer.Some? && cfg.audience.Some? && cfg.refreshExpiresDays.GetOr(7) > 0
      && Representable(now + cfg.refreshExpiresDays.GetOr(7) * 86400)
    ensures r.Success? ==>
      && r.value.signingKey == cfg.refreshSecret.value
      && r.value.claims == BuildCommonClaims(userId, email, roleId, RoleHelper.ToName(roleId), permissions, jti, now)
      && r.value.notBefore == Some(now)
      && r.value.expires == now + cfg.refreshExpiresDays.GetOr(7) * 86400
  {
    var claims := BuildCommonClaims(userId, email, roleId, RoleHelper.ToName(roleId), permissions, jti, now);
    Issue(cfg, "Jwt:RefreshSecret", cfg.refreshSecret, RefreshLifetime(cfg), claims, now)
  }

  /** Lifetime validation: a not-before after the expiry is refused outright;
      otherwise now must lie within the lifetime widened by the clock skew on
      both ends. */
  predicate WithinLifetime(t: Token, now: int) {
    && (t.notBefore.None? || t.notBefore.value <= t.expires)
    && (t.notBefore.None? || t.notBefore.value <= now + ClockSkew)
    && now - ClockSkew <= t.expires
  }

  /** Issuer validation: the token's issuer is present and not blank, and
      equals the configured one (so that must be present too). */
  predicate IssuerValid(cfg: JwtConfig, t: Token) {
    && !Text.IsNullOrWhiteSpace(t.issuer)
    && cfg.issuer.Some? && t.issuer == cfg.issuer
  }

  /** Audience validation: the configured audience is present and not blank,
      and the token names it. */
  predicate AudienceValid(cfg: JwtConfig, t: Token) {
    && !Text.IsNullOrWhiteSpace(cfg.audience)
    && t.audience == cfg.audience
  }

  /** The validation parameters: signing key, issuer, audience and lifetime. */
  predicate Accepts(cfg: JwtConfig, secret: string, t: Token, now: int) {
    && t.signingKey == secret
    && IssuerValid(cfg, t)
    && AudienceValid(cfg, t)
    && WithinLifetime(t, now)
  }

  /** `ValidateRefreshToken`: `Success(None)` is the null return of the catch;
      a missing refresh secret throws before the try block. */
  function ValidateRefreshToken(cfg: JwtConfig, codec: Codec, text: string, now: int): (r: Result<Option<Principal>, Fault>)
    ensures cfg.refreshSecret.None? <==> r.Failure?
    ensures r.Failure? ==> r.error == MissingSetting("Jwt:RefreshSecret")
    ensures r.Success? && r.value.Some? <==>
      && cfg.refreshSecret.Some?
      && codec.read(text).Some?
      && Accepts(cfg, cfg.refreshSecret.value, codec.read(text).value, now)
    ensures r.Success? && r.value.Some? ==> r.value.value == codec.read(text).value.claims
  {
    if cfg.refreshSecret.None? then Failure(MissingSetting("Jwt:RefreshSecret"))
    else
      match codec.read(text)
      case None => Success(None)
      case Some(t) => if Accepts(cfg, cfg.refreshSecret.value, t, now) then Success(Some(t.claims)) else Success(None)
  }

  /** A refresh token the service issued validates, within its lifetime
      widened by the skew, back to exactly the claims it was built from. */
  lemma RefreshRoundTrip(cfg: JwtConfig, codec: Codec, userId: int64, email: string, roleId: int32,
                         permissions: seq<string>, jti: string, issuedAt: int, now: int)
    requires Faithful(codec)
    requires CreateRefreshToken(cfg, userId, email, roleId, permissions, jti, issuedAt).Success?
    requires !Text.IsNullOrWhiteSpace(cfg.issuer) && !Text.IsNullOrWhiteSpace(cfg.audience)
    requires issuedAt - ClockSkew <= now <= issuedAt + RefreshLifetime(cfg) + ClockSkew
    ensures var t := CreateRefreshToken(cfg, userId, email, roleId, permissions, jti, issuedAt).value;
      ValidateRefreshToken(cfg, codec, codec.write(t), now)
        == Success(Some(BuildCommonClaims(userId, email, roleId, RoleHelper.ToName(roleId), permissions, jti, issuedAt)))
  {
    var t := CreateRefreshToken(cfg, userId, email, roleId, permissions, jti, issuedAt).value;
    assert codec.read(codec.write(t)) == Some(t);
  }

  /** An access token is never accepted as a refresh token unless the two
      secrets are the same string. */
  lemma SecretSeparation(cfg: JwtConfig, codec: Codec, userId: int64, email: string, roleId: int32,
                         permissions: seq<string>, jti: string, issuedAt: int, now: int)
    requires Faithful(codec)
    requires CreateAccessToken(cfg, userId, email, roleId, permissions, jti, issuedAt).Success?
    requires cfg.refreshSecret.Some? && cfg.refreshSecret != cfg.key
    ensures var t := CreateAccessToken(cfg, userId, email, roleId, permissions, jti, issuedAt).value;
      ValidateRefreshToken(cfg, codec, codec.write(t), now) == Success(None)
  {
    var t := CreateAccessToken(cfg, userId, email, roleId, permissions, jti, issuedAt).value;
    assert codec.read(codec.write(t)) == Some(t);
  }

  /** The skew is exactly 30 s: a token is still accepted 30 s after its
      expiry and rejected one second later. */
  lemma ExpiryBoundary(cfg: JwtConfig, codec: Codec, text: string, t: Token)
    requires Faithful(codec) && text == codec.write(t)
    requires cfg.refreshSecret == Some(t.signingKey) && cfg.issuer == t.issuer && cfg.audience == t.audience
    requires !Text.IsNullOrWhiteSpace(t.issuer) && !Text.IsNullOrWhiteSpace(t.audience)
    requires t.notBefore.None? || t.notBefore.value <= t.expires
    ensures ValidateRefreshToken(cfg, codec, text, t.expires + ClockSkew) == Success(Some(t.claims))
    ensures ValidateRefreshToken(cfg, codec, text, t.expires + ClockSkew + 1) == Success(None)
  {
    assert codec.read(codec.write(t)) == Some(t);
  }

  /** A blank or missing configured issuer or audience refuses every token. */
  lemma BlankSettingsRejectEverything(cfg: JwtConfig, codec: Codec, text: string, now: int)
    requires cfg.refreshSecret.Some?
    requires Text.IsNullOrWhiteSpace(cfg.issuer) || Text.IsNullOrWhiteSpace(cfg.audience)
    ensures ValidateRefreshToken(cfg, codec, text, now) == Success(None)
  {
  }

  /** A token whose not-before lies after its expiry is refused at any time. */
  lemma InvertedLifetimeRejected(cfg: JwtConfig, codec: Codec, text: string, t: Token, now: int)
    requires cfg.refreshSecret.Some? && codec.read(text) == Some(t)
    requires t.notBefore.Some? && t.notBefore.value > t.expires
    ensures ValidateRefreshToken(cfg, codec, text, now) == Success(None)
  {
  }
}
