/** `JwtTokenService` of the Common namespace: one token carrying the subject,
    the email and one `perm` claim per permission, signed with `Jwt:Key`. */
module CommonJwtTokenService {
  import opened Wrappers
  import opened Numbers
  import opened Claims
  import opened JwtTokens
  import PermissionHandler
  import PermissionPolicyProvider

  function PermClaims(permissions: seq<string>): (claims: seq<Claim>)
    ensures |claims| == |permissions|
    ensures forall i | 0 <= i < |permissions| :: claims[i] == Claim(PermissionHandler.PermClaimType, permissions[i])
  {
    if |permissions| == 0 then []
    else [Claim(PermissionHandler.PermClaimType, permissions[0])] + PermClaims(permissions[1..])
  }

  /** The claim list of `CreateToken`. */
  function TokenClaims(userId: int64, email: string, permissions: seq<string>): (claims: Principal)
    ensures |claims| == 2 + |permissions|
    ensures claims[..2] == [Claim(Sub, Decimal(userId as int)), Claim(Email, email)]
    ensures forall i | 0 <= i < |permissions| :: claims[2 + i] == Claim("perm", permissions[i])
  {
    [Claim(Sub, Decimal(userId as int)), Claim(Email, email)] + PermClaims(permissions)
  }

  /** `CreateToken`. The key and `Jwt:ExpiresHours` are read with `!`: when
      absent, the call throws. Issuer and audience may be absent; an absent or
      empty one is left out of the payload. No not-before is set, so a
      negative lifetime is accepted as long as the expiry is a `DateTime`. */
  function CreateToken(cfg: JwtConfig, userId: int64, email: string, permissions: seq<string>, now: int): (r: Result<Token, Fault>)
    ensures r.Success? <==>
      cfg.key.Some? && cfg.expiresHours.Some? && Representable(now + 3600 * cfg.expiresHours.value)
    ensures cfg.key.None? ==> r == Failure(NullSetting("Jwt:Key"))
    ensures cfg.key.Some? && cfg.expiresHours.Some? && !Representable(now + 3600 * cfg.expiresHours.value) ==>
      r == Failure(ExpiryOutOfRange)
    ensures r.Success? ==>
      && r.value.signingKey == cfg.key.value
      && r.value.issuer == PayloadValue(cfg.issuer) && r.value.audience == PayloadValue(cfg.audience)
      && r.value.claims == TokenClaims(userId, email, permissions)
      && r.value.notBefore.None?
      && r.value.expires == now + 3600 * cfg.expiresHours.value
  {
    if cfg.key.None? then Failure(NullSetting("Jwt:Key"))
    else if cfg.expiresHours.None? then Failure(NullSetting("Jwt:ExpiresHours"))
    else if !Representable(now + cfg.expiresHours.value * 3600) then Failure(ExpiryOutOfRange)
    else Success(Token(cfg.key.value, PayloadValue(cfg.issuer), PayloadValue(cfg.audience), TokenClaims(userId, email, permissions),
                       None, now + cfg.expiresHours.value * 3600))
  }

  /** No role, `jti` or `iat` claim is emitted. */
  lemma NoRoleOrRegisteredIds(userId: int64, email: string, permissions: seq<string>)
    ensures forall c | c in TokenClaims(userId, email, permissions) ::
      c.claimType !in {Jti, Iat, RoleType, "role_id", "role_name"}
  {
    var claims := TokenClaims(userId, email, permissions);
    forall c | c in claims ensures c.claimType !in {Jti, Iat, RoleType, "role_id", "role_name"} {
      var i :| 0 <= i < |claims| && claims[i] == c;
      if i >= 2 {
        assert c == Claim("perm", permissions[i - 2]);
      } else {
        assert c == claims[..2][i];
      }
    }
  }

  /** A principal carrying these claims passes `PermissionHandler` for every
      permission it was issued, and for no other code. */
  lemma TokenGrantsItsPermissions(userId: int64, email: string, permissions: seq<string>, code: string)
    ensures var claims := TokenClaims(userId, email, permissions);
      (PermissionHandler.HandleRequirement(claims, PermissionPolicyProvider.PermissionRequirement(code))
         == PermissionHandler.Succeeded) <==> code in permissions
  {
    var claims := TokenClaims(userId, email, permissions);
    var requirement := PermissionPolicyProvider.PermissionRequirement(code);
    if code in permissions {
      var k :| 0 <= k < |permissions| && permissions[k] == code;
      assert claims[2 + k] == Claim("perm", code);
      assert PermissionHandler.Grants(claims[2 + k], code);
    }
    if PermissionHandler.HandleRequirement(claims, requirement) == PermissionHandler.Succeeded {
      var i :| 0 <= i < |claims| && PermissionHandler.Grants(claims[i], code);
      assert permissions[i - 2] == code;
    }
  }
}
