/** `AuthController`: login, refresh and the current-user endpoint, with the
    user store, the password check, the clock and the identifier source
    supplied as collaborators. */
module AuthController {
  import opened Wrappers
  import opened Numbers
  import opened Text
  import opened Claims
  import opened Values
  import opened ActionResults
  import opened JwtTokens
  import ApiResponses
  import JwtTokenService
  import RoleHelper

  const MissingCredentials := "Thiếu email hoặc mật khẩu."
  const BadCredentials := "Email hoặc mật khẩu không đúng."
  const LoginSucceeded := "Đăng nhập thành công"
  const RefreshTokenRequired := "refreshToken is required"
  const InvalidRefreshToken := "Invalid or expired refresh token"
  const MissingSubject := "Missing subject claim"
  const MissingRoleId := "Missing role_id claim"
  const RefreshSucceeded := "Làm mới token thành công"
  const CurrentUser := "Thông tin người dùng"

  /** Request bodies; a property the JSON did not set is `None`. */
  datatype LoginModel = LoginModel(email: Option<string>, password: Option<string>)
  datatype RefreshRequest = RefreshRequest(refreshToken: Option<string>)

  /** A row of the user lookup: `(userId, email, roleId, passwordHash)`. */
  datatype UserRow = UserRow(userId: int64, email: string, roleId: int32, passwordHash: string)

  /** `IPermissionService`, including the `GetUserByIdAsync` the controller calls. */
  datatype PermissionStore = PermissionStore(
    userByEmail: string -> Option<UserRow>,
    userById: int64 -> Option<UserRow>,
    permissionsOf: int64 -> seq<string>)

  /** Everything the actions depend on besides the request: the store, the
      password check, the token configuration and codec, the clock, and the
      identifiers `Guid.NewGuid` yields for the access and the refresh token. */
  datatype Env = Env(
    store: PermissionStore,
    verifyPassword: (string, string) -> bool,
    cfg: JwtConfig,
    codec: Codec,
    now: int,
    accessJti: string,
    refreshJti: string)

  datatype TokenPair = TokenPair(access: Token, refresh: Token)

  /** `ApiResponse<object>.Fail(message)` returned with `status`. */
  function Rejected(status: int, message: string): Outcome {
    Completed(ObjectResult(Some(Response(ApiResponses.Fail(message))), Some(status)))
  }

  /** The fault a token service throws, in flight. */
  function Raise(f: Fault): Outcome {
    Threw(Exception(FaultMessage(f), None, None))
  }

  /** The two creator calls, access first. */
  function IssuePair(env: Env, userId: int64, email: string, roleId: int32, permissions: seq<string>): (r: Result<TokenPair, Fault>)
    ensures r.Success? <==>
      && JwtTokenService.CreateAccessToken(env.cfg, userId, email, roleId, permissions, env.accessJti, env.now).Success?
      && JwtTokenService.CreateRefreshToken(env.cfg, userId, email, roleId, permissions, env.refreshJti, env.now).Success?
    ensures r.Success? ==>
      && r.value.access == JwtTokenService.CreateAccessToken(env.cfg, userId, email, roleId, permissions, env.accessJti, env.now).value
      && r.value.refresh == JwtTokenService.CreateRefreshToken(env.cfg, userId, email, roleId, permissions, env.refreshJti, env.now).value
  {
    var access :- JwtTokenService.CreateAccessToken(env.cfg, userId, email, roleId, permissions, env.accessJti, env.now);
    var refresh :- JwtTokenService.CreateRefreshToken(env.cfg, userId, email, roleId, permissions, env.refreshJti, env.now);
    Success(TokenPair(access, refresh))
  }

  /** `TokenPairResponse`. */
  function PairValue(codec: Codec, pair: TokenPair): Value {
    Object([Field("AccessToken", Some(Str(codec.write(pair.access)))),
            Field("RefreshToken", Some(Str(codec.write(pair.refresh))))])
  }

  /** Issue a pair and answer 200 with it, or let the fault escape. */
  function Issued(env: Env, userId: int64, email: string, roleId: int32, permissions: seq<string>, message: string): Outcome {
    match IssuePair(env, userId, email, roleId, permissions)
    case Failure(f) => Raise(f)
    case Success(pair) => Completed(OkObject(Response(ApiResponses.Ok(Some(PairValue(env.codec, pair)), message))))
  }

  /** The input checks of `Login` pass. */
  predicate FieldsPresent(model: Option<LoginModel>) {
    model.Some? && !IsNullOrWhiteSpace(model.value.email) && !IsNullOrWhiteSpace(model.value.password)
  }

  /** The store knows the email and the password matches its hash. */
  predicate CredentialsAccepted(env: Env, model: Option<LoginModel>) {
    && FieldsPresent(model)
    && env.store.userByEmail(model.value.email.value).Some?
    && env.verifyPassword(model.value.password.value, env.store.userByEmail(model.value.email.value).value.passwordHash)
  }

  /** The status of a completed outcome. */
  function StatusOf(o: Outcome): Option<int> {
    if o.Completed? && o.result.ObjectResult? then o.result.statusCode else None
  }

  /** `Login`. */
  function Login(env: Env, model: Option<LoginModel>): (o: Outcome)
    ensures !FieldsPresent(model) ==> o == Rejected(400, MissingCredentials)
    ensures FieldsPresent(model) && !CredentialsAccepted(env, model) ==> o == Rejected(401, BadCredentials)
    ensures CredentialsAccepted(env, model) ==>
      var u := env.store.userByEmail(model.value.email.value).value;
      o == Issued(env, u.userId, u.email, u.roleId, env.store.permissionsOf(u.userId), LoginSucceeded)
  {
    if !FieldsPresent(model) then Rejected(400, MissingCredentials)
    else
      match env.store.userByEmail(model.value.email.value)
      case None => Rejected(401, BadCredentials)
      case Some(u) =>
        if !env.verifyPassword(model.value.password.value, u.passwordHash) then Rejected(401, BadCredentials)
        else Issued(env, u.userId, u.email, u.roleId, env.store.permissionsOf(u.userId), LoginSucceeded)
  }

  /** Login answers 200 exactly when the credentials are accepted and both
      tokens can be created; a rejection is a failure envelope without data. */
  lemma LoginOutcomes(env: Env, model: Option<LoginModel>)
    ensures var o := Login(env, model);
      && (StatusOf(o) == Some(200) <==>
            CredentialsAccepted(env, model)
            && var u := env.store.userByEmail(model.value.email.value).value;
            IssuePair(env, u.userId, u.email, u.roleId, env.store.permissionsOf(u.userId)).Success?)
      && (o.Threw? ==> CredentialsAccepted(env, model))
      && (StatusOf(o) != Some(200) && o.Completed? ==>
            && StatusOf(o) in {Some(400), Some(401)}
            && o.result.value.value.envelope == ApiResponses.Fail(if StatusOf(o) == Some(400) then MissingCredentials else BadCredentials))
  {
  }

  /** The access and the refresh token of one login are different texts
      whenever they are signed with different keys or carry different
      identifiers. */
  lemma LoginTokensDistinct(env: Env, model: Option<LoginModel>)
    requires Faithful(env.codec)
    requires CredentialsAccepted(env, model)
    requires var u := env.store.userByEmail(model.value.email.value).value;
      IssuePair(env, u.userId, u.email, u.roleId, env.store.permissionsOf(u.userId)).Success?
    requires env.cfg.key != env.cfg.refreshSecret || env.accessJti != env.refreshJti
    ensures var u := env.store.userByEmail(model.value.email.value).value;
      var pair := IssuePair(env, u.userId, u.email, u.roleId, env.store.permissionsOf(u.userId)).value;
      && Login(env, model) == Completed(OkObject(Response(ApiResponses.Ok(Some(PairValue(env.codec, pair)), LoginSucceeded))))
      && env.codec.write(pair.access) != env.codec.write(pair.refresh)
  {
    var u := env.store.userByEmail(model.value.email.value).value;
    var pair := IssuePair(env, u.userId, u.email, u.roleId, env.store.permissionsOf(u.userId)).value;
    if env.cfg.key == env.cfg.refreshSecret {
      assert pair.access.claims[..7][2] == Claim(Jti, env.accessJti);
      assert pair.refresh.claims[..7][2] == Claim(Jti, env.refreshJti);
      assert pair.access.claims != pair.refresh.claims;
    }
    WriteInjective(env.codec, pair.access, pair.refresh);
  }

  /** A blank field is rejected whatever the store holds: nothing is looked up. */
  lemma LoginBlankFieldsBeforeLookup(env1: Env, env2: Env, model: Option<LoginModel>)
    requires !FieldsPresent(model)
    ensures Login(env1, model) == Login(env2, model) == Rejected(400, MissingCredentials)
  {
  }

  /** An unknown email and a wrong password give the same answer. */
  lemma LoginHidesAccountExistence(unknown: Env, wrongPassword: Env, model: Option<LoginModel>)
    requires FieldsPresent(model)
    requires unknown.store.userByEmail(model.value.email.value).None?
    requires wrongPassword.store.userByEmail(model.value.email.value).Some?
    requires !wrongPassword.verifyPassword(model.value.password.value,
                                           wrongPassword.store.userByEmail(model.value.email.value).value.passwordHash)
    ensures Login(unknown, model) == Login(wrongPassword, model) == Rejected(401, BadCredentials)
  {
  }

  /** What `Refresh` issues for: the subject, the role and the email. */
  datatype Identity = Identity(userId: int64, roleId: int32, email: string)

  /** The email the stored row gives, unless it is blank. */
  function PreferStoredEmail(stored: string, fromToken: Option<string>): Option<string> {
    if IsNullOrWhiteSpace(Some(stored)) then fromToken else Some(stored)
  }

  /** Subject, then role and email: the store first, the token's claims as
      fallback. A failure carries the 401 message. */
  function ResolveIdentity(store: PermissionStore, principal: Principal): (r: Result<Identity, string>)
    ensures var subject := FindFirstValue(principal, Sub);
      var subjectText := if subject.Some? then subject else FindFirstValue(principal, NameIdentifier);
      && (TryParseInt64(subjectText).None? <==> r == Failure(MissingSubject))
      && (r.Success? ==> r.value.userId == TryParseInt64(subjectText).value)
    ensures r.Success? && store.userById(r.value.userId).Some? ==>
      var u := store.userById(r.value.userId).value;
      && r.value.roleId == u.roleId
      && r.value.email == PreferStoredEmail(u.email, FindFirstValue(principal, Email)).GetOr("")
    ensures r.Success? && store.userById(r.value.userId).None? ==>
      && Some(r.value.roleId) == TryParseInt32(FindFirstValue(principal, JwtTokenService.RoleIdType))
      && r.value.email == FindFirstValue(principal, Email).GetOr("")
    ensures var subject := FindFirstValue(principal, Sub);
      var subjectText := if subject.Some? then subject else FindFirstValue(principal, NameIdentifier);
      r == Failure(MissingRoleId) <==>
        && TryParseInt64(subjectText).Some?
        && store.userById(TryParseInt64(subjectText).value).None?
        && TryParseInt32(FindFirstValue(principal, JwtTokenService.RoleIdType)).None?
    ensures r.Failure? ==> r.error in {MissingSubject, MissingRoleId}
  {
    var subject := FindFirstValue(principal, Sub);
    var subjectText := if subject.Some? then subject else FindFirstValue(principal, NameIdentifier);
    match TryParseInt64(subjectText)
    case None => Failure(MissingSubject)
    case Some(userId) =>
      var emailFromToken := FindFirstValue(principal, Email);
      match store.userById(userId)
      case Some(u) => Success(Identity(userId, u.roleId, PreferStoredEmail(u.email, emailFromToken).GetOr("")))
      case None =>
        match TryParseInt32(FindFirstValue(principal, JwtTokenService.RoleIdType))
        case None => Failure(MissingRoleId)
        case Some(roleId) => Success(Identity(userId, roleId, emailFromToken.GetOr("")))
  }

  /** The request carries a refresh token that is not blank. */
  predicate TokenSent(req: Option<RefreshRequest>) {
    req.Some? && !IsNullOrWhiteSpace(req.value.refreshToken)
  }

  function SentText(req: Option<RefreshRequest>): string
    requires TokenSent(req)
  {
    req.value.refreshToken.value
  }

  /** Who a refresh token speaks for, stated without the validation call:
      the text must read as a token that the refresh secret, the issuer, the
      audience and the lifetime all accept, and the identity of its claims
      must resolve. A failure carries the 401 message. */
  function IdentityOf(env: Env, text: string): (r: Result<Identity, string>)
    requires env.cfg.refreshSecret.Some?
    ensures r == Failure(InvalidRefreshToken) <==>
      || env.codec.read(text).None?
      || !JwtTokenService.Accepts(env.cfg, env.cfg.refreshSecret.value, env.codec.read(text).value, env.now)
    ensures r != Failure(InvalidRefreshToken) ==> r == ResolveIdentity(env.store, env.codec.read(text).value.claims)
  {
    match env.codec.read(text)
    case None => Failure(InvalidRefreshToken)
    case Some(t) =>
      if JwtTokenService.Accepts(env.cfg, env.cfg.refreshSecret.value, t, env.now) then ResolveIdentity(env.store, t.claims)
      else Failure(InvalidRefreshToken)
  }

  /** `Refresh`. 400 exactly when no token is sent; 401 exactly when a token
      is sent, the secret is configured and no identity comes of it; a fault
      exactly when the secret is missing or issuing the new pair fails; and
      otherwise 200 with a pair for the resolved subject and its permissions
      as the store has them now. */
  function Refresh(env: Env, req: Option<RefreshRequest>): (o: Outcome)
    ensures !TokenSent(req) <==> o == Rejected(400, RefreshTokenRequired)
    ensures TokenSent(req) && env.cfg.refreshSecret.None? ==> o == Raise(MissingSetting("Jwt:RefreshSecret"))
    ensures StatusOf(o) == Some(401) <==>
      TokenSent(req) && env.cfg.refreshSecret.Some? && IdentityOf(env, SentText(req)).Failure?
    ensures StatusOf(o) == Some(401) ==> o == Rejected(401, IdentityOf(env, SentText(req)).error)
    ensures o.Threw? <==>
      && TokenSent(req)
      && (|| env.cfg.refreshSecret.None?
          || (&& IdentityOf(env, SentText(req)).Success?
              && var id := IdentityOf(env, SentText(req)).value;
              IssuePair(env, id.userId, id.email, id.roleId, env.store.permissionsOf(id.userId)).Failure?))
    ensures o.Completed? && StatusOf(o) != Some(200) ==>
      && StatusOf(o) in {Some(400), Some(401)}
      && o.result.value.Some? && o.result.value.value.Response?
      && !o.result.value.value.envelope.success && o.result.value.value.envelope.data.None?
    ensures StatusOf(o) == Some(200) ==>
      && TokenSent(req) && env.cfg.refreshSecret.Some? && IdentityOf(env, SentText(req)).Success?
      && var id := IdentityOf(env, SentText(req)).value;
      var pair := IssuePair(env, id.userId, id.email, id.roleId, env.store.permissionsOf(id.userId));
      && pair.Success?
      && o == Completed(OkObject(Response(ApiResponses.Ok(Some(PairValue(env.codec, pair.value)), RefreshSucceeded))))
  {
    if req.None? || IsNullOrWhiteSpace(req.value.refreshToken) then Rejected(400, RefreshTokenRequired)
    else
      match JwtTokenService.ValidateRefreshToken(env.cfg, env.codec, req.value.refreshToken.value, env.now)
      case Failure(f) => Raise(f)
      case Success(None) => Rejected(401, InvalidRefreshToken)
      case Success(Some(principal)) =>
        match ResolveIdentity(env.store, principal)
        case Failure(message) => Rejected(401, message)
        case Success(id) => Issued(env, id.userId, id.email, id.roleId, env.store.permissionsOf(id.userId), RefreshSucceeded)
  }

  /** Reading a principal built by `BuildCommonClaims` recovers the subject,
      the role id and the email it was built from. */
  lemma ReadBackCommonClaims(userId: int64, email: string, roleId: int32, roleName: string,
                             permissions: seq<string>, jti: string, now: int)
    ensures var p := JwtTokenService.BuildCommonClaims(userId, email, roleId, roleName, permissions, jti, now);
      && FindFirstValue(p, Sub) == Some(Decimal(userId as int))
      && FindFirstValue(p, Email) == Some(email)
      && FindFirstValue(p, JwtTokenService.RoleIdType) == Some(Decimal(roleId as int))
      && FindFirstValue(p, JwtTokenService.RoleNameType) == Some(roleName)
      && FindAllValues(p, JwtTokenService.PermissionType) == permissions
  {
    var p := JwtTokenService.BuildCommonClaims(userId, email, roleId, roleName, permissions, jti, now);
    var fixed := JwtTokenService.FixedClaims(userId, email, roleId, roleName, jti, now);
    ReadBackFixed(p, fixed);
    ReadBackPermissions(userId, email, roleId, roleName, permissions, jti, now);
  }

  /** The fixed claims in issuance order. */
  predicate FixedShape(p: Principal, fixed: seq<Claim>) {
    && |fixed| == 7 && |p| >= 7 && p[..7] == fixed
    && fixed[0].claimType == Sub && fixed[1].claimType == Email && fixed[2].claimType == Jti
    && fixed[3].claimType == Iat && fixed[4].claimType == RoleType
    && fixed[5].claimType == JwtTokenService.RoleIdType && fixed[6].claimType == JwtTokenService.RoleNameType
  }

  lemma ReadBackFixed(p: Principal, fixed: seq<Claim>)
    requires FixedShape(p, fixed)
    ensures FindFirstValue(p, Sub) == Some(fixed[0].value)
    ensures FindFirstValue(p, Email) == Some(fixed[1].value)
    ensures FindFirstValue(p, JwtTokenService.RoleIdType) == Some(fixed[5].value)
    ensures FindFirstValue(p, JwtTokenService.RoleNameType) == Some(fixed[6].value)
  {
    ReadBackSub(p, fixed);
    ReadBackEmail(p, fixed);
    ReadBackRoleId(p, fixed);
    ReadBackRoleName(p, fixed);
  }

  lemma ReadBackSub(p: Principal, fixed: seq<Claim>)
    requires FixedShape(p, fixed)
    ensures FindFirstValue(p, Sub) == Some(fixed[0].value)
  {
    assert p[0] == fixed[0];
    TypeIsByLength(p[0], Sub);
    FindFirstAt(p, Sub, 0);
  }

  lemma ReadBackEmail(p: Principal, fixed: seq<Claim>)
    requires FixedShape(p, fixed)
    ensures FindFirstValue(p, Email) == Some(fixed[1].value)
  {
    assert p[0] == fixed[0] && p[1] == fixed[1];
    TypeIsByLength(p[0], Email);
    TypeIsByLength(p[1], Email);
    FindFirstAt(p, Email, 1);
  }

  lemma ReadBackRoleId(p: Principal, fixed: seq<Claim>)
    requires FixedShape(p, fixed)
    ensures FindFirstValue(p, JwtTokenService.RoleIdType) == Some(fixed[5].value)
  {
    forall j | 0 <= j <= 5 ensures p[j] == fixed[j] && (TypeIs(p[j], JwtTokenService.RoleIdType) <==> j == 5) {
      assert p[j] == p[..7][j];
      TypeIsByLength(p[j], JwtTokenService.RoleIdType);
    }
    FindFirstAt(p, JwtTokenService.RoleIdType, 5);
  }

  lemma ReadBackRoleName(p: Principal, fixed: seq<Claim>)
    requires FixedShape(p, fixed)
    ensures FindFirstValue(p, JwtTokenService.RoleNameType) == Some(fixed[6].value)
  {
    forall j | 0 <= j <= 6 ensures p[j] == fixed[j] && (TypeIs(p[j], JwtTokenService.RoleNameType) <==> j == 6) {
      assert p[j] == p[..7][j];
      TypeIsByLength(p[j], JwtTokenService.RoleNameType);
    }
    FindFirstAt(p, JwtTokenService.RoleNameType, 6);
  }

  lemma ReadBackPermissions(userId: int64, email: string, roleId: int32, roleName: string,
                            permissions: seq<string>, jti: string, now: int)
    ensures FindAllValues(JwtTokenService.BuildCommonClaims(userId, email, roleId, roleName, permissions, jti, now),
                          JwtTokenService.PermissionType) == permissions
  {
    var fixed := JwtTokenService.FixedClaims(userId, email, roleId, roleName, jti, now);
    var perms := JwtTokenService.PermissionClaims(permissions);
    FindAllValuesAppend(fixed, perms, JwtTokenService.PermissionType);
    assert FindAllValues(fixed, JwtTokenService.PermissionType) == [] by {
      forall i | 0 <= i < |fixed| ensures !TypeIs(fixed[i], JwtTokenService.PermissionType) {
        TypeIsByLength(fixed[i], JwtTokenService.PermissionType);
      }
      NoneOfType(fixed, JwtTokenService.PermissionType);
    }
    PermissionValues(permissions);
  }

  lemma {:induction false} PermissionValues(permissions: seq<string>)
    ensures FindAllValues(JwtTokenService.PermissionClaims(permissions), JwtTokenService.PermissionType) == permissions
    decreases |permissions|
  {
    if |permissions| > 0 {
      var claims := JwtTokenService.PermissionClaims(permissions);
      assert claims[1..] == JwtTokenService.PermissionClaims(permissions[1..]);
      PermissionValues(permissions[1..]);
      assert TypeIs(claims[0], JwtTokenService.PermissionType);
    }
  }

  /** The identity `Refresh` resolves from a principal the service issued:
      the subject and, when the user is still stored, the stored role and
      (non-blank) email; otherwise the role and email of the token. */
  lemma ResolveIssuedIdentity(store: PermissionStore, userId: int64, email: string, roleId: int32,
                              permissions: seq<string>, jti: string, now: int)
    ensures var p := JwtTokenService.BuildCommonClaims(userId, email, roleId, RoleHelper.ToName(roleId), permissions, jti, now);
      ResolveIdentity(store, p) == Success(
        match store.userById(userId)
        case Some(u) => Identity(userId, u.roleId, if IsNullOrWhiteSpace(Some(u.email)) then email else u.email)
        case None => Identity(userId, roleId, email))
  {
    ReadBackCommonClaims(userId, email, roleId, RoleHelper.ToName(roleId), permissions, jti, now);
    Int64RoundTrip(userId);
    Int32RoundTrip(roleId);
  }

  /** The success path of `Refresh`: a non-blank token that validates to a
      principal whose identity resolves. */
  lemma RefreshIssues(env: Env, text: string, principal: Principal, id: Identity)
    requires !IsNullOrWhiteSpace(Some(text))
    requires JwtTokenService.ValidateRefreshToken(env.cfg, env.codec, text, env.now) == Success(Some(principal))
    requires ResolveIdentity(env.store, principal) == Success(id)
    ensures Refresh(env, Some(RefreshRequest(Some(text))))
      == Issued(env, id.userId, id.email, id.roleId, env.store.permissionsOf(id.userId), RefreshSucceeded)
  {
  }

  /** A refresh token from a successful login, presented within its lifetime
      (widened by the skew), is exchanged for a new pair for the same user,
      with the permissions reloaded from the store rather than copied from
      the old token. */
  lemma RefreshAfterLogin(login: Env, later: Env, model: Option<LoginModel>)
    requires Faithful(login.codec) && later.codec == login.codec && later.cfg == login.cfg
    requires !IsNullOrWhiteSpace(login.cfg.issuer) && !IsNullOrWhiteSpace(login.cfg.audience)
    requires CredentialsAccepted(login, model)
    requires var u := login.store.userByEmail(model.value.email.value).value;
      IssuePair(login, u.userId, u.email, u.roleId, login.store.permissionsOf(u.userId)).Success?
    requires login.now - JwtTokenService.ClockSkew <= later.now
    requires later.now <= login.now + JwtTokenService.RefreshLifetime(login.cfg) + JwtTokenService.ClockSkew
    ensures var u := login.store.userByEmail(model.value.email.value).value;
      var pair := IssuePair(login, u.userId, u.email, u.roleId, login.store.permissionsOf(u.userId)).value;
      var id := match later.store.userById(u.userId)
        case Some(v) => Identity(u.userId, v.roleId, if IsNullOrWhiteSpace(Some(v.email)) then u.email else v.email)
        case None => Identity(u.userId, u.roleId, u.email);
      Refresh(later, Some(RefreshRequest(Some(login.codec.write(pair.refresh)))))
        == Issued(later, id.userId, id.email, id.roleId, later.store.permissionsOf(u.userId), RefreshSucceeded)
  {
    var u := login.store.userByEmail(model.value.email.value).value;
    var permissions := login.store.permissionsOf(u.userId);
    var pair := IssuePair(login, u.userId, u.email, u.roleId, permissions).value;
    var text := login.codec.write(pair.refresh);
    assert !IsWhiteSpace(text[0]) by {
      assert IsCompactChar(text[0]);
    }
    var claims := JwtTokenService.BuildCommonClaims(u.userId, u.email, u.roleId, RoleHelper.ToName(u.roleId),
                                                    permissions, login.refreshJti, login.now);
    JwtTokenService.RefreshRoundTrip(login.cfg, login.codec, u.userId, u.email, u.roleId, permissions,
                                     login.refreshJti, login.now, later.now);
    assert JwtTokenService.ValidateRefreshToken(later.cfg, later.codec, text, later.now) == Success(Some(claims));
    ResolveIssuedIdentity(later.store, u.userId, u.email, u.roleId, permissions, login.refreshJti, login.now);
    var id := match later.store.userById(u.userId)
      case Some(v) => Identity(u.userId, v.roleId, if IsNullOrWhiteSpace(Some(v.email)) then u.email else v.email)
      case None => Identity(u.userId, u.roleId, u.email);
    RefreshIssues(later, text, claims, id);
  }

  /** A nullable string property of the anonymous result object. */
  function TextField(name: string, s: Option<string>): Field {
    Field(name, if s.Some? then Some(Str(s.value)) else None)
  }

  /** The role name `Me` reports: `role_name`, else the role claim, else "unknown". */
  function RoleNameOf(user: Principal): (name: string)
    ensures FindFirstValue(user, JwtTokenService.RoleNameType).Some? ==>
      name == FindFirstValue(user, JwtTokenService.RoleNameType).value
    ensures FindFirstValue(user, JwtTokenService.RoleNameType).None? && FindFirstValue(user, RoleType).Some? ==>
      name == FindFirstValue(user, RoleType).value
    ensures FindFirstValue(user, JwtTokenService.RoleNameType).None? && FindFirstValue(user, RoleType).None? ==>
      name == RoleHelper.Unknown
  {
    FindFirstValue(user, JwtTokenService.RoleNameType).GetOr(FindFirstValue(user, RoleType).GetOr(RoleHelper.Unknown))
  }

  /** The permission codes `Me` reports: each `permission` claim value once. */
  function PermissionsOf(user: Principal): (codes: seq<string>)
    ensures NoDuplicates(codes)
    ensures forall code :: code in codes <==>
      exists i | 0 <= i < |user| :: TypeIs(user[i], JwtTokenService.PermissionType) && user[i].value == code
  {
    Distinct(FindAllValues(user, JwtTokenService.PermissionType))
  }

  function MeData(user: Principal): Value {
    var codes := PermissionsOf(user);
    Object([
      TextField("userId", FindFirstValue(user, Sub)),
      TextField("email", FindFirstValue(user, Email)),
      TextField("roleId", FindFirstValue(user, JwtTokenService.RoleIdType)),
      Field("roleName", Some(Str(RoleNameOf(user)))),
      Field("permissions", Some(List(seq(|codes|, i requires 0 <= i < |codes| => Str(codes[i])))))])
  }

  /** `Me`: the caller's own claims, always 200. */
  function Me(user: Principal): (r: ActionResult)
    ensures r.ObjectResult? && r.statusCode == Some(200)
    ensures r.value.Some? && r.value.value.Response?
    ensures var e := r.value.value.envelope;
      && ApiResponses.WellFormed(e) && e.success && e.message == CurrentUser
      && e.data == Some(MeData(user)) && e.meta.None?
  {
    OkObject(Response(ApiResponses.Ok(Some(MeData(user)), CurrentUser)))
  }

  /** `Me` on the claims of a token the service issued reports the subject,
      the role id, the role's name and the distinct permissions. */
  lemma MeOfIssuedClaims(userId: int64, email: string, roleId: int32, permissions: seq<string>, jti: string, now: int)
    ensures var user := JwtTokenService.BuildCommonClaims(userId, email, roleId, RoleHelper.ToName(roleId), permissions, jti, now);
      var codes := Distinct(permissions);
      MeData(user) == Object([
        Field("userId", Some(Str(Decimal(userId as int)))),
        Field("email", Some(Str(email))),
        Field("roleId", Some(Str(Decimal(roleId as int)))),
        Field("roleName", Some(Str(RoleHelper.ToName(roleId)))),
        Field("permissions", Some(List(seq(|codes|, i requires 0 <= i < |codes| => Str(codes[i])))))])
  {
    ReadBackCommonClaims(userId, email, roleId, RoleHelper.ToName(roleId), permissions, jti, now);
  }
}
