/** The request pipeline as the startup code assembles it: the exception
    middleware outermost, then authentication and authorization, then the
    action, whose result the response filter rewrites. */
module Pipeline {
  import opened Wrappers
  import opened Claims
  import opened Values
  import opened ActionResults
  import ApiResponses
  import ApiResponseFilter
  import ExceptionMiddleware
  import ClientErrors
  import HasPermissionAttribute
  import opened PermissionPolicyProvider
  import PermissionHandler
  import JwtTokenService
  import CommonJwtTokenService
  import AuthController
  import Numbers
  import Text

  /** The authorization decision for an endpoint: no authenticated user is
      challenged (401), a user who fails the policy is forbidden (403), and a
      policy name no provider knows makes the middleware throw. */
  datatype Gate = Challenge | Forbid | Allow | PolicyNotFound(policyName: string)

  /** One `[Authorize]` attribute on an endpoint (`[HasPermission]` is one):
      the policy it names, if any. */
  datatype AuthorizeData = AuthorizeData(policy: Option<string>)

  /** The default provider as the startup code leaves it: no named policies,
      the framework's default policy (an authenticated user) and no fallback
      policy. */
  const Configured := FallbackProvider((name: string) => None, AuthorizationPolicy([DenyAnonymousRequirement]), None)

  /** The policy one attribute stands for: the named one, or the default
      policy when its name is absent or blank. */
  function PolicyOf(fallback: FallbackProvider, data: AuthorizeData): (r: Option<AuthorizationPolicy>)
    ensures Text.IsNullOrWhiteSpace(data.policy) ==> r == Some(fallback.defaultPolicy)
    ensures !Text.IsNullOrWhiteSpace(data.policy) ==> r == PermissionPolicyProvider.GetPolicy(fallback, data.policy.value)
  {
    if Text.IsNullOrWhiteSpace(data.policy) then Some(PermissionPolicyProvider.GetDefaultPolicy(fallback))
    else PermissionPolicyProvider.GetPolicy(fallback, data.policy.value)
  }

  /** The union of the attributes' policies, as `AuthorizationPolicy.CombineAsync`
      builds it; an unknown policy name is the failure. */
  function Combined(fallback: FallbackProvider, data: seq<AuthorizeData>): (r: Result<seq<Requirement>, string>)
    ensures r.Failure? <==> exists i | 0 <= i < |data| :: PolicyOf(fallback, data[i]).None?
    ensures r.Failure? ==> exists i | 0 <= i < |data| :: PolicyOf(fallback, data[i]).None? && data[i].policy == Some(r.error)
    ensures r.Success? ==> forall q :: q in r.value <==>
      exists i | 0 <= i < |data| :: q in PolicyOf(fallback, data[i]).value.requirements
    decreases |data|
  {
    if |data| == 0 then Success([])
    else
      match PolicyOf(fallback, data[0])
      case None => Failure(data[0].policy.value)
      case Some(policy) =>
        var rest :- Combined(fallback, data[1..]);
        Success(policy.requirements + rest)
  }

  /** The requirements to meet: the combined policy, or the fallback policy
      when the endpoint has no attribute; `None` when there is nothing to
      check. */
  function EffectivePolicy(fallback: FallbackProvider, data: seq<AuthorizeData>): (r: Result<Option<seq<Requirement>>, string>)
    ensures |data| == 0 ==> r.Success? && (r.value.None? <==> fallback.fallbackPolicy.None?)
    ensures |data| == 0 && r.value.Some? ==> r.value.value == fallback.fallbackPolicy.value.requirements
    ensures |data| > 0 ==> (r.Failure? <==> Combined(fallback, data).Failure?)
    ensures |data| > 0 && r.Success? ==> r.value == Some(Combined(fallback, data).value)
  {
    if |data| == 0 then
      match PermissionPolicyProvider.GetFallbackPolicy(fallback)
      case None => Success(None)
      case Some(policy) => Success(Some(policy.requirements))
    else
      var requirements :- Combined(fallback, data);
      Success(Some(requirements))
  }

  /** Whether a requirement is met: an authenticated user for the default
      policy, the permission handler's verdict on the user's claims (none when
      anonymous) for a permission; no registered handler meets any other. */
  predicate Met(user: Option<Principal>, q: Requirement) {
    match q
    case DenyAnonymousRequirement => user.Some?
    case PermissionRequirement(_) => PermissionHandler.HandleRequirement(user.GetOr([]), q) == PermissionHandler.Succeeded
    case OtherRequirement(_) => false
  }

  /** `AuthorizationMiddleware` for one endpoint. The policy is combined
      first, so an unknown name fails even an `[AllowAnonymous]` endpoint;
      then an endpoint with nothing to check or marked `[AllowAnonymous]`
      passes; otherwise every requirement must be met, and failing that an
      anonymous user is challenged and an authenticated one forbidden. */
  function Authorize(fallback: FallbackProvider, data: seq<AuthorizeData>, allowAnonymous: bool,
                     user: Option<Principal>): (g: Gate)
    ensures g.PolicyNotFound? <==> EffectivePolicy(fallback, data).Failure?
    ensures g == Allow <==>
      && EffectivePolicy(fallback, data).Success?
      && (|| EffectivePolicy(fallback, data).value.None?
          || allowAnonymous
          || forall q | q in EffectivePolicy(fallback, data).value.value :: Met(user, q))
    ensures g == Challenge ==> user.None?
    ensures g == Forbid ==> user.Some?
  {
    match EffectivePolicy(fallback, data)
    case Failure(name) => PolicyNotFound(name)
    case Success(None) => Allow
    case Success(Some(requirements)) =>
      if allowAnonymous || forall q | q in requirements :: Met(user, q) then Allow
      else if user.None? then Challenge
      else Forbid
  }

  /** `[Authorize][HasPermission(permission)]`, as on the listing actions. */
  function PermissionEndpoint(permission: string): seq<AuthorizeData> {
    [AuthorizeData(None), AuthorizeData(Some(HasPermissionAttribute.PolicyName(permission)))]
  }

  /** Such an endpoint challenges exactly the anonymous request and allows
      exactly a user with a `perm` claim for the permission; every other
      authenticated user is forbidden. */
  lemma PermissionEndpointGate(user: Option<Principal>, permission: string)
    ensures var g := Authorize(Configured, PermissionEndpoint(permission), false, user);
      && (g == Challenge <==> user.None?)
      && (g == Allow <==> user.Some? && exists i | 0 <= i < |user.value| :: PermissionHandler.Grants(user.value[i], permission))
      && (g == Forbid <==> user.Some? && !exists i | 0 <= i < |user.value| :: PermissionHandler.Grants(user.value[i], permission))
  {
    var data := PermissionEndpoint(permission);
    PermissionPolicyProvider.AttributeRoundTrip(Configured, permission);
    assert PolicyOf(Configured, data[0]) == Some(AuthorizationPolicy([DenyAnonymousRequirement]));
    assert !Text.IsWhiteSpace(HasPermissionAttribute.PolicyName(permission)[0]) by {
      assert HasPermissionAttribute.PolicyName(permission)[0] == PermissionPolicyProvider.Prefix[0];
    }
    assert PolicyOf(Configured, data[1]) == Some(PermissionPolicy(permission));
    assert data[1..][0] == data[1] && data[1..][1..] == [];
    assert Combined(Configured, data[1..][1..]) == Success([]);
    assert PermissionPolicy(permission).requirements + [] == [PermissionRequirement(permission)];
    assert Combined(Configured, data[1..]) == Success([PermissionRequirement(permission)]);
    var requirements := [DenyAnonymousRequirement, PermissionRequirement(permission)];
    assert [DenyAnonymousRequirement] + [PermissionRequirement(permission)] == requirements;
    assert Combined(Configured, data) == Success(requirements);
    assert (forall q | q in requirements :: Met(user, q)) <==>
      Met(user, DenyAnonymousRequirement) && Met(user, PermissionRequirement(permission));
  }

  /** `[Authorize]` alone, as on `Me`: any authenticated user passes and
      nobody is forbidden. */
  lemma AuthorizeOnlyGate(user: Option<Principal>)
    ensures var g := Authorize(Configured, [AuthorizeData(None)], false, user);
      && g != Forbid
      && (g == Allow <==> user.Some?)
      && (g == Challenge <==> user.None?)
  {
    var data := [AuthorizeData(None)];
    assert data[1..] == [];
    assert Combined(Configured, data[1..]) == Success([]);
    assert PolicyOf(Configured, data[0]) == Some(AuthorizationPolicy([DenyAnonymousRequirement]));
    assert [DenyAnonymousRequirement] + [] == [DenyAnonymousRequirement];
    assert Combined(Configured, data) == Success([DenyAnonymousRequirement]);
    assert (forall q | q in [DenyAnonymousRequirement] :: Met(user, q)) <==> Met(user, DenyAnonymousRequirement);
  }

  /** An attribute whose policy name is blank stands for the default policy,
      exactly as a bare `[Authorize]` does. */
  lemma BlankPolicyNameIsDefault(user: Option<Principal>, name: string)
    requires Text.IsNullOrWhiteSpace(Some(name))
    ensures Authorize(Configured, [AuthorizeData(Some(name))], false, user)
         == Authorize(Configured, [AuthorizeData(None)], false, user)
  {
    var blank := [AuthorizeData(Some(name))];
    var bare := [AuthorizeData(None)];
    assert blank[1..] == [] && bare[1..] == [];
    assert PolicyOf(Configured, blank[0]) == PolicyOf(Configured, bare[0]);
  }

  /** `[AllowAnonymous]`, as on `Login` and `Refresh`: everyone passes. */
  lemma AllowAnonymousGate(user: Option<Principal>)
    ensures Authorize(Configured, [], true, user) == Allow
  {
  }

  /** The action's outcome after the response filter: results are rewritten,
      exceptions pass on to the middleware. The startup code registers the
      filter twice, so a result goes through it two times. */
  function Filtered(skip: bool, action: Outcome): (o: Outcome)
    ensures action.Threw? ==> o == action
    ensures action.Completed? ==> o == Completed(ApiResponseFilter.OnResultExecution(skip, action.result))
  {
    match action
    case Completed(r) =>
      ApiResponseFilter.Idempotent(skip, r);
      Completed(ApiResponseFilter.OnResultExecution(skip, ApiResponseFilter.OnResultExecution(skip, r)))
    case Threw(e) => Threw(e)
  }

  /** What the client receives for an authorized request: the action's
      outcome through the client-error mapping and the response filter,
      inside the exception middleware. */
  function Serve(isDevelopment: bool, skip: bool, action: Outcome): (response: ExceptionMiddleware.HttpResponse)
    ensures action.Completed? ==>
      response == ExceptionMiddleware.Downstream(
        ApiResponseFilter.OnResultExecution(skip, ClientErrors.MapClientError(action.result)))
    ensures action.Completed? && action.result.StatusCodeResult? && action.result.code >= 400 ==>
      && response.Downstream?
      && response.result.ObjectResult? && response.result.statusCode == Some(action.result.code)
      && (!skip ==>
            && ApiResponseFilter.IsEnveloped(response.result)
            && var e := response.result.value.value.envelope;
            && !e.success
            && e.message == ClientErrors.Title(action.result.code).GetOr(ApiResponseFilter.StatusMessage(action.result.code))
            && e.errors == Some(ClientErrors.ProblemFor(action.result.code)))
    ensures action.Threw? ==>
      && response.Written? && response.statusCode == 500 && !response.body.success
      && (response.body.errors.Some? <==> isDevelopment)
  {
    var mapped := match action
      case Completed(r) => Completed(ClientErrors.MapClientError(r))
      case Threw(e) => Threw(e);
    ExceptionMiddleware.Invoke(isDevelopment, Filtered(skip, mapped))
  }

  /** `NotFound()` from an action reaches the client as a 404 failure
      envelope titled by the client-error mapping, carrying the problem
      document. */
  lemma NotFoundScenario(isDevelopment: bool)
    ensures Serve(isDevelopment, false, Completed(StatusCodeResult(404)))
      == ExceptionMiddleware.Downstream(ObjectResult(
           Some(Response(ApiResponses.ApiResponse(false, "Not Found", None, Some(Problem(Some("Not Found"), Some(404), None)), None))),
           Some(404)))
  {
    assert ClientErrors.Title(404) == Some("Not Found");
  }

  /** A bodyless status below 400 other than 204, such as `Ok()`, is left
      alone by both filters and reaches the client as it is. */
  lemma BodylessSuccessPassesThrough(isDevelopment: bool, skip: bool, code: int)
    requires code < 400 && code != 204
    ensures Serve(isDevelopment, skip, Completed(StatusCodeResult(code))) == ExceptionMiddleware.Downstream(StatusCodeResult(code))
  {
  }


  /** The claims the Services token service writes carry permissions under
      `permission`, while the handler looks for `perm`: a user holding such a
      token is forbidden every permission-gated endpoint, whatever the
      permissions listed in it. */
  lemma IssuedTokensNeverPassPermissionGate(userId: Numbers.int64, email: string, roleId: Numbers.int32,
                                            roleName: string, permissions: seq<string>, jti: string, now: int,
                                            permission: string)
    ensures var claims := JwtTokenService.BuildCommonClaims(userId, email, roleId, roleName, permissions, jti, now);
      Authorize(Configured, PermissionEndpoint(permission), false, Some(claims)) == Forbid
  {
    PermissionEndpointGate(Some(JwtTokenService.BuildCommonClaims(userId, email, roleId, roleName, permissions, jti, now)), permission);
    var claims := JwtTokenService.BuildCommonClaims(userId, email, roleId, roleName, permissions, jti, now);
    forall i | 0 <= i < |claims| ensures !TypeIs(claims[i], PermissionHandler.PermClaimType) {
      TypeIsByLength(claims[i], PermissionHandler.PermClaimType);
      if i < 7 {
        assert claims[i] == claims[..7][i];
      } else {
        assert claims[i] == Claim(JwtTokenService.PermissionType, permissions[i - 7]);
      }
    }
  }

  /** The Common token service's claims open exactly the gates of their permissions. */
  lemma CommonTokensPassTheirGates(userId: Numbers.int64, email: string, permissions: seq<string>, permission: string)
    ensures var claims := CommonJwtTokenService.TokenClaims(userId, email, permissions);
      Authorize(Configured, PermissionEndpoint(permission), false, Some(claims)) == Allow <==> permission in permissions
  {
    PermissionEndpointGate(Some(CommonJwtTokenService.TokenClaims(userId, email, permissions)), permission);
    CommonJwtTokenService.TokenGrantsItsPermissions(userId, email, permissions, permission);
  }

  /** An outcome the filter has nothing to add to: a thrown exception or a
      result that already carries an `ApiResponse`. */
  predicate Enveloped(o: Outcome) {
    o.Threw? || ApiResponseFilter.IsEnveloped(o.result)
  }

  /** Such an outcome reaches the client exactly as the action produced it. */
  lemma EnvelopedPassesThrough(isDevelopment: bool, skip: bool, o: Outcome)
    requires Enveloped(o)
    ensures o.Completed? ==> Serve(isDevelopment, skip, o) == ExceptionMiddleware.Downstream(o.result)
    ensures o.Threw? ==> Serve(isDevelopment, skip, o) == ExceptionMiddleware.Invoke(isDevelopment, o)
  {
  }

  lemma IssuedEnveloped(env: AuthController.Env, userId: Numbers.int64, email: string, roleId: Numbers.int32,
                        permissions: seq<string>, message: string)
    ensures Enveloped(AuthController.Issued(env, userId, email, roleId, permissions, message))
  {
  }

  /** Every answer `Login` gives is already an envelope. */
  lemma LoginEnveloped(env: AuthController.Env, model: Option<AuthController.LoginModel>)
    ensures Enveloped(AuthController.Login(env, model))
  {
    if AuthController.CredentialsAccepted(env, model) {
      var u := env.store.userByEmail(model.value.email.value).value;
      IssuedEnveloped(env, u.userId, u.email, u.roleId, env.store.permissionsOf(u.userId), AuthController.LoginSucceeded);
    }
  }

  /** Every answer `Refresh` gives is already an envelope. */
  lemma RefreshEnveloped(env: AuthController.Env, req: Option<AuthController.RefreshRequest>)
    ensures Enveloped(AuthController.Refresh(env, req))
  {
    if req.Some? && !Text.IsNullOrWhiteSpace(req.value.refreshToken) {
      match JwtTokenService.ValidateRefreshToken(env.cfg, env.codec, req.value.refreshToken.value, env.now)
      case Failure(f) =>
      case Success(None) =>
      case Success(Some(principal)) =>
        match AuthController.ResolveIdentity(env.store, principal)
        case Failure(message) =>
        case Success(id) =>
          IssuedEnveloped(env, id.userId, id.email, id.roleId, env.store.permissionsOf(id.userId), AuthController.RefreshSucceeded);
    }
  }

  /** `Me` answers with an envelope too. */
  lemma MeEnveloped(user: Principal)
    ensures Enveloped(Completed(AuthController.Me(user)))
  {
  }

  /** A wrong password reaches the client as 401 with the generic failure
      envelope. */
  lemma WrongPasswordScenario(isDevelopment: bool, skip: bool, env: AuthController.Env, email: string, password: string)
    requires !Text.IsNullOrWhiteSpace(Some(email)) && !Text.IsNullOrWhiteSpace(Some(password))
    requires env.store.userByEmail(email).Some?
    requires !env.verifyPassword(password, env.store.userByEmail(email).value.passwordHash)
    ensures Serve(isDevelopment, skip, AuthController.Login(env, Some(AuthController.LoginModel(Some(email), Some(password)))))
      == ExceptionMiddleware.Downstream(ObjectResult(
           Some(Response(ApiResponses.ApiResponse(false, "Email hoặc mật khẩu không đúng.", None, None, None))), Some(401)))
  {
  }

  /** An unhandled failure outside development: 500, a failure envelope with
      the table's message for 500 and no errors. */
  lemma ProductionFailureScenario(skip: bool, e: Exception)
    ensures var response := Serve(false, skip, Threw(e));
      && response.Written?
      && response.statusCode == 500
      && response.body == ApiResponses.ApiResponse(false, ApiResponseFilter.StatusMessage(500), None, None, None)
  {
  }
}
