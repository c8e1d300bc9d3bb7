# PropertyPortal authentication and response core, in Dafny

This project models the authentication, authorization and response-shaping core of the
PropertyPortal web API (ASP.NET Core, C#), and proves properties of that model:

- **Envelopes.** `ApiResponse<T>` (Common) and the look-alike `ApiResult<T>` record (Models),
  with their `Ok`/`Fail` factories.
- **Roles.** `RoleHelper.ToName`, the fixed map from role id to role name.
- **Permission authorization.**
  - `[HasPermission(p)]` names the policy `PERM:` + `p`.
  - `PermissionPolicyProvider` turns a `PERM:` name (marker compared ignoring case) into a
    policy with one `PermissionRequirement`. Every other query goes to the framework's
    default provider.
  - `PermissionHandler` grants the requirement when the user holds a claim of type `perm`
    whose value is exactly the code.
- **Token services.** There are two `JwtTokenService` classes.
  - The Services one builds seven fixed claims followed by one `permission` claim per code.
    It issues access tokens (`Jwt:Key`, hours) and refresh tokens (`Jwt:RefreshSecret`,
    days), each with a not-before.
  - It validates refresh tokens against the refresh secret, issuer, audience and lifetime,
    with a 30-second clock skew.
  - The Common one issues a single token with `sub`, `email` and one `perm` claim per code.
- **`ApiResponseFilter`.** It wraps action results in an `ApiResponse`:
  - a no-content result becomes 200 with an empty success envelope;
  - an object result becomes success when its status is 2xx, and failure otherwise;
  - the failure's message and errors come from `BuildError`'s status table and its
    problem-details cases;
  - skipped endpoints, file and empty results, and values that already are an
    `ApiResponse` pass through.
- **`ExceptionMiddleware`.** Any exception becomes a JSON 500 `Fail` envelope. Its errors
  hold the exception's message, source and stack trace only in development.
- **`AuthController`.** `Login`, `Refresh` and `Me` run over abstract collaborators: the
  user store, the password check, the clock and the identifier source.
- **`ClientErrors`.** The framework's client-error mapping for `[ApiController]`
  controllers. It turns a bodyless status result of 400 or more into a problem document
  before the response filter sees it.
- **`Pipeline`.** The wiring in `Program.cs`: middleware outermost, then the authorization
  gate, then the client-error mapping and the filter. The gate combines the policies of an endpoint's `[Authorize]`
  attributes through `PermissionPolicyProvider`: `[Authorize]` alone stands for the default
  policy (an authenticated user, since the startup code does not change it), as does an
  attribute with a blank policy name; `[HasPermission(p)]`
  for the `PERM:` policy, and an endpoint without attributes for the fallback policy (none).

The token's signing and compact serialisation are abstract. A `Codec` pair of functions
writes a token to text and reads text back. Round-trip results assume the codec is
faithful: it reads back what it wrote, and the text is a non-empty string over the JWS
compact alphabet.

Properties worth noting:

- **The two token services disagree on the permission claim type.** The Services token
  service is the one `AuthController` uses. It writes permissions as `permission` claims,
  and `PermissionHandler` looks for `perm` claims. `Pipeline.IssuedTokensNeverPassPermissionGate`
  proves that a principal built by `BuildCommonClaims` is forbidden at every
  `[HasPermission(p)]` endpoint, whatever permissions it lists. Tokens from the Common
  service open exactly the gates of their own permissions (`Pipeline.CommonTokensPassTheirGates`).
  The model keeps the code as written.
- **`Program.cs` registers `ApiResponseFilter` twice** (lines 15 and 59), so each result
  passes through it twice. `ApiResponseFilter.Idempotent` shows this is harmless, and
  `Pipeline.Filtered` states the net effect.
- **`Program.cs` and `AuthController.cs` import both the `PropertyPortal.Common` and the
  `PropertyPortal.Services` namespaces.** Both define
  `IJwtTokenService` and `JwtTokenService`. The controller calls `CreateAccessToken`,
  `CreateRefreshToken` and `ValidateRefreshToken`, which exist only on the Services
  interface, so the model binds the controller to the Services service.

Where the code and its written description differ, the model follows the code:

- An object result that explicitly carries status 204 keeps 204. Only the no-content result
  kinds (`NoContentResult`, `StatusCodeResult(204)`) become 200
  (`ApiResponseFilter.ExplicitNoContentStatusKept`).
- A bodyless status result below 400 other than 204, such as `Ok()`, passes through
  unwrapped (`Pipeline.BodylessSuccessPassesThrough`). One of 400 or more, such as
  `NotFound()`, is first turned into a problem document by the client-error mapping that
  `[ApiController]` brings. The filter then wraps that document as a failure titled by the
  mapping (`Pipeline.NotFoundScenario`).
- An `ApiResult<T>` value is not an `ApiResponse<>`, so the filter wraps it again as data
  (`ApiResponseFilter.ApiResultWrappedAgain`).
- A failure envelope built by the filter has `Data = default(T)` for the payload's runtime
  type. For a boxed `int` or `bool` that is `0` or `false`, not null (`Values.DefaultOf`).

Framework behaviour the model relies on:

- **Claim lookups.** `ClaimsIdentity.HasClaim`, `FindFirst` and `FindAll` compare the claim
  type ignoring (ASCII) case and the value ordinally.
- **Token construction.** `JwtSecurityToken` refuses a not-before that is not before the
  expiry.
- **Token payload.** `JwtPayload` leaves out an `iss` or `aud` that is null or empty.
- **Token validation.** A token is accepted only when all of these hold:
  - its issuer is not blank and equals the configured issuer;
  - the configured audience is not blank and equals the token's audience;
  - its not-before is not after its expiry;
  - its not-before is at most now plus the skew, and its expiry at least now minus the skew.

  So a blank configured issuer or audience rejects every token.
- **Problem details.** `ValidationProblemDetails` is matched before `ProblemDetails`.

Modules: `Wrappers` (Option/Result), `Text` (white space, ordinal case folding), `Numbers`
(`int`/`long`, `ToString`, `TryParse`), `Values` (the runtime objects that travel as
`object`), `Claims`, `ActionResults`, `ClientErrors`, and then one module per source file.

## Model

| member | source | states |
|---|---|---|
| RoleHelper.ToName | Common/RoleHelper.cs:5-11 | ids 1, 2, 3 map to admin, agent, private_seller, each in both directions; every other id maps to unknown |
| RoleHelper.KnownRolesDistinct | Common/RoleHelper.cs:5-11 | the three known roles get pairwise distinct names, none of them unknown |
| ApiResponses.Ok | Common/ApiResponse.cs:11-12 | a well-formed success envelope carrying the given data, message and meta |
| ApiResponses.Fail | Common/ApiResponse.cs:14-15 | a well-formed failure envelope carrying the given message, errors and meta, and no data |
| ApiResponses.WellFormedIsFactoryBuilt | Common/ApiResponse.cs:11-15 | the envelopes the two factories build are exactly the well-formed ones |
| ApiResponses.Defaults | Common/ApiResponse.cs:11-15 | the default arguments are the message "Thành công", no meta and no errors |
| ApiResults.Ok | Models/ApiResult.cs:11-12 | a well-formed success record with the given data, message and meta |
| ApiResults.Fail | Models/ApiResult.cs:14-15 | a well-formed failure record with default data and the given message, errors and meta |
| ApiResults.OkIsNeverFail | Models/ApiResult.cs:3-15 | positional record equality never identifies an Ok with a Fail |
| ApiResults.WellFormedIsFactoryBuilt | Models/ApiResult.cs:11-15 | the records the factories build are exactly the well-formed ones |
| ApiResults.Defaults | Models/ApiResult.cs:11-15 | the default message is "Thành công"; meta and errors default to null |
| HasPermissionAttribute.PolicyName | Common/HasPermissionAttribute.cs:7-11 | the policy name is the marker PERM: followed by the permission, unchanged |
| HasPermissionAttribute.PolicyNameInjective | Common/HasPermissionAttribute.cs:7-11 | distinct permissions give distinct policy names |
| PermissionPolicyProvider.Resolve | Common/PermissionPolicyProvider.cs:18-20 | a name is a permission name exactly when it starts with PERM: ignoring case; the code is the rest of the name, verbatim |
| PermissionPolicyProvider.GetPolicy | Common/PermissionPolicyProvider.cs:16-27 | a PERM: name yields the policy with one requirement for its code; any other name yields whatever the default provider returns |
| PermissionPolicyProvider.AttributeRoundTrip | Common/PermissionPolicyProvider.cs:16-25 | the name [HasPermission(p)] sets resolves back to exactly p and to the policy requiring p |
| PermissionPolicyProvider.ResolveInvertsAttribute | Common/PermissionPolicyProvider.cs:18-20 | a name resolved to p equals the attribute's name for p up to the case of the marker |
| PermissionPolicyProvider.MarkerCaseAndVerbatimCode | Common/PermissionPolicyProvider.cs:18-20 | perm:, Perm: and PERM: all select the permission path; the code keeps its spaces and case; PERM: alone gives the empty code; PERMx is delegated |
| PermissionHandler.HandleRequirement | Common/PermissionHandler.cs:7-12 | succeeds exactly when the requirement is a permission requirement and some claim of type perm (any case) has exactly its code as value; otherwise it stays pending |
| PermissionHandler.Monotone | Common/PermissionHandler.cs:9-10 | adding claims never withdraws a grant |
| PermissionHandler.NoPermClaimGrantsNothing | Common/PermissionHandler.cs:9-10 | a principal with no perm claim is granted nothing |
| PermissionHandler.ExactValueNoRoleShortcut | Common/PermissionHandler.cs:9-10 | values compare case-sensitively; role claims and permission claims do not count; the type perm matches in any case |
| JwtTokenService.PermissionClaims | Services/JwtTokenService.cs:113 | one claim of type permission per code, in order |
| JwtTokenService.BuildCommonClaims | Services/JwtTokenService.cs:99-115 | seven fixed claims (sub, email, jti, iat, role, role_id, role_name) in that order, then the permission claims in the order of the codes |
| JwtTokenService.Issue | Services/JwtTokenService.cs:26-43 | the secret, issuer and audience are checked in that order, each failing with its Missing message; then an expiry outside DateTime's range fails as out of range, and then a non-positive lifetime fails as expiry-not-after-not-before; it succeeds exactly when all three are present and the expiry is representable and later than now, with a token signed by the secret, valid from now for the lifetime, whose issuer and audience are recorded unless empty |
| JwtTokenService.CreateAccessToken | Services/JwtTokenService.cs:22-45 | succeeds exactly when Jwt:Key, Jwt:Issuer and Jwt:Audience are present, ExpiresHours (default 1) is positive and now plus that many hours is a DateTime, a missing key failing first; the token is signed with the key, carries the common claims with the role's name, is valid from now and lasts ExpiresHours hours |
| JwtTokenService.CreateRefreshToken | Services/JwtTokenService.cs:47-70 | succeeds exactly when Jwt:RefreshSecret, Jwt:Issuer and Jwt:Audience are present, RefreshExpiresDays (default 7) is positive and now plus that many days is a DateTime, a missing secret failing first; the token is signed with the refresh secret, carries the common claims, is valid from now and lasts RefreshExpiresDays days |
| JwtTokenService.ValidateRefreshToken | Services/JwtTokenService.cs:72-97 | it throws exactly when the refresh secret is missing; a principal comes back exactly when the text parses to a token signed with the refresh secret, with a non-blank issuer equal to the configured one, a non-blank configured audience equal to its own, a not-before not after the expiry, and a lifetime that contains now within 30 s of skew; the principal is that token's claims |
| JwtTokenService.RefreshRoundTrip | Services/JwtTokenService.cs:47-97 | with a non-blank issuer and audience configured, a refresh token presented within its lifetime widened by the skew validates back to exactly the claims it was built from |
| JwtTokenService.SecretSeparation | Services/JwtTokenService.cs:72-97 | an access token is rejected as a refresh token whenever the two secrets differ |
| JwtTokenService.ExpiryBoundary | Services/JwtTokenService.cs:86-89 | a token is accepted 30 s after its expiry and rejected 31 s after it |
| JwtTokenService.BlankSettingsRejectEverything | Services/JwtTokenService.cs:80-90 | with a blank configured issuer or audience, no text validates, whatever token it holds |
| JwtTokenService.InvertedLifetimeRejected | Services/JwtTokenService.cs:80-90 | a token whose not-before lies after its expiry never validates, whatever the clock |
| JwtTokens.WriteInjective | Services/JwtTokenService.cs:44 | distinct tokens are written as distinct text |
| CommonJwtTokenService.PermClaims | Common/JwtTokenService.cs:28 | one claim of type perm per code, in order |
| CommonJwtTokenService.TokenClaims | Common/JwtTokenService.cs:23-28 | sub and email, then one perm claim per code |
| CommonJwtTokenService.CreateToken | Common/JwtTokenService.cs:18-38 | it succeeds exactly when the key and ExpiresHours are present and now plus that many hours is a DateTime, failing on a missing key first and as out of range when the expiry is not representable; issuer and audience are recorded unless absent or empty, without being required; no not-before, so a negative lifetime is accepted; expiry now plus ExpiresHours hours |
| CommonJwtTokenService.NoRoleOrRegisteredIds | Common/JwtTokenService.cs:23-28 | the token carries no jti, iat, role, role_id or role_name claim |
| CommonJwtTokenService.TokenGrantsItsPermissions | Common/JwtTokenService.cs:23-28 | the handler grants a code to these claims exactly when the code was among the issued permissions |
| ApiResponseFilter.StatusMessage | Common/ApiResponseFilter.cs:94-104 | each of 400, 401, 403, 404, 409, 422 and 500 gets its own named message (Bad Request, Unauthorized, Forbidden, Not Found, Conflict, Unprocessable Entity, Internal Server Error), each message exactly for its status; every other status gets "Error" |
| ApiResponseFilter.StatusMessageInjective | Common/ApiResponseFilter.cs:94-104 | the named statuses have pairwise distinct messages |
| ApiResponseFilter.BuildError | Common/ApiResponseFilter.cs:92-110 | validation problems give the table message and their field errors; other problems give their title (or the table message) and the problem itself; anything else gives the table message and the value |
| ApiResponseFilter.Classify | Common/ApiResponseFilter.cs:13-89 | an object result is rewritten exactly when it is not skipped and not already an ApiResponse; it is a success exactly when its status (default 200) is 2xx; a rewritten result keeps that status and carries the original value as payload |
| ApiResponseFilter.FailFor | Common/ApiResponseFilter.cs:69-74 | the failure envelope has the message and errors of BuildError, no meta, and default(T) data for the payload's runtime type |
| ApiResponseFilter.OnResultExecution | Common/ApiResponseFilter.cs:13-89 | a result comes out unchanged exactly when it is skipped, a file, empty, unrecognised, already enveloped or a status result other than 204; every other result comes out enveloped |
| ApiResponseFilter.Idempotent | Common/ApiResponseFilter.cs:42-51 | filtering the filter's output changes nothing |
| ApiResponseFilter.NoContentBecomesOk | Common/ApiResponseFilter.cs:30-35 | NoContent and StatusCode(204) both become 200 with a success envelope that has no data |
| ApiResponseFilter.ObjectResultWrapped | Common/ApiResponseFilter.cs:37-80 | the status is kept (200 when unset); success exactly for 2xx, carrying the value as data; on failure, the data is default(T), errors are null exactly when the value is, and the message and errors come from BuildError |
| ApiResponseFilter.ApiResultWrappedAgain | Common/ApiResponseFilter.cs:43-65 | an ApiResult value is wrapped once more, as the data of a success envelope |
| ApiResponseFilter.ExplicitNoContentStatusKept | Common/ApiResponseFilter.cs:37-65 | an object result with explicit status 204 keeps 204 |
| Values.DefaultOf | Common/ApiResponseFilter.cs:70-74 | default(T) is present exactly for a boxed int or bool payload, and is then 0 or false respectively; it is null otherwise |
| ExceptionMiddleware.Invoke | Common/ExceptionMiddleware.cs:18-44 | a completed request passes through; an exception becomes 500 as application/json with a failure envelope titled "Internal Server Error" and no meta; its errors are null exactly outside development, and in development they are the exception's message, source and stack trace |
| ExceptionMiddleware.ProductionHidesException | Common/ExceptionMiddleware.cs:29-40 | outside development every exception yields the same response |
| AuthController.IssuePair | Controllers/AuthController.cs:50-51 | a pair exists exactly when both tokens can be created, and holds the access and refresh tokens of the same user, role and permissions |
| AuthController.Login | Controllers/AuthController.cs:32-55 | a missing body or a blank field gives 400; an unknown email or a wrong password gives 401; accepted credentials issue a pair for the stored user's id, email, role and permissions |
| AuthController.LoginOutcomes | Controllers/AuthController.cs:32-55 | 200 exactly when the credentials are accepted and both tokens are created; an exception only after acceptance; any other answer is 400 or 401 with the matching failure envelope |
| AuthController.LoginTokensDistinct | Controllers/AuthController.cs:47-54 | a successful login answers 200 with the pair, and its access and refresh texts differ whenever the key and the refresh secret differ or the two identifiers do |
| AuthController.LoginBlankFieldsBeforeLookup | Controllers/AuthController.cs:34-35 | blank input is rejected whatever the store holds |
| AuthController.LoginHidesAccountExistence | Controllers/AuthController.cs:37-44 | an unknown email and a wrong password give the same 401 answer |
| AuthController.ResolveIdentity | Controllers/AuthController.cs:72-97 | the subject comes from sub, else the name identifier; Missing subject claim exactly when it does not parse; a stored user supplies the role and, unless blank, the email; Missing role_id claim exactly when the subject parses, the user is not stored and role_id does not parse; a missing email becomes empty |
| AuthController.Refresh | Controllers/AuthController.cs:63-108 | 400 exactly when no non-blank token is sent; 401 exactly when a token is sent, the secret is set and the token is not accepted or its identity does not resolve, with the matching message; an exception exactly when the secret is missing or issuing fails; every non-200 answer is a failure envelope without data; 200 carries the pair for the resolved subject with its permissions as the store has them now |
| AuthController.ReadBackCommonClaims | Controllers/AuthController.cs:73-94 | reading the issued claims gives back the subject, email, role id and role name they were built from, and the permission codes in order |
| AuthController.ResolveIssuedIdentity | Controllers/AuthController.cs:72-97 | for claims the service issued, the identity is the stored role and non-blank stored email when the user is stored, and the token's own role and email otherwise |
| AuthController.RefreshIssues | Controllers/AuthController.cs:99-107 | a valid token with a resolvable identity issues the pair for that identity |
| AuthController.RefreshAfterLogin | Controllers/AuthController.cs:47-107 | a login's refresh token, presented within its lifetime, issues a new pair for the same user with permissions reloaded from the store |
| AuthController.RoleNameOf | Controllers/AuthController.cs:119 | role_name, else the role claim, else unknown |
| AuthController.PermissionsOf | Controllers/AuthController.cs:120 | no code twice, and a code appears exactly when some permission claim carries it |
| AuthController.Me | Controllers/AuthController.cs:114-124 | always 200 with a success envelope titled "Thông tin người dùng" that carries the user's data |
| AuthController.MeOfIssuedClaims | Controllers/AuthController.cs:114-124 | for issued claims, Me reports the subject, email and role id as text, the role's name and the distinct permission codes |
| Claims.HasClaim | Common/PermissionHandler.cs:9 | true exactly when some claim matches the type (ignoring case) and the value (exactly) |
| Claims.FindFirstValue | Controllers/AuthController.cs:73-78 | the value of the first claim of the type, or null when there is none |
| Claims.FindAllValues | Controllers/AuthController.cs:120 | no more values than claims, and a value is present exactly when some claim of the type carries it |
| Claims.FindAllValuesSingle | Controllers/AuthController.cs:120 | one claim contributes its value exactly when it has the type |
| Claims.FindAllValuesAppend | Controllers/AuthController.cs:120 | the values of concatenated principals are the values of each, in order, so together with the single-claim law every match is kept, in claim order, with duplicates |
| Claims.Distinct | Controllers/AuthController.cs:120 | no duplicates, and exactly the same elements |
| Claims.DistinctOrder | Controllers/AuthController.cs:120 | elements are kept in order of first occurrence |
| Claims.DistinctIdempotent | Controllers/AuthController.cs:120 | applying Distinct twice is the same as once |
| Numbers.TryParseInt64 | Controllers/AuthController.cs:75 | succeeds exactly on integer text within the long range, with that value |
| Numbers.TryParseInt32 | Controllers/AuthController.cs:95 | succeeds exactly on integer text within the int range, with that value |
| Numbers.Int64RoundTrip | Services/JwtTokenService.cs:103 | parsing a long's decimal text gives back that long |
| Numbers.Int32RoundTrip | Services/JwtTokenService.cs:109 | parsing an int's decimal text gives back that int |
| Numbers.DecimalRoundTrip | Services/JwtTokenService.cs:103-109 | parsing the decimal text of any integer gives back that integer |
| Pipeline.Combined | Common/PermissionPolicyProvider.cs:16-30 | the endpoint's policy holds exactly the requirements of its attributes' policies, the default policy standing in for an attribute whose policy name is absent or blank; it fails exactly when some attribute names a policy no provider knows, with that name |
| Pipeline.Authorize | Program.cs:45-76 | an unknown policy fails the request even on an [AllowAnonymous] endpoint; otherwise the endpoint passes exactly when it has nothing to check, is [AllowAnonymous], or all requirements are met; a challenge only ever meets an anonymous user and a forbid an authenticated one |
| Pipeline.PermissionEndpointGate | Controllers/ListingsController.cs:13-14 | [Authorize][HasPermission(p)] challenges exactly an anonymous request, allows exactly a user with a perm claim for p, and forbids every other user |
| Pipeline.AuthorizeOnlyGate | Controllers/AuthController.cs:111 | [Authorize] alone allows exactly an authenticated user, challenges exactly an anonymous one, and never forbids |
| Pipeline.BlankPolicyNameIsDefault | Common/PermissionPolicyProvider.cs:29 | an attribute with a blank policy name gates exactly as a bare [Authorize] |
| Pipeline.AllowAnonymousGate | Controllers/AuthController.cs:28 | an [AllowAnonymous] endpoint lets every request through |
| Pipeline.Filtered | Program.cs:13-59 | an exception passes through the filter; a result goes through it twice, which equals going through once |
| Pipeline.Serve | Program.cs:59-64 | a completed action reaches the client through the client-error mapping and the filter; a bodyless status of 400 or more always arrives as an object result with that status and, unless the filter is skipped, as a failure envelope titled by the mapping (else the status table) carrying the problem document; an exception becomes a 500 failure response whose errors are present exactly in development |
| Pipeline.NotFoundScenario | Common/ApiResponseFilter.cs:37-80 | NotFound() from an action reaches the client as a 404 failure envelope titled Not Found that carries the problem document |
| Pipeline.BodylessSuccessPassesThrough | Common/ApiResponseFilter.cs:13-89 | a bodyless status below 400 other than 204, such as Ok(), reaches the client unchanged |
| ClientErrors.MapClientError | Controllers/AuthController.cs:13 | a result is replaced exactly when it is a bodyless status of 400 or more, by an object result with the same status holding a problem document with that status and the mapping's title; the output is never such a status result |
| ClientErrors.MapIdempotent | Controllers/AuthController.cs:13 | applying the mapping twice is the same as once |
| Pipeline.IssuedTokensNeverPassPermissionGate | Services/JwtTokenService.cs:113 | a principal built by BuildCommonClaims is forbidden by every [HasPermission(p)] gate, whatever its permissions |
| Pipeline.CommonTokensPassTheirGates | Common/JwtTokenService.cs:28 | a Common-issued principal passes a [HasPermission(p)] gate exactly when p was issued to it |
| Pipeline.EnvelopedPassesThrough | Common/ApiResponseFilter.cs:42-51 | a result that is already an envelope reaches the client unchanged |
| Pipeline.LoginEnveloped | Controllers/AuthController.cs:32-55 | every Login answer is already an ApiResponse |
| Pipeline.RefreshEnveloped | Controllers/AuthController.cs:63-108 | every Refresh answer is already an ApiResponse |
| Pipeline.MeEnveloped | Controllers/AuthController.cs:114-124 | the Me answer is already an ApiResponse |
| Pipeline.WrongPasswordScenario | Controllers/AuthController.cs:43-44 | a wrong password reaches the client as 401 with the generic failure envelope |
| Pipeline.ProductionFailureScenario | Common/ExceptionMiddleware.cs:24-42 | outside development an exception reaches the client as 500 with the table's message for 500 and no errors |

## Left out

- Signing and serialisation: HMAC-SHA256 signing, base64url encoding and the JWS compact
  format are the abstract `Codec`. A token carries the name of its signing key, and the
  properties that need round trips assume a faithful codec.
- Key-length checks by the token library on short keys, and the UTF-8 encoding of the
  secrets, are not modelled.
- The JWT handler's inbound claim-type mapping is not modelled. On reading, that mapping
  renames `sub` to the name-identifier type and `email` to the email-address type. The
  principal is taken to hold the claims as issued. `Refresh`'s fallback from `sub` to the
  name identifier is modelled, and `Me` reads the claims as issued.
- Lifetimes are whole hours and whole days, read as numbers. `double.Parse` of fractional or
  malformed text, its culture, and the `int.Parse` failure in the Common service are not
  modelled.
- Clock reads: each call takes one `now`, in whole seconds. In the source, not-before and
  expiry come from two separate clock reads, so a zero lifetime may or may not be refused
  depending on the clock tick. The model refuses it.
- Ordinal case-insensitive comparison folds only ASCII letters here. .NET also folds other
  letters.
- The NUL-trimming of `TryParse` and culture-specific signs are not modelled.
- Bearer-token authentication of incoming requests is not modelled: `Jwt:Key`, zero clock
  skew, issuer and audience validation. The authenticated user is an input to the gate.
- The 401 and 403 bodies that the authorization middleware writes are not modelled.
- Authorization handlers other than `PermissionHandler` and the framework's handler for the
  default policy are not modelled: a requirement of another kind is never met. The startup
  code registers no named policies, so none arises.
- `AuthController.LoginOutcomes`: the store lookups and `PasswordHasher.Verify` are total
  functions here. A fault inside them, which the middleware would turn into 500, is not
  modelled, so the lemma's "an exception only after acceptance" covers only token-service
  faults.
- Audience validation in the token library also accepts a configured audience that differs
  from the token's by a trailing slash. The model compares the two exactly.
- The problem documents of the client-error mapping carry a type link and a `traceId`
  extension, and are written as `application/problem+json`. The model's problem document
  has only the title and the status.
- `JwtTokenService.Issue`: `AddHours` and `AddDays` with a magnitude beyond the whole
  `DateTime` calendar throw with the text "Value to add was out of range." instead. The
  model gives every out-of-range expiry the un-representable-`DateTime` message.
- The `IDX12401` message from `JwtSecurityToken` includes the two times. The model's message
  leaves them out.
- Async I/O, JSON serialisation, content negotiation, Swagger, CORS, HTTPS redirection and the
  database are not modelled. `IPermissionService` and `PasswordHasher.Verify` are
  uninterpreted functions of the environment.
- The `[ApiController]` automatic 400 for invalid model state is not modelled. A body that
  does not bind reaches the action as null.
- `ExceptionMiddleware.Invoke` is not modelled for a response that has already started when
  the exception arrives.
- Exceptions raised by the token services in the model carry no source and no stack trace.
- `Claims.HasClaim` models one identity. A principal with several identities is not modelled.
- The ambiguous reference to the two `IJwtTokenService` types is resolved as the controller's calls require. The Common `IJwtTokenService` is modelled
  as `CommonJwtTokenService` and is not wired to any endpoint.
- `Data/PermissionService.cs` and `Repositories/AuthRepository.cs` are not part of this
  model. Their queries appear only as the store functions.
