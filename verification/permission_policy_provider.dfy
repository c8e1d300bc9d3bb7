/** `PermissionPolicyProvider`: builds the policy for a `PERM:` name on the
    fly and hands every other query to the framework's default provider. */
module PermissionPolicyProvider {
  import opened Wrappers
  import opened Text
  import HasPermissionAttribute

  /** The provider's own copy of the marker; it must equal the attribute's. */
  const Prefix := "PERM:"

  datatype Requirement =
    | PermissionRequirement(permission: string)
      /** `DenyAnonymousAuthorizationRequirement`: the framework's default
          policy, an authenticated user. */
    | DenyAnonymousRequirement
      /** Requirements of policies the default provider knows. */
    | OtherRequirement(name: string)

  datatype AuthorizationPolicy = AuthorizationPolicy(requirements: seq<Requirement>)

  /** `DefaultAuthorizationPolicyProvider`, which the model cannot see: the
      policies registered by name, the default and the fallback policy. */
  datatype FallbackProvider = FallbackProvider(
    getPolicy: string -> Option<AuthorizationPolicy>,
    defaultPolicy: AuthorizationPolicy,
    fallbackPolicy: Option<AuthorizationPolicy>)

  /** The policy built for a permission: that one requirement, nothing else. */
  function PermissionPolicy(permission: string): AuthorizationPolicy {
    AuthorizationPolicy([PermissionRequirement(permission)])
  }

  /** How a policy name is read: a permission code, or a name to delegate. */
  datatype Resolution = Permission(permission: string) | Delegate(policyName: string)

  function Resolve(policyName: string): (r: Resolution)
    ensures r.Permission? <==> StartsWithIgnoreCase(policyName, Prefix)
    ensures r.Permission? ==> policyName == policyName[..|Prefix|] + r.permission
    ensures r.Delegate? ==> r.policyName == policyName
  {
    if StartsWithIgnoreCase(policyName, Prefix) then Permission(policyName[|Prefix|..])
    else Delegate(policyName)
  }

  /** `GetPolicyAsync`. */
  function GetPolicy(fallback: FallbackProvider, policyName: string): (r: Option<AuthorizationPolicy>)
    ensures StartsWithIgnoreCase(policyName, Prefix) ==>
      r == Some(PermissionPolicy(policyName[|Prefix|..]))
    ensures !StartsWithIgnoreCase(policyName, Prefix) ==> r == fallback.getPolicy(policyName)
  {
    match Resolve(policyName)
    case Permission(permission) => Some(PermissionPolicy(permission))
    case Delegate(name) => fallback.getPolicy(name)
  }

  /** `GetDefaultPolicyAsync` delegates. */
  function GetDefaultPolicy(fallback: FallbackProvider): (r: AuthorizationPolicy)
    ensures r == fallback.defaultPolicy
  {
    fallback.defaultPolicy
  }

  /** `GetFallbackPolicyAsync` delegates. */
  function GetFallbackPolicy(fallback: FallbackProvider): (r: Option<AuthorizationPolicy>)
    ensures r == fallback.fallbackPolicy
  {
    fallback.fallbackPolicy
  }

  /** Resolving the policy name `[HasPermission(p)]` sets yields exactly `p`. */
  lemma AttributeRoundTrip(fallback: FallbackProvider, permission: string)
    ensures Resolve(HasPermissionAttribute.PolicyName(permission)) == Permission(permission)
    ensures GetPolicy(fallback, HasPermissionAttribute.PolicyName(permission)) == Some(PermissionPolicy(permission))
  {
    var name := HasPermissionAttribute.PolicyName(permission);
    assert name[..|Prefix|] == Prefix;
  }

  /** Conversely, a name resolved to permission `p` differs from the policy
      name of `[HasPermission(p)]` at most in the case of its marker. */
  lemma ResolveInvertsAttribute(policyName: string)
    requires Resolve(policyName).Permission?
    ensures var p := Resolve(policyName).permission;
      && EqualsIgnoreCase(policyName, HasPermissionAttribute.PolicyName(p))
      && policyName[|Prefix|..] == HasPermissionAttribute.PolicyName(p)[|Prefix|..]
  {
    var p := Resolve(policyName).permission;
    var canonical := HasPermissionAttribute.PolicyName(p);
    assert canonical[..|Prefix|] == Prefix;
    forall i | 0 <= i < |policyName| ensures UpperAscii(policyName[i]) == UpperAscii(canonical[i]) {
      if i < |Prefix| {
        assert policyName[i] == policyName[..|Prefix|][i];
        assert canonical[i] == Prefix[i];
      } else {
        assert canonical[i] == canonical[|Prefix|..][i - |Prefix|];
      }
    }
  }

  /** The marker test ignores case and the code is taken verbatim: no
      trimming, no case change, and a bare marker gives the empty code. */
  lemma MarkerCaseAndVerbatimCode()
    ensures Resolve("perm:x") == Permission("x")
    ensures Resolve("Perm:x") == Permission("x")
    ensures Resolve("PERM: Listing.Create ") == Permission(" Listing.Create ")
    ensures Resolve("PERM:") == Permission("")
    ensures Resolve("PERMx") == Delegate("PERMx")
    ensures Resolve("listing.create") == Delegate("listing.create")
  {
    assert StartsWithIgnoreCase("perm:x", Prefix);
    assert StartsWithIgnoreCase("Perm:x", Prefix);
    assert StartsWithIgnoreCase("PERM: Listing.Create ", Prefix);
    assert "PERMx"[..|Prefix|] == "PERMx";
    assert UpperAscii("PERMx"[4]) != UpperAscii(Prefix[4]);
    assert UpperAscii("listing.create"[1]) != Prefix[1];
  }
}
