/** `PermissionHandler`: a permission requirement is met when the user holds
    a `perm` claim whose value is exactly the required code. */
module PermissionHandler {
  import opened Claims
  import opened PermissionPolicyProvider

  const PermClaimType := "perm"

  /** The handler either marks the requirement succeeded or leaves it pending;
      it never records a failure. */
  datatype HandlerOutcome = Succeeded | Pending

  /** A claim that satisfies the requirement for `permission`. */
  predicate Grants(c: Claim, permission: string) {
    TypeIs(c, PermClaimType) && c.value == permission
  }

  /** `HandleRequirementAsync`. The base handler only passes it requirements of
      type `PermissionRequirement`; others stay pending. */
  function HandleRequirement(user: Principal, requirement: Requirement): (o: HandlerOutcome)
    ensures o == Succeeded <==>
      requirement.PermissionRequirement? &&
      exists i | 0 <= i < |user| :: Grants(user[i], requirement.permission)
  {
    match requirement
    case PermissionRequirement(permission) =>
      if HasClaim(user, PermClaimType, permission) then Succeeded else Pending
    case DenyAnonymousRequirement => Pending
    case OtherRequirement(_) => Pending
  }

  /** More claims never revoke a grant. */
  lemma Monotone(user: Principal, more: Principal, requirement: Requirement)
    requires forall c | c in user :: c in more
    ensures HandleRequirement(user, requirement) == Succeeded ==> HandleRequirement(more, requirement) == Succeeded
  {
    if HandleRequirement(user, requirement) == Succeeded {
      var i :| 0 <= i < |user| && Grants(user[i], requirement.permission);
      assert user[i] in more;
      var j :| 0 <= j < |more| && more[j] == user[i];
    }
  }

  /** A principal whose claims are none of type `perm` (for instance, only
      `permission` claims) is granted nothing. */
  lemma NoPermClaimGrantsNothing(user: Principal, requirement: Requirement)
    requires forall i | 0 <= i < |user| :: !TypeIs(user[i], PermClaimType)
    ensures HandleRequirement(user, requirement) == Pending
  {
  }

  /** Values compare exactly; the role is not consulted; the claim type's
      case is not significant. */
  lemma ExactValueNoRoleShortcut()
    ensures HandleRequirement([Claim("perm", "Listing.Create")], PermissionRequirement("listing.create")) == Pending
    ensures HandleRequirement([Claim(RoleType, "admin"), Claim("role_name", "admin")], PermissionRequirement("listing.create")) == Pending
    ensures HandleRequirement([Claim("permission", "listing.create")], PermissionRequirement("listing.create")) == Pending
    ensures HandleRequirement([Claim("PERM", "listing.create")], PermissionRequirement("listing.create")) == Succeeded
  {
    var a: Principal := [Claim("perm", "Listing.Create")];
    assert a[0].value != "listing.create";
    var b: Principal := [Claim(RoleType, "admin"), Claim("role_name", "admin")];
    assert !TypeIs(b[0], PermClaimType) && !TypeIs(b[1], PermClaimType);
    var c: Principal := [Claim("permission", "listing.create")];
    assert !TypeIs(c[0], PermClaimType);
    var d: Principal := [Claim("PERM", "listing.create")];
    assert Grants(d[0], "listing.create");
  }
}
