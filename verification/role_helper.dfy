/** `RoleHelper.ToName`: the closed lookup from a role id to its display name. */
module RoleHelper {
  import opened Numbers

  const Admin := "admin"
  const Agent := "agent"
  const PrivateSeller := "private_seller"
  const Unknown := "unknown"

  /** The four names a role id can map to. */
  predicate IsRoleName(name: string) {
    name == Admin || name == Agent || name == PrivateSeller || name == Unknown
  }

  function ToName(roleId: int32): (name: string)
    ensures IsRoleName(name)
    ensures roleId == 1 <==> name == Admin
    ensures roleId == 2 <==> name == Agent
    ensures roleId == 3 <==> name == PrivateSeller
    ensures !(1 <= roleId <= 3) <==> name == Unknown
  {
    match roleId
    case 1 => Admin
    case 2 => Agent
    case 3 => PrivateSeller
    case _ => Unknown
  }

  /** The three known roles are told apart, and none of them reads as unknown. */
  lemma KnownRolesDistinct(a: int32, b: int32)
    requires 1 <= a <= 3 && 1 <= b <= 3
    ensures ToName(a) == ToName(b) <==> a == b
    ensures ToName(a) != Unknown
  {
  }
}
