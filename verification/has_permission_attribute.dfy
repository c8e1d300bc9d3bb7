/** `HasPermissionAttribute`: an `[Authorize]` whose policy name is the
    permission code behind the `PERM:` marker. */
module HasPermissionAttribute {

  const Prefix := "PERM:"

  /** The `Policy` the attribute's constructor sets. */
  function PolicyName(permission: string): (policy: string)
    ensures |policy| == |Prefix| + |permission|
    ensures policy[..|Prefix|] == Prefix
    ensures policy[|Prefix|..] == permission
  {
    Prefix + permission
  }

  /** Distinct permissions get distinct policy names. */
  lemma PolicyNameInjective(p: string, q: string)
    ensures PolicyName(p) == PolicyName(q) <==> p == q
  {
    if PolicyName(p) == PolicyName(q) {
      assert p == PolicyName(p)[|Prefix|..];
    }
  }
}
