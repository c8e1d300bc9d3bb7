/** Claims and the `ClaimsPrincipal` queries the core uses. A principal with a
    single identity is its list of claims, in issuance order. Claim types are
    compared with `OrdinalIgnoreCase`, claim values ordinally. */
module Claims {
  import opened Wrappers
  import opened Text

  datatype Claim = Claim(claimType: string, value: string)

  type Principal = seq<Claim>

  /** Registered claim names of RFC 7519, section 4.1, and the email claim. */
  const Sub := "sub"
  const Email := "email"
  const Jti := "jti"
  const Iat := "iat"
  /** `ClaimTypes.Role` and `ClaimTypes.NameIdentifier`. */
  const RoleType := "http://schemas.microsoft.com/ws/2008/06/identity/claims/role"
  const NameIdentifier := "http://schemas.xmlsoap.org/ws/2005/05/identity/claims/nameidentifier"

  predicate TypeIs(c: Claim, claimType: string) {
    EqualsIgnoreCase(c.claimType, claimType)
  }

  /** `ClaimsPrincipal.HasClaim(type, value)`. */
  function HasClaim(user: Principal, claimType: string, value: string): (b: bool)
    ensures b <==> exists i | 0 <= i < |user| :: TypeIs(user[i], claimType) && user[i].value == value
  {
    if |user| == 0 then false
    else (TypeIs(user[0], claimType) && user[0].value == value) || HasClaim(user[1..], claimType, value)
  }

  /** `ClaimsPrincipal.FindFirstValue(type)`: the value of the first claim of
      that type, or null. */
  function FindFirstValue(user: Principal, claimType: string): (r: Option<string>)
    ensures r.None? <==> forall i | 0 <= i < |user| :: !TypeIs(user[i], claimType)
    ensures r.Some? ==> exists i | 0 <= i < |user| ::
      && TypeIs(user[i], claimType) && user[i].value == r.value
      && forall j | 0 <= j < i :: !TypeIs(user[j], claimType)
  {
    if |user| == 0 then None
    else if TypeIs(user[0], claimType) then Some(user[0].value)
    else
      var r := FindFirstValue(user[1..], claimType);
      assert forall i | 1 <= i < |user| :: user[i] == user[1..][i - 1];
      r
  }

  /** The values of `FindAll(type)`, in claim order. */
  function FindAllValues(user: Principal, claimType: string): (r: seq<string>)
    ensures |r| <= |user|
    ensures forall v :: v in r <==> exists i | 0 <= i < |user| :: TypeIs(user[i], claimType) && user[i].value == v
  {
    if |user| == 0 then []
    else
      var rest := FindAllValues(user[1..], claimType);
      assert forall i | 1 <= i < |user| :: user[i] == user[1..][i - 1];
      if TypeIs(user[0], claimType) then [user[0].value] + rest else rest
  }

  lemma TypeIsByLength(c: Claim, claimType: string)
    ensures c.claimType == claimType ==> TypeIs(c, claimType)
    ensures |c.claimType| != |claimType| ==> !TypeIs(c, claimType)
  {
  }

  /** The first claim of the type is at `k`: its value is found. */
  lemma FindFirstAt(user: Principal, claimType: string, k: nat)
    requires k < |user| && TypeIs(user[k], claimType)
    requires forall j | 0 <= j < k :: !TypeIs(user[j], claimType)
    ensures FindFirstValue(user, claimType) == Some(user[k].value)
  {
    var r := FindFirstValue(user, claimType);
    var i :| 0 <= i < |user| && TypeIs(user[i], claimType) && user[i].value == r.value
      && forall j | 0 <= j < i :: !TypeIs(user[j], claimType);
    assert i == k;
  }

  lemma NoneOfType(user: Principal, claimType: string)
    requires forall i | 0 <= i < |user| :: !TypeIs(user[i], claimType)
    ensures FindAllValues(user, claimType) == []
  {
  }

  lemma {:induction false} FindAllValuesAppend(a: Principal, b: Principal, claimType: string)
    ensures FindAllValues(a + b, claimType) == FindAllValues(a, claimType) + FindAllValues(b, claimType)
    decreases |a|
  {
    if |a| > 0 {
      assert (a + b)[1..] == a[1..] + b;
      FindAllValuesAppend(a[1..], b, claimType);
    } else {
      assert a + b == b;
    }
  }

  /** One claim contributes its value exactly when it has the type. With
      `FindAllValuesAppend` this fixes `FindAll` completely: every match, in
      claim order, duplicates kept. */
  lemma FindAllValuesSingle(c: Claim, claimType: string)
    ensures FindAllValues([c], claimType) == if TypeIs(c, claimType) then [c.value] else []
  {
    assert [c][1..] == [];
  }

  predicate NoDuplicates(s: seq<string>) {
    forall i, j | 0 <= i < j < |s| :: s[i] != s[j]
  }

  /** Position of the first occurrence of `x` in `s`. */
  function FirstIndex(s: seq<string>, x: string): (k: nat)
    requires x in s
    ensures k < |s| && s[k] == x && x !in s[..k]
  {
    if s[0] == x then 0 else 1 + FirstIndex(s[1..], x)
  }

  /** Every element of `r` occurs in `s`, and `r` lists them in the order of
      their first occurrence in `s`. */
  predicate InFirstOccurrenceOrder(r: seq<string>, s: seq<string>) {
    && (forall i | 0 <= i < |r| :: r[i] in s)
    && (forall i, j | 0 <= i < j < |r| && r[i] in s && r[j] in s :: FirstIndex(s, r[i]) < FirstIndex(s, r[j]))
  }

  /** LINQ `Distinct` driven by a set of elements already yielded. */
  function DistinctFrom(s: seq<string>, seen: set<string>): (r: seq<string>)
    ensures NoDuplicates(r)
    ensures forall x :: x in r <==> x in s && x !in seen
  {
    if |s| == 0 then []
    else if s[0] in seen then DistinctFrom(s[1..], seen)
    else [s[0]] + DistinctFrom(s[1..], seen + {s[0]})
  }

  /** LINQ `Distinct`: each element once, in order of first occurrence. */
  function Distinct(s: seq<string>): (r: seq<string>)
    ensures NoDuplicates(r)
    ensures forall x :: x in r <==> x in s
  {
    DistinctFrom(s, {})
  }

  lemma FirstIndexTail(s: seq<string>, x: string)
    requires x in s && x != s[0]
    ensures x in s[1..] && FirstIndex(s, x) == 1 + FirstIndex(s[1..], x)
  {
  }

  lemma {:induction false} DistinctFromOrder(s: seq<string>, seen: set<string>)
    ensures InFirstOccurrenceOrder(DistinctFrom(s, seen), s)
    decreases |s|
  {
    if |s| > 0 {
      var r := DistinctFrom(s, seen);
      var tail := s[1..];
      if s[0] in seen {
        assert r == DistinctFrom(tail, seen);
        DistinctFromOrder(tail, seen);
        forall i | 0 <= i < |r| ensures r[i] in s && FirstIndex(s, r[i]) == 1 + FirstIndex(tail, r[i]) {
          FirstIndexTail(s, r[i]);
        }
        forall i, j | 0 <= i < j < |r| && r[i] in s && r[j] in s ensures FirstIndex(s, r[i]) < FirstIndex(s, r[j]) {
          assert FirstIndex(tail, r[i]) < FirstIndex(tail, r[j]);
        }
      } else {
        var rest := DistinctFrom(tail, seen + {s[0]});
        assert r == [s[0]] + rest;
        DistinctFromOrder(tail, seen + {s[0]});
        forall i | 1 <= i < |r| ensures r[i] == rest[i - 1] && r[i] in s && FirstIndex(s, r[i]) == 1 + FirstIndex(tail, r[i]) {
          assert r[i] == rest[i - 1] && r[i] in rest;
          FirstIndexTail(s, r[i]);
        }
        forall i, j | 0 <= i < j < |r| && r[i] in s && r[j] in s ensures FirstIndex(s, r[i]) < FirstIndex(s, r[j]) {
          if i > 0 {
            assert FirstIndex(tail, rest[i - 1]) < FirstIndex(tail, rest[j - 1]);
          }
        }
      }
    }
  }

  /** The result lists elements in the order of their first occurrence in the input. */
  lemma DistinctOrder(s: seq<string>)
    ensures InFirstOccurrenceOrder(Distinct(s), s)
  {
    assert Distinct(s) == DistinctFrom(s, {});
    DistinctFromOrder(s, {});
  }

  lemma {:induction false} DistinctFromOfDistinct(s: seq<string>, seen: set<string>)
    requires NoDuplicates(s)
    requires forall x | x in s :: x !in seen
    ensures DistinctFrom(s, seen) == s
    decreases |s|
  {
    if |s| > 0 {
      assert s[0] !in s[1..];
      DistinctFromOfDistinct(s[1..], seen + {s[0]});
    }
  }

  /** A list without duplicates is its own `Distinct`; so `Distinct` is idempotent. */
  lemma DistinctIdempotent(s: seq<string>)
    ensures NoDuplicates(s) ==> Distinct(s) == s
    ensures Distinct(Distinct(s)) == Distinct(s)
  {
    if NoDuplicates(s) {
      DistinctFromOfDistinct(s, {});
    }
    DistinctFromOfDistinct(Distinct(s), {});
  }
}
