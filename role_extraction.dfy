/** RoleExtractionService.ExtractRealmRoles: the caller's realm roles as a
  case-insensitive set, gathered from every "realm_access" claim.

  IdentityProviderService.ExtractRealmRoles and KeycloakGroupClient.ExtractRoles
  are the same LINQ pipeline, and the model uses this one definition for all
  three. A role set is kept as the set of case-folded names, and `Contains` is
  the set's `Contains` under `StringComparer.OrdinalIgnoreCase`.
 */
module RoleExtraction {
  import opened Wrappers
  import opened Json
  import opened Text
  import opened Claims

  type RoleSet = set<string>

  predicate Contains(roles: RoleSet, name: string) {
    Fold(name) in roles
  }

  /** `items.Select(x => x.GetString() ?? "").ToList()`: the first element that is
      neither a string nor null raises. */
  function StringsOrEmpty(items: seq<Json>): (r: Result<seq<string>>)
    ensures r.Ok? <==> forall i | 0 <= i < |items| :: IsStringOrNull(items[i])
    ensures r.Ok? ==> |r.value| == |items|
    ensures r.Ok? ==> forall i | 0 <= i < |items| ::
      r.value[i] == (if items[i].JString? then items[i].s else "")
  {
    if items == [] then Ok([])
    else
      var head :- GetString(items[0]);
      var tail :- StringsOrEmpty(items[1..]);
      assert forall i | 1 <= i < |items| :: items[i] == items[1..][i - 1];
      Ok([if head.Some? then head.value else ""] + tail)
  }

  /** The strings (null read as "") read one by one from a roles array before
      the first element GetString() raises on. */
  function StringPrefix(items: seq<Json>): (r: seq<string>)
    ensures |r| <= |items|
    ensures forall i | 0 <= i < |r| :: IsStringOrNull(items[i])
    ensures forall i | 0 <= i < |r| :: r[i] == (if items[i].JString? then items[i].s else "")
    ensures |r| < |items| ==> !IsStringOrNull(items[|r|])
  {
    if items == [] || !IsStringOrNull(items[0]) then []
    else
      var tail := StringPrefix(items[1..]);
      assert forall i | 1 <= i < |items| :: items[i] == items[1..][i - 1];
      [if items[0].JString? then items[0].s else ""] + tail
  }

  /** The body of the `try` block for one claim's parsed root element. */
  function RolesOf(root: Json): Result<seq<string>> {
    var roles :- TryGetProperty(root, "roles");
    if roles.None? then Ok([])
    else
      var items :- EnumerateArray(roles.value);
      StringsOrEmpty(items)
  }

  /** What the `SelectMany` lambda returns for one claim: the roles, or the empty
      list from the `catch` when parsing or reading the claim raised. */
  function ClaimRoles(c: Claim): seq<string> {
    if c.json.None? then []
    else
      var r := RolesOf(c.json.value);
      if r.Ok? then r.value else []
  }

  /** The folded, non-blank roles one claim adds to the set. */
  function Contribution(c: Claim): RoleSet {
    if c.kind == RealmAccess then set r | r in ClaimRoles(c) && !IsBlank(r) :: Fold(r) else {}
  }

  function ExtractRealmRoles(claims: seq<Claim>): RoleSet {
    if claims == [] then {} else Contribution(claims[0]) + ExtractRealmRoles(claims[1..])
  }

  /** A claim grants `name` when it is a realm_access claim listing a non-blank
      role equal to `name` ignoring case. */
  predicate Grants(c: Claim, name: string) {
    c.kind == RealmAccess && exists r | r in ClaimRoles(c) :: !IsBlank(r) && EqualsIgnoreCase(r, name)
  }

  /** The role set contains `name` exactly when some claim grants it. */
  lemma {:induction false} ExtractRealmRolesSpec(claims: seq<Claim>, name: string)
    ensures Contains(ExtractRealmRoles(claims), name) <==> exists i | 0 <= i < |claims| :: Grants(claims[i], name)
  {
    if claims != [] {
      ExtractRealmRolesSpec(claims[1..], name);
      assert forall i | 1 <= i < |claims| :: claims[i] == claims[1..][i - 1];
      assert Fold(name) in Contribution(claims[0]) <==> Grants(claims[0], name);
    }
  }

  /** The set is the union of what each claim contributes. */
  lemma {:induction false} ExtractRealmRolesAppend(a: seq<Claim>, b: seq<Claim>)
    ensures ExtractRealmRoles(a + b) == ExtractRealmRoles(a) + ExtractRealmRoles(b)
  {
    if a == [] {
      assert a + b == b;
    } else {
      assert (a + b)[0] == a[0];
      assert (a + b)[1..] == a[1..] + b;
      ExtractRealmRolesAppend(a[1..], b);
      var c := Contribution(a[0]);
      assert ExtractRealmRoles(a + b) == c + ExtractRealmRoles(a[1..] + b);
      assert ExtractRealmRoles(a) == c + ExtractRealmRoles(a[1..]);
    }
  }

  /** Only claims of type "realm_access" contribute. */
  lemma OtherClaimIgnored(claims: seq<Claim>, c: Claim)
    requires c.kind != RealmAccess
    ensures ExtractRealmRoles(claims + [c]) == ExtractRealmRoles(claims)
  {
    ExtractRealmRolesAppend(claims, [c]);
  }

  /** A claim that does not parse, whose root is not an object, or whose "roles"
      is missing or not an array adds nothing, and nothing is raised. */
  lemma MalformedClaimIgnored(claims: seq<Claim>, c: Claim)
    requires || c.json.None?
             || !c.json.value.JObject?
             || "roles" !in c.json.value.props
             || !c.json.value.props["roles"].JArray?
    ensures ExtractRealmRoles(claims + [c]) == ExtractRealmRoles(claims)
  {
    ExtractRealmRolesAppend(claims, [c]);
  }

  /** One element that is neither a string nor null discards the whole claim,
      including the roles listed before it. */
  lemma BadElementDiscardsClaim(c: Claim, k: nat)
    requires c.json.Some? && c.json.value.JObject? && "roles" in c.json.value.props
    requires var roles := c.json.value.props["roles"];
      roles.JArray? && k < |roles.items| && !IsStringOrNull(roles.items[k])
    ensures ClaimRoles(c) == []
  {
  }

  /** Blank role names never enter the set. */
  lemma NoBlankRole(claims: seq<Claim>, name: string)
    requires IsBlank(name)
    ensures !Contains(ExtractRealmRoles(claims), name)
  {
    ExtractRealmRolesSpec(claims, name);
    FoldKeepsBlank(name);
    forall i, r | 0 <= i < |claims| && r in ClaimRoles(claims[i]) && EqualsIgnoreCase(r, name)
      ensures IsBlank(r)
    {
      FoldKeepsBlank(r);
    }
  }

  /** "Admin" and "admin" are the same role. */
  lemma ContainsIgnoresCase(roles: RoleSet, a: string, b: string)
    requires EqualsIgnoreCase(a, b)
    ensures Contains(roles, a) <==> Contains(roles, b)
  {
  }
}
