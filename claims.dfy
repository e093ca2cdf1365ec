/** The caller's credential: the claims of a ClaimsPrincipal.

  A claim's value is a string; when that string carries JSON (realm_access,
  authorization), `json` is what `JsonDocument.Parse(value)` returns, and None
  when it throws JsonException.
 */
module Claims {
  import opened Wrappers
  import opened Json
  import opened Text

  const NameIdentifier := "http://schemas.xmlsoap.org/ws/2005/05/identity/claims/nameidentifier"
  const RoleClaimType := "http://schemas.microsoft.com/ws/2008/06/identity/claims/role"
  const RealmAccess := "realm_access"

  datatype Claim = Claim(kind: string, value: string, json: Option<Json>)

  /** `authenticated` stands for `Identities.Any(i => i.IsAuthenticated)`. */
  datatype Principal = Principal(claims: seq<Claim>, authenticated: bool)

  /** `claims.FirstOrDefault(p)`. */
  function First(claims: seq<Claim>, p: Claim -> bool): (r: Option<Claim>)
    ensures r.None? <==> forall i | 0 <= i < |claims| :: !p(claims[i])
    ensures r.Some? ==> exists i | 0 <= i < |claims| ::
      claims[i] == r.value && p(claims[i]) && forall j | 0 <= j < i :: !p(claims[j])
  {
    if claims == [] then None
    else if p(claims[0]) then Some(claims[0])
    else
      var r := First(claims[1..], p);
      assert forall j | 1 <= j < |claims| :: claims[j] == claims[1..][j - 1];
      r
  }

  /** `ClaimsPrincipal.FindFirst(type)`, which compares claim types ignoring case. */
  function FindFirst(claims: seq<Claim>, kind: string): Option<Claim> {
    First(claims, (c: Claim) => EqualsIgnoreCase(c.kind, kind))
  }

  /** `FindFirst(type)?.Value`. */
  function FindFirstValue(claims: seq<Claim>, kind: string): Option<string> {
    var c := FindFirst(claims, kind);
    if c.Some? then Some(c.value.value) else None
  }

  /** `Claims.FirstOrDefault(c => c.Type == kind)?.Value`, an exact comparison. */
  function FirstValueOfKind(claims: seq<Claim>, kind: string): Option<string> {
    var c := First(claims, (c: Claim) => c.kind == kind);
    if c.Some? then Some(c.value.value) else None
  }
}
