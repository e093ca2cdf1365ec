/** GetGroupsWithUsersQueryHandler: a group-viewer gate of its own in front of
  IdentityProviderService.GetGroupsWithUsersByRolesAsync.

  Its role pipeline differs from RoleExtractionService in one place: the list
  the roles are added to lives outside the `try`, and `List.AddRange` over the
  lazy `Select` adds the elements one by one, so when an element that is
  neither a string nor null raises, the roles before it are kept.
 */
module GetGroupsWithUsersQueryHandler {
  import opened Wrappers
  import opened Json
  import opened Text
  import opened Claims
  import opened Directory
  import opened RoleExtraction
  import KeycloakGroupClient
  import IdentityProviderService

  /** What the SelectMany lambda returns for one claim. */
  function HandlerClaimRoles(c: Claim): seq<string> {
    if c.json.None? then []
    else
      var roles := TryGetProperty(c.json.value, "roles");
      if roles.Err? || roles.value.None? then []
      else
        var items := EnumerateArray(roles.value.value);
        if items.Err? then [] else StringPrefix(items.value)
  }

  function HandlerContribution(c: Claim): RoleSet {
    if c.kind == RealmAccess then set r | r in HandlerClaimRoles(c) && !IsBlank(r) :: Fold(r) else {}
  }

  function HandlerRoles(claims: seq<Claim>): RoleSet {
    if claims == [] then {} else HandlerContribution(claims[0]) + HandlerRoles(claims[1..])
  }

  /** Handle: a missing user is refused, as is one whose roles lack
      "group-viewer"; otherwise the service answers. */
  function Handle(d: Snapshot, ghost rank: string -> nat, user: Option<Principal>)
    : Result<seq<KeycloakGroupClient.GroupWithUsers>>
    requires Ranked(d, rank)
  {
    if user.None? || !Contains(HandlerRoles(user.value.claims), IdentityProviderService.GroupViewer) then Err(UnauthorizedAccess)
    else IdentityProviderService.GroupsWithUsersByRoles(d, rank, user.value.claims)
  }

  /** When every element is a string or null, the prefix is the whole list the
      strict pipeline reads. */
  lemma {:induction false} StringPrefixWhole(items: seq<Json>)
    requires StringsOrEmpty(items).Ok?
    ensures StringPrefix(items) == StringsOrEmpty(items).value
  {
    var p := StringPrefix(items);
    var s := StringsOrEmpty(items).value;
    assert |p| == |s|;
  }

  /** Each claim lists, for the handler, at least the roles it lists for
      RoleExtractionService. */
  lemma ClaimRolesWithin(c: Claim)
    ensures forall r | r in ClaimRoles(c) :: r in HandlerClaimRoles(c)
  {
    if c.json.Some? {
      var roles := TryGetProperty(c.json.value, "roles");
      if roles.Ok? && roles.value.Some? {
        var items := EnumerateArray(roles.value.value);
        if items.Ok? && StringsOrEmpty(items.value).Ok? {
          StringPrefixWhole(items.value);
        }
      }
    }
  }

  /** The handler's role set contains the strict one. */
  lemma {:induction false} StrictWithinHandler(claims: seq<Claim>)
    ensures ExtractRealmRoles(claims) <= HandlerRoles(claims)
  {
    if claims != [] {
      StrictWithinHandler(claims[1..]);
      ClaimRolesWithin(claims[0]);
      assert Contribution(claims[0]) <= HandlerContribution(claims[0]);
    }
  }

  /** Because the service checks again with the strict pipeline, the handler's
      gate changes nothing for a present user: the answer is the service's. A
      missing user is refused. */
  lemma HandleIsService(d: Snapshot, rank: string -> nat, user: Option<Principal>)
    requires Ranked(d, rank)
    ensures user.None? ==> Handle(d, rank, user) == Err(UnauthorizedAccess)
    ensures user.Some? ==> Handle(d, rank, user) == IdentityProviderService.GroupsWithUsersByRoles(d, rank, user.value.claims)
  {
    if user.Some? {
      StrictWithinHandler(user.value.claims);
    }
  }

  /** `{"roles":["group-viewer",5]}`: the handler keeps "group-viewer", read
      before the number raised; RoleExtractionService discards the claim. */
  lemma PartialRolesKept()
    ensures var c := Claim(RealmAccess, "", Some(JObject(map["roles" := JArray([JString("group-viewer"), JNumber(5)])])));
      && Contains(HandlerRoles([c]), IdentityProviderService.GroupViewer)
      && !Contains(ExtractRealmRoles([c]), IdentityProviderService.GroupViewer)
  {
    var c := Claim(RealmAccess, "", Some(JObject(map["roles" := JArray([JString("group-viewer"), JNumber(5)])])));
    var items := [JString("group-viewer"), JNumber(5)];
    assert StringPrefix(items[1..]) == [];
    assert StringPrefix(items) == ["group-viewer"];
    assert HandlerClaimRoles(c) == ["group-viewer"];
    assert "group-viewer" in HandlerClaimRoles(c);
    assert !IsBlank("group-viewer") by {
      assert !IsWhiteSpace("group-viewer"[0]);
    }
    assert Fold("group-viewer") == "group-viewer";
    assert HandlerRoles([c]) == HandlerContribution(c) + HandlerRoles([]);
    BadElementDiscardsClaim(c, 1);
    assert ExtractRealmRoles([c]) == Contribution(c) + ExtractRealmRoles([]);
  }
}
