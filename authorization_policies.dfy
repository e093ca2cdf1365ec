/** The two authorization policies KeycloakAuthorizationExtensions registers:
  "view-dealer-management", an assertion over the permission list the
  authorization middleware stored in `Items`, and "GroupViewerPolicy", an
  authenticated user in the role "group-viewer".
 */
module KeycloakAuthorizationPolicies {
  import opened Wrappers
  import opened Json
  import opened Text
  import opened Claims
  import opened RoleExtraction
  import opened HttpPipeline
  import opened KeycloakAuthorizationMiddleware
  import opened KeycloakRoleExtractionMiddleware
  import IdentityProviderService

  /** One entry grants the view: ordinal comparisons of both strings. */
  predicate CanViewDealers(p: Permission) {
    p.resource == "dealer-management" && "view" in p.scopes
  }

  /** The assertion. `resource` is the `Items` of `context.Resource` when it is
      an HttpContext, and None for any other resource. */
  predicate ViewDealerManagement(resource: Option<map<string, ItemValue>>) {
    && resource.Some?
    && PermissionsKey in resource.value
    && resource.value[PermissionsKey].PermissionList?
    && exists k | 0 <= k < |resource.value[PermissionsKey].perms| :: CanViewDealers(resource.value[PermissionsKey].perms[k])
  }

  /** `ClaimsPrincipal.IsInRole(role)` with `ClaimTypes.Role` as role claim type:
      the claim type is compared ignoring case, the role name exactly. */
  predicate IsInRole(user: Principal, role: string) {
    exists i | 0 <= i < |user.claims| :: EqualsIgnoreCase(user.claims[i].kind, RoleClaimType) && user.claims[i].value == role
  }

  /** `RequireAuthenticatedUser().RequireRole("group-viewer")`. */
  predicate GroupViewerPolicy(user: Principal) {
    user.authenticated && IsInRole(user, "group-viewer")
  }

  /** An element of the token's "permissions" array that names the resource
      "dealer-management" and lists the scope "view". */
  predicate ShowsDealerView(p: Json) {
    && p.JObject?
    && "rsname" in p.props && p.props["rsname"] == JString("dealer-management")
    && "scopes" in p.props && p.props["scopes"].JArray? && JString("view") in p.props["scopes"].items
  }

  /** After the middleware stored the entries read from `elements`, the policy
      holds exactly when one of the elements parsed before the first failure
      shows the dealer view. */
  lemma DealerViewFromToken(items: map<string, ItemValue>, elements: seq<Json>)
    ensures ViewDealerManagement(Some(items[PermissionsKey := PermissionList(Entries(elements))])) <==>
      exists k | 0 <= k < |Entries(elements)| :: ShowsDealerView(elements[k])
  {
    var es := Entries(elements);
    forall k | 0 <= k < |es|
      ensures CanViewDealers(es[k]) <==> ShowsDealerView(elements[k])
    {
      var p := elements[k];
      assert PermissionOf(p) == Ok(es[k]);
      if "scopes" in p.props && p.props["scopes"].JArray? {
        assert Ok(es[k].scopes) == NonNullStrings(p.props["scopes"].items);
      }
    }
    var m := items[PermissionsKey := PermissionList(es)];
    assert m[PermissionsKey].perms == es;
  }

  /** No HttpContext, no entry, an entry of another type and an empty list are
      all denied. */
  lemma DealerViewDenied(items: map<string, ItemValue>)
    ensures !ViewDealerManagement(None)
    ensures !ViewDealerManagement(Some(items - {PermissionsKey}))
    ensures !ViewDealerManagement(Some(items[PermissionsKey := OtherObject]))
    ensures !ViewDealerManagement(Some(items[PermissionsKey := PermissionList([])]))
  {
  }

  /** Both comparisons are case-sensitive. */
  lemma DealerViewIsCaseSensitive(items: map<string, ItemValue>)
    ensures !ViewDealerManagement(Some(items[PermissionsKey := PermissionList([Permission("Dealer-Management", ["view"])])]))
    ensures !ViewDealerManagement(Some(items[PermissionsKey := PermissionList([Permission("dealer-management", ["View"])])]))
  {
    assert "Dealer-Management" != "dealer-management" by {
      assert "Dealer-Management"[0] != "dealer-management"[0];
    }
    assert "View" != "view" by {
      assert "View"[0] != "view"[0];
    }
  }

  /** A "group-viewer" role the role middleware added admits an authenticated
      user. */
  lemma ExpandedRoleAdmits(claims: seq<Claim>, names: seq<string>)
    requires "group-viewer" in names
    ensures GroupViewerPolicy(Principal(claims + RoleClaims(names), true))
  {
    var k :| 0 <= k < |names| && names[k] == "group-viewer";
    var all := claims + RoleClaims(names);
    assert all[|claims| + k] == RoleClaim("group-viewer");
  }

  /** A realm_access claim listing the single role "Group-Viewer". */
  const MixedCaseViewer := Claim(RealmAccess, "{}", Some(JObject(map["roles" := JArray([JString("Group-Viewer")])])))

  lemma MixedCaseServiceGate()
    ensures IdentityProviderService.IsGroupViewer([MixedCaseViewer])
  {
    var c := MixedCaseViewer;
    assert [JString("Group-Viewer")][1..] == [];
    assert StringsOrEmpty([JString("Group-Viewer")]) == Ok(["Group-Viewer"] + []);
    assert ClaimRoles(c) == ["Group-Viewer"];
    assert !IsBlank("Group-Viewer") by {
      assert !IsWhiteSpace("Group-Viewer"[0]);
    }
    assert Fold("Group-Viewer") == Fold("group-viewer");
    assert Grants(c, "group-viewer");
    ExtractRealmRolesSpec([c], "group-viewer");
  }

  lemma MixedCaseExpansion()
    ensures Expand([MixedCaseViewer]) == Expansion(["Group-Viewer"], None)
  {
    assert FindFirst([MixedCaseViewer], RealmAccess) == Some(MixedCaseViewer);
    assert [JString("Group-Viewer")][1..] == [];
    assert RoleNamesOf([JString("Group-Viewer")]) == Expansion(["Group-Viewer"] + [], None);
    assert ["Group-Viewer"] + [] == ["Group-Viewer"];
  }

  lemma MixedCasePolicy()
    ensures !GroupViewerPolicy(Principal([MixedCaseViewer] + RoleClaims(["Group-Viewer"]), true))
  {
    var all := [MixedCaseViewer] + RoleClaims(["Group-Viewer"]);
    assert all == [MixedCaseViewer, RoleClaim("Group-Viewer")];
    assert "Group-Viewer" != "group-viewer" by {
      assert "Group-Viewer"[0] != "group-viewer"[0];
    }
    assert !EqualsIgnoreCase(MixedCaseViewer.kind, RoleClaimType) by {
      assert |Fold(MixedCaseViewer.kind)| != |Fold(RoleClaimType)|;
    }
  }

  /** The service's gate ignores case in the role name and the policy does not:
      a realm_access role "Group-Viewer" passes the first and, once expanded
      into a Role claim, fails the second. */
  lemma PolicyStricterThanServiceGate()
    ensures IdentityProviderService.IsGroupViewer([MixedCaseViewer])
    ensures !GroupViewerPolicy(Principal([MixedCaseViewer] + RoleClaims(Expand([MixedCaseViewer]).names), true))
  {
    MixedCaseServiceGate();
    MixedCaseExpansion();
    MixedCasePolicy();
  }
}
