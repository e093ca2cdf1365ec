/** KeycloakRoleExtractionMiddleware: adds one Role claim to the user's
  ClaimsIdentity for every non-empty string in the "roles" array of the
  token's realm_access claim, then calls the next delegate.

  Unlike every other reader of realm_access, it catches nothing: malformed
  JSON, a non-object root, a non-array "roles" or a non-string element raises
  out of the middleware, the next delegate is not called, and the claims
  added before the failure stay on the identity.
 */
module KeycloakRoleExtractionMiddleware {
  import opened Wrappers
  import opened Json
  import opened Claims
  import opened RoleExtraction
  import opened HttpPipeline
  import opened Collections

  /** The role names added, and the exception that ended the request, if any. */
  datatype Expansion = Expansion(names: seq<string>, fault: Option<Fault>)

  /** The non-empty strings of `ss`, in order. */
  function NonEmpty(ss: seq<string>): (r: seq<string>)
    ensures forall s | s in r :: s != "" && s in ss
    ensures forall s | s in ss && s != "" :: s in r
    ensures |r| <= |ss|
  {
    if ss == [] then []
    else (if ss[0] != "" then [ss[0]] else []) + NonEmpty(ss[1..])
  }

  /** The names kept from two lists in a row are those kept from the first,
      then those kept from the second: order and repetitions survive, and a
      single name is kept exactly when it is not empty. */
  lemma {:induction false} NonEmptyAppend(a: seq<string>, b: seq<string>)
    ensures NonEmpty(a + b) == NonEmpty(a) + NonEmpty(b)
    ensures forall s :: NonEmpty([s]) == if s != "" then [s] else []
  {
    if a == [] {
      assert a + b == b;
    } else {
      assert (a + b)[0] == a[0];
      assert (a + b)[1..] == a[1..] + b;
      NonEmptyAppend(a[1..], b);
    }
  }

  /** The `foreach` over the roles array. */
  function RoleNamesOf(items: seq<Json>): (e: Expansion)
    ensures e.fault.None? <==> forall i | 0 <= i < |items| :: IsStringOrNull(items[i])
    ensures e.fault.Some? ==> e.fault.value == InvalidOperation
  {
    if items == [] then Expansion([], None)
    else
      var roleName := GetString(items[0]);
      if roleName.Err? then Expansion([], Some(roleName.fault))
      else
        var tail := RoleNamesOf(items[1..]);
        assert forall i | 1 <= i < |items| :: items[i] == items[1..][i - 1];
        var added := if roleName.value.Some? && roleName.value.value != "" then [roleName.value.value] else [];
        Expansion(added + tail.names, tail.fault)
  }

  /** The names added are the non-empty strings read before the first element
      that raised. */
  lemma {:induction false} RoleNamesOfSpec(items: seq<Json>)
    ensures RoleNamesOf(items).names == NonEmpty(StringPrefix(items))
  {
    if items != [] && IsStringOrNull(items[0]) {
      RoleNamesOfSpec(items[1..]);
      var prefix := StringPrefix(items);
      assert prefix[1..] == StringPrefix(items[1..]);
      assert prefix == [prefix[0]] + prefix[1..];
    }
  }

  /** What the middleware does for a user with these claims. */
  function Expand(claims: seq<Claim>): Expansion {
    var realmAccess := FindFirst(claims, RealmAccess);
    if realmAccess.None? || realmAccess.value.value == "" then Expansion([], None)
    else if realmAccess.value.json.None? then Expansion([], Some(JsonException))
    else
      var rolesElement := TryGetProperty(realmAccess.value.json.value, "roles");
      if rolesElement.Err? then Expansion([], Some(rolesElement.fault))
      else if rolesElement.value.None? then Expansion([], None)
      else
        var elements := EnumerateArray(rolesElement.value.value);
        if elements.Err? then Expansion([], Some(elements.fault)) else RoleNamesOf(elements.value)
  }

  /** `new Claim(ClaimTypes.Role, roleName)`; its value is never read as JSON. */
  function RoleClaim(name: string): Claim {
    Claim(RoleClaimType, name, None)
  }

  function RoleClaims(names: seq<string>): (r: seq<Claim>)
    ensures |r| == |names|
    ensures forall k | 0 <= k < |r| :: r[k] == RoleClaim(names[k])
  {
    if names == [] then [] else [RoleClaim(names[0])] + RoleClaims(names[1..])
  }

  lemma RoleNamesCons(items: seq<Json>)
    requires items != []
    ensures var roleName := GetString(items[0]);
      var tail := RoleNamesOf(items[1..]);
      RoleNamesOf(items) == (
        if roleName.Err? then Expansion([], Some(roleName.fault))
        else Expansion((if roleName.value.Some? && roleName.value.value != "" then [roleName.value.value] else []) + tail.names, tail.fault))
  {
  }

  /** One turn of the loop: `rest` is what is left to read and `added` the
      names added so far. */
  lemma RoleNamesStep(rest: seq<Json>, added: seq<string>, roleName: Result<Option<string>>)
    requires rest != [] && roleName == GetString(rest[0])
    ensures var e := RoleNamesOf(rest);
      roleName.Err? ==> Expansion(added + e.names, e.fault) == Expansion(added, Some(roleName.fault))
    ensures var e := RoleNamesOf(rest);
      var tail := RoleNamesOf(rest[1..]);
      roleName.Ok? && roleName.value.Some? && roleName.value.value != "" ==>
        Expansion(added + e.names, e.fault) == Expansion((added + [roleName.value.value]) + tail.names, tail.fault)
    ensures var e := RoleNamesOf(rest);
      var tail := RoleNamesOf(rest[1..]);
      roleName.Ok? && !(roleName.value.Some? && roleName.value.value != "") ==>
        Expansion(added + e.names, e.fault) == Expansion(added + tail.names, tail.fault)
  {
    RoleNamesCons(rest);
    var tail := RoleNamesOf(rest[1..]);
    if roleName.Err? {
      assert added + [] == added;
    } else if roleName.value.Some? && roleName.value.value != "" {
      assert added + ([roleName.value.value] + tail.names) == (added + [roleName.value.value]) + tail.names;
    } else {
      assert [] + tail.names == tail.names;
    }
  }

  /** The loop: adds each role in turn, and stops at the element that raises. */
  method AddRoles(identity: ClaimsIdentity?, items: seq<Json>) returns (r: Result<()>)
    modifies identity
    ensures identity != null ==> identity.claims == old(identity.claims) + RoleClaims(RoleNamesOf(items).names)
    ensures RoleNamesOf(items).fault.None? ==> r.Ok?
    ensures RoleNamesOf(items).fault.Some? ==> r == Err(RoleNamesOf(items).fault.value)
  {
    var i := 0;
    ghost var added: seq<string> := [];
    while i < |items|
      invariant 0 <= i <= |items|
      invariant RoleNamesOf(items) == Expansion(added + RoleNamesOf(items[i..]).names, RoleNamesOf(items[i..]).fault)
      invariant identity != null ==> identity.claims == old(identity.claims) + RoleClaims(added)
    {
      var roleName := GetString(items[i]);
      SliceAt(items, i);
      RoleNamesStep(items[i..], added, roleName);
      if roleName.Err? {
        return Err(roleName.fault);
      }
      if roleName.value.Some? && roleName.value.value != "" {
        if identity != null {
          identity.AddClaim(RoleClaim(roleName.value.value));
        }
        RoleClaimsAppend(added, roleName.value.value);
        added := added + [roleName.value.value];
      }
      i := i + 1;
    }
    assert items[i..] == [];
    assert added + [] == added;
    r := Ok(());
  }

  lemma RoleClaimsAppend(names: seq<string>, name: string)
    ensures RoleClaims(names + [name]) == RoleClaims(names) + [RoleClaim(name)]
  {
  }

  method InvokeAsync(context: HttpContext) returns (r: Result<()>)
    modifies context, context.identity
    ensures var e := Expand(context.user.claims);
      && (context.identity != null ==> context.identity.claims == old(context.identity.claims) + RoleClaims(e.names))
      && (e.fault.None? <==> r.Ok?)
      && (e.fault.Some? ==> r == Err(e.fault.value))
      && context.nextCalls == old(context.nextCalls) + (if r.Ok? then 1 else 0)
      && context.items == old(context.items)
  {
    var identity := context.identity;
    var realmAccess := FindFirst(context.user.claims, RealmAccess);
    if realmAccess.Some? && realmAccess.value.value != "" {
      if realmAccess.value.json.None? {
        return Err(JsonException);
      }
      var rolesElement := TryGetProperty(realmAccess.value.json.value, "roles");
      if rolesElement.Err? {
        return Err(rolesElement.fault);
      }
      if rolesElement.value.Some? {
        var elements := EnumerateArray(rolesElement.value.value);
        if elements.Err? {
          return Err(elements.fault);
        }
        r := AddRoles(identity, elements.value);
        if r.Err? {
          return;
        }
      }
    }
    context.Next();
    r := Ok(());
  }

  /** A missing or empty realm_access claim, or one without "roles", changes
      nothing and the next delegate runs. */
  lemma NothingToExpand(claims: seq<Claim>)
    requires var realmAccess := FindFirst(claims, RealmAccess);
      || realmAccess.None? || realmAccess.value.value == ""
      || (realmAccess.value.json.Some? && realmAccess.value.json.value.JObject? && "roles" !in realmAccess.value.json.value.props)
    ensures Expand(claims) == Expansion([], None)
  {
  }

  /** Malformed JSON in a non-empty realm_access claim is not caught. */
  lemma MalformedJsonRaises(claims: seq<Claim>)
    requires FindFirst(claims, RealmAccess).Some?
    requires FindFirst(claims, RealmAccess).value.value != "" && FindFirst(claims, RealmAccess).value.json.None?
    ensures Expand(claims) == Expansion([], Some(JsonException))
  {
  }

  /** Duplicates are added twice and empty names are skipped. */
  lemma DuplicatesKept()
    ensures RoleNamesOf([JString("admin"), JString(""), JNull, JString("admin")]) == Expansion(["admin", "admin"], None)
  {
    var items := [JString("admin"), JString(""), JNull, JString("admin")];
    assert items[1..] == [JString(""), JNull, JString("admin")];
    assert items[1..][1..] == [JNull, JString("admin")];
    assert items[1..][1..][1..] == [JString("admin")];
    assert RoleNamesOf([JString("admin")]) == Expansion(["admin"] + [], None);
  }

  /** The roles before a number are added; those after it are not, and the
      request fails. */
  lemma PartialAdditionKept()
    ensures RoleNamesOf([JString("admin"), JNumber(5), JString("viewer")]) == Expansion(["admin"], Some(InvalidOperation))
  {
    var items := [JString("admin"), JNumber(5), JString("viewer")];
    assert items[1..] == [JNumber(5), JString("viewer")];
    assert RoleNamesOf(items[1..]) == Expansion([], Some(InvalidOperation));
    assert ["admin"] + [] == ["admin"];
  }
}
