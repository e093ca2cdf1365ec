/** KeycloakAuthorizationMiddleware: reads the "permissions" array of the
  token's "authorization" claim into a list of (resource, scopes) entries,
  stores the list in `Items["KeycloakPermissions"]` and calls the next
  delegate.

  Everything from `JsonDocument.Parse` to the end of the loop sits inside one
  `try` whose `catch` only logs: an exception stops the parsing, and the
  entries appended before it stay in the list.
 */
module KeycloakAuthorizationMiddleware {
  import opened Wrappers
  import opened Json
  import opened Text
  import opened Claims
  import opened HttpPipeline
  import opened Collections

  /** `s.EnumerateArray().Select(x => x.GetString()).Where(x => x != null).ToList()`:
      the strings in order, nulls dropped; any other kind of element raises. */
  function NonNullStrings(items: seq<Json>): (r: Result<seq<string>>)
    ensures r.Ok? <==> forall i | 0 <= i < |items| :: IsStringOrNull(items[i])
    ensures r.Ok? ==> forall s :: s in r.value <==> JString(s) in items
  {
    if items == [] then Ok([])
    else
      var head :- GetString(items[0]);
      var tail :- NonNullStrings(items[1..]);
      assert forall i | 1 <= i < |items| :: items[i] == items[1..][i - 1];
      assert forall x :: x in items <==> x == items[0] || x in items[1..];
      Ok(if head.Some? then [head.value] + tail else tail)
  }

  /** The first element and the rest: a string is put in front of the
      rest's strings, a null adds nothing, and anything else raises. */
  lemma NonNullStringsCons(items: seq<Json>)
    requires items != []
    ensures var x, r := items[0], NonNullStrings(items[1..]);
      NonNullStrings(items) ==
        if x.JString? then (if r.Ok? then Ok([x.s] + r.value) else r)
        else if x.JNull? then r
        else Err(InvalidOperation)
  {
  }

  /** Reading two arrays in a row succeeds exactly when reading each does. */
  lemma NonNullStringsAppendOk(a: seq<Json>, b: seq<Json>)
    ensures NonNullStrings(a + b).Ok? <==> NonNullStrings(a).Ok? && NonNullStrings(b).Ok?
  {
    var ab := a + b;
    assert forall i | 0 <= i < |a| :: ab[i] == a[i];
    assert forall i | 0 <= i < |b| :: ab[|a| + i] == b[i];
  }

  /** Reading two arrays in a row gives the first's strings followed by the
      second's. */
  lemma {:induction false} NonNullStringsAppend(a: seq<Json>, b: seq<Json>)
    requires NonNullStrings(a).Ok? && NonNullStrings(b).Ok?
    ensures NonNullStrings(a + b) == Ok(NonNullStrings(a).value + NonNullStrings(b).value)
  {
    if a == [] {
      assert a + b == b;
      assert NonNullStrings(a).value == [];
      assert NonNullStrings(a).value + NonNullStrings(b).value == NonNullStrings(b).value;
    } else {
      var ab := a + b;
      assert ab[0] == a[0];
      assert ab[1..] == a[1..] + b;
      NonNullStringsCons(a);
      NonNullStringsCons(ab);
      assert NonNullStrings(a[1..]).Ok?;
      NonNullStringsAppend(a[1..], b);
      assert NonNullStrings(ab[1..]) == Ok(NonNullStrings(a[1..]).value + NonNullStrings(b).value);
      var ra, rb := NonNullStrings(a[1..]).value, NonNullStrings(b).value;
      if a[0].JString? {
        assert NonNullStrings(a) == Ok([a[0].s] + ra);
        assert NonNullStrings(ab) == Ok([a[0].s] + (ra + rb));
        AppendAssoc([a[0].s], ra, rb);
      } else {
        assert NonNullStrings(a) == Ok(ra);
        assert NonNullStrings(ab) == Ok(ra + rb);
      }
    }
  }

  /** The loop body for one element `p` of "permissions": `rsname` must be
      present and a string or null (null gives ""); `scopes` counts only when
      it is an array. */
  function PermissionOf(p: Json): (r: Result<Permission>)
    ensures r.Ok? <==>
      && p.JObject? && "rsname" in p.props && IsStringOrNull(p.props["rsname"])
      && ("scopes" in p.props && p.props["scopes"].JArray? ==> NonNullStrings(p.props["scopes"].items).Ok?)
    ensures r.Ok? ==> r.value.resource == (if p.props["rsname"].JString? then p.props["rsname"].s else "")
    ensures r.Ok? && "scopes" in p.props && p.props["scopes"].JArray? ==>
      Ok(r.value.scopes) == NonNullStrings(p.props["scopes"].items)
    ensures r.Ok? && !("scopes" in p.props && p.props["scopes"].JArray?) ==> r.value.scopes == []
  {
    var rsname :- GetProperty(p, "rsname");
    var resource :- GetString(rsname);
    var s := TryGetProperty(p, "scopes");
    var scopes :- if s.Ok? && s.value.Some? && s.value.value.JArray? then NonNullStrings(s.value.value.items) else Ok([]);
    Ok(Permission(if resource.Some? then resource.value else "", scopes))
  }

  /** The entries appended for `items`: one per element, in order, up to the
      first element whose body raised. */
  function Entries(items: seq<Json>): (r: seq<Permission>)
    ensures |r| <= |items|
    ensures forall k | 0 <= k < |r| :: PermissionOf(items[k]) == Ok(r[k])
    ensures |r| < |items| ==> PermissionOf(items[|r|]).Err?
  {
    if items == [] then []
    else
      var p := PermissionOf(items[0]);
      if p.Err? then []
      else
        var tail := Entries(items[1..]);
        assert forall k | 1 <= k < |items| :: items[k] == items[1..][k - 1];
        [p.value] + tail
  }

  /** The list the middleware stores for a user with these claims. */
  function Permissions(claims: seq<Claim>): seq<Permission> {
    var authClaim := FindFirst(claims, "authorization");
    if IsNullOrWhiteSpace(FindFirstValue(claims, "authorization")) || authClaim.value.json.None? then []
    else
      var permissionArray := TryGetProperty(authClaim.value.json.value, "permissions");
      if permissionArray.Err? || permissionArray.value.None? then []
      else
        var elements := EnumerateArray(permissionArray.value.value);
        if elements.Err? then [] else Entries(elements.value)
  }

  lemma EntriesCons(items: seq<Json>)
    requires items != []
    ensures Entries(items) == (if PermissionOf(items[0]).Err? then [] else [PermissionOf(items[0]).value] + Entries(items[1..]))
  {
  }

  /** One turn of the loop that stops it: `rest` is what is left to read, `acc`
      the entries appended so far, and the next element raises. */
  lemma EntriesStop(rest: seq<Json>, acc: seq<Permission>)
    requires rest != [] && PermissionOf(rest[0]).Err?
    ensures acc + Entries(rest) == acc
  {
    EntriesCons(rest);
    assert acc + [] == acc;
  }

  /** One turn of the loop that appends the next element's entry. */
  lemma EntriesStep(rest: seq<Json>, acc: seq<Permission>, p: Permission)
    requires rest != [] && PermissionOf(rest[0]) == Ok(p)
    ensures acc + Entries(rest) == (acc + [p]) + Entries(rest[1..])
  {
    EntriesCons(rest);
    AppendAssoc(acc, [p], Entries(rest[1..]));
  }

  /** The `foreach` over "permissions", up to the first element that raises. */
  method AppendEntries(items: seq<Json>) returns (permissions: seq<Permission>)
    ensures permissions == Entries(items)
  {
    permissions := [];
    var i := 0;
    while i < |items|
      invariant 0 <= i <= |items|
      invariant Entries(items) == permissions + Entries(items[i..])
    {
      var p := PermissionOf(items[i]);
      SliceAt(items, i);
      if p.Err? {
        EntriesStop(items[i..], permissions);
        return;
      }
      EntriesStep(items[i..], permissions, p.value);
      permissions := permissions + [p.value];
      i := i + 1;
    }
    assert items[i..] == [];
    assert permissions + [] == permissions;
  }

  method InvokeAsync(context: HttpContext)
    modifies context
    ensures context.items == old(context.items)[PermissionsKey := PermissionList(Permissions(context.user.claims))]
    ensures context.nextCalls == old(context.nextCalls) + 1
  {
    var user := context.user;
    var permissions: seq<Permission> := [];
    var authClaim := FindFirstValue(user.claims, "authorization");
    if !IsNullOrWhiteSpace(authClaim) {
      var json := FindFirst(user.claims, "authorization").value.json;
      if json.Some? {
        var permissionArray := TryGetProperty(json.value, "permissions");
        if permissionArray.Ok? && permissionArray.value.Some? {
          var elements := EnumerateArray(permissionArray.value.value);
          if elements.Ok? {
            permissions := AppendEntries(elements.value);
          }
        }
      }
    }
    assert permissions == Permissions(user.claims);
    context.items := context.items[PermissionsKey := PermissionList(permissions)];
    context.Next();
  }

  /** Without a non-blank "authorization" claim the list is empty. */
  lemma NoAuthorizationClaim(claims: seq<Claim>)
    requires IsNullOrWhiteSpace(FindFirstValue(claims, "authorization"))
    ensures Permissions(claims) == []
  {
  }

  /** A missing "rsname" stops the parsing: the entries before it are kept and
      those after it are lost. */
  lemma MissingNameStopsParsing()
    ensures var view := JObject(map["rsname" := JString("dealer-management"), "scopes" := JArray([JString("view"), JNull])]);
      var noName := JObject(map["scopes" := JArray([JString("view")])]);
      var other := JObject(map["rsname" := JNull]);
      Entries([view, noName, other]) == [Permission("dealer-management", ["view"])]
  {
    var view := JObject(map["rsname" := JString("dealer-management"), "scopes" := JArray([JString("view"), JNull])]);
    var noName := JObject(map["scopes" := JArray([JString("view")])]);
    var other := JObject(map["rsname" := JNull]);
    var items := [view, noName, other];
    assert NonNullStrings([JNull]) == Ok([]);
    assert [JString("view"), JNull][1..] == [JNull];
    assert NonNullStrings([JString("view"), JNull]) == Ok(["view"]) by {
      assert GetString(JString("view")) == Ok(Some("view"));
      assert NonNullStrings([JString("view"), JNull]) == Ok(["view"] + []);
      assert ["view"] + [] == ["view"];
    }
    assert PermissionOf(view) == Ok(Permission("dealer-management", ["view"]));
    assert PermissionOf(noName).Err?;
    assert items[1..] == [noName, other];
    assert Entries(items[1..]) == [];
  }
}
