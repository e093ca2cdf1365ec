/** What the dealer roll-ups of KeycloakDealerClient guarantee, proved about
  the functions their methods are verified against.
 */
module DealerClientProperties {
  import opened Wrappers
  import opened Json
  import opened Text
  import opened Claims
  import opened KeycloakJsonHelpers
  import opened Collections
  import opened Directory
  import opened KeycloakDealerClient
  import opened RoleExtraction

  // ------------------------------------------------------------ Caller checks

  /** A caller without a NameIdentifier or "sub" claim, or whose own role list
      holds neither "admin" nor "super-admin" exactly, gets an empty list, and
      the directory is not consulted: the answer is the same on every
      snapshot. */
  lemma DealersWithGroupsEmptyForCaller(d1: Snapshot, d2: Snapshot, claims: seq<Claim>)
    requires CallerRoles(claims).Ok?
    requires || IsNullOrWhiteSpace(CallerId(claims))
             || ("admin" !in CallerRoles(claims).value && "super-admin" !in CallerRoles(claims).value)
    ensures DealersWithGroups(d1, claims) == Ok([])
    ensures DealersWithGroups(d2, claims) == Ok([])
  {
  }

  /** The caller's role list is read before anything else, and a realm_access
      claim that does not parse aborts both roll-ups, with or without an id. */
  lemma UnparsedRealmAccessAborts(d: Snapshot, claims: seq<Claim>)
    requires FindFirst(claims, RealmAccess).Some?
    requires !IsBlank(FindFirst(claims, RealmAccess).value.value)
    requires FindFirst(claims, RealmAccess).value.json.None?
    ensures DealersWithGroups(d, claims) == Err(JsonException)
    ensures GroupsWithAdmins(d, claims) == Err(JsonException)
  {
  }

  /** The caller of the next lemma: realm roles ["Admin"] and a "sub" claim. */
  function AdminCaller(value: string): seq<Claim> {
    [ Claim(RealmAccess, value, Some(JObject(map["roles" := JArray([JString("Admin")])]))),
      Claim("sub", "u-1", None) ]
  }

  lemma AdminCallerReads(value: string)
    requires |value| > 0 && value[0] == '{'
    ensures CallerRoles(AdminCaller(value)) == Ok(["Admin"])
    ensures CallerId(AdminCaller(value)) == Some("u-1")
  {
    var claims := AdminCaller(value);
    assert !IsWhiteSpace(value[0]);
    assert FindFirst(claims, RealmAccess) == Some(claims[0]);
    var items := [JString("Admin")];
    assert StringsOrEmpty(items).Ok? && StringsOrEmpty(items).value == ["Admin"];
    var p := (c: Claim) => c.kind == NameIdentifier || c.kind == "sub";
    assert !p(claims[0]) && p(claims[1]);
    assert First(claims, p) == Some(claims[1]);
  }

  /** "Admin" makes a member admin-capable, but the caller check uses
      `List.Contains` and so a caller whose only role is "Admin" gets nothing. */
  lemma CallerCheckIsCaseSensitive(d: Snapshot, value: string)
    requires |value| > 0 && value[0] == '{'
    ensures AnyAdminRole(["Admin"])
    ensures DealersWithGroups(d, AdminCaller(value)) == Ok([])
  {
    assert Fold("Admin") == "admin" by {
      assert Fold("Admin")[0] == FoldChar('A');
    }
    assert IsAdminRole(["Admin"][0]);
    AdminCallerReads(value);
    DealersWithGroupsEmptyForCaller(d, d, AdminCaller(value));
  }

  // ---------------------------------------------------- GetAdminsInGroupAsync

  /** Reference definition: the members whose realm roles make them
      admin-capable, in member order. */
  function AdminFilter(d: Snapshot, users: seq<UserRep>): seq<DealerDto> {
    if users == [] then []
    else
      var roles := RealmRoles(d, users[0].id);
      (if roles.Ok? && AnyAdminRole(roles.value) then [NewDealer(users[0], roles.value)] else [])
        + AdminFilter(d, users[1..])
  }

  predicate RolesReadable(d: Snapshot, users: seq<UserRep>) {
    forall k | 0 <= k < |users| :: RealmRoles(d, users[k].id).Ok?
  }

  predicate AdminAt(d: Snapshot, users: seq<UserRep>, k: int)
    requires 0 <= k < |users|
  {
    RealmRoles(d, users[k].id).Ok? && AnyAdminRole(RealmRoles(d, users[k].id).value)
  }

  lemma {:induction false} AdminsFromIsFilter(d: Snapshot, users: seq<UserRep>, i: nat, acc: seq<DealerDto>)
    requires i <= |users|
    ensures AdminsFrom(d, users, i, acc).Ok? <==> RolesReadable(d, users[i..])
    ensures AdminsFrom(d, users, i, acc).Ok? ==> AdminsFrom(d, users, i, acc).value == acc + AdminFilter(d, users[i..])
    decreases |users| - i
  {
    if i < |users| {
      var roles := RealmRoles(d, users[i].id);
      assert users[i..][0] == users[i];
      assert users[i..][1..] == users[i + 1..];
      assert forall k | 1 <= k < |users[i..]| :: users[i..][k] == users[i + 1..][k - 1];
      if roles.Ok? {
        var acc' := if AnyAdminRole(roles.value) then acc + [NewDealer(users[i], roles.value)] else acc;
        AdminsFromIsFilter(d, users, i + 1, acc');
      }
    }
  }

  lemma {:induction false} AdminFilterMembers(d: Snapshot, users: seq<UserRep>, x: DealerDto)
    ensures x in AdminFilter(d, users) <==>
      exists k | 0 <= k < |users| :: AdminAt(d, users, k) && x == NewDealer(users[k], RealmRoles(d, users[k].id).value)
  {
    if users != [] {
      AdminFilterMembers(d, users[1..], x);
      assert forall k | 1 <= k < |users| :: users[k] == users[1..][k - 1];
      if x in AdminFilter(d, users[1..]) {
        var k :| 0 <= k < |users[1..]| && AdminAt(d, users[1..], k)
          && x == NewDealer(users[1..][k], RealmRoles(d, users[1..][k].id).value);
        assert AdminAt(d, users, k + 1);
      }
    }
  }

  /** GetAdminsInGroupAsync succeeds exactly when the member list and every
      member's roles can be read, and then lists exactly the admin-capable
      members, each once per listing, in member order, with empty group
      fields. */
  lemma AdminsInGroupSpec(d: Snapshot, groupId: string, x: DealerDto)
    ensures AdminsInGroup(d, groupId).Ok? <==> Members(d, groupId).Ok? && RolesReadable(d, Members(d, groupId).value)
    ensures AdminsInGroup(d, groupId).Ok? ==>
      && AdminsInGroup(d, groupId).value == AdminFilter(d, Members(d, groupId).value)
      && (x in AdminsInGroup(d, groupId).value <==>
           var users := Members(d, groupId).value;
           exists k | 0 <= k < |users| :: AdminAt(d, users, k) && x == NewDealer(users[k], RealmRoles(d, users[k].id).value))
  {
    if Members(d, groupId).Ok? {
      var users := Members(d, groupId).value;
      AdminsFromIsFilter(d, users, 0, []);
      assert users[0..] == users;
      AdminFilterMembers(d, users, x);
    }
  }

  // ------------------------------------------ CollectGroupWithAdminsRecursively

  predicate WellLabelled(e: GroupWithAdmins) {
    && |e.dealers| > 0
    && forall x | x in e.dealers :: x.groupId == e.groupId && x.groupName == e.groupName
  }

  /** The entry of a group with admins: a top-level group files its dealers
      under itself with no subgroup; a nested group files them under its
      immediate parent with itself as the subgroup. The dealers keep their
      identity and order. */
  lemma AdminEntryLabels(dealers: seq<DealerDto>, groupId: string, groupName: string, parent: Parent)
    requires |dealers| > 0
    ensures var e := AdminEntry(dealers, groupId, groupName, parent);
      && WellLabelled(e)
      && |e.dealers| == |dealers|
      && (forall k | 0 <= k < |dealers| ::
            e.dealers[k].dealerId == dealers[k].dealerId && e.dealers[k].roles == dealers[k].roles)
      && (parent.None? ==>
            && e.groupId == groupId && e.groupName == groupName
            && forall x | x in e.dealers :: x.subGroupId.None? && x.subGroupName.None?)
      && (parent.Some? ==>
            && e.groupId == parent.value.0 && e.groupName == parent.value.1
            && forall x | x in e.dealers :: x.subGroupId == Some(groupId) && x.subGroupName == Some(groupName))
  {
  }

  /** The walk only appends, and every entry it appends has at least one admin
      and labels each of its dealers with the entry's own group. */
  lemma {:induction false} LabelWalkAppends(d: Snapshot, props: map<string, Json>, parent: Parent, acc: seq<GroupWithAdmins>)
    ensures var r := LabelWalk(d, props, parent, acc);
      r.Ok? ==> && acc <= r.value
                && forall k | |acc| <= k < |r.value| :: WellLabelled(r.value[k])
    decreases JObject(props), 0, 0
  {
    var (okId, groupId) := TryGetNonBlank(ToGroup(props), "id");
    var (okName, groupName) := TryGetNonBlank(ToGroup(props), "name");
    if okId && okName && AdminsInGroup(d, groupId).Ok? {
      var dealers := AdminsInGroup(d, groupId).value;
      var acc1 := if |dealers| > 0 then acc + [AdminEntry(dealers, groupId, groupName, parent)] else acc;
      if |dealers| > 0 {
        AdminEntryLabels(dealers, groupId, groupName, parent);
      }
      if HasSubGroupArray(props) {
        LabelWalkListAppends(d, props["subGroups"].items, 0, Some((groupId, groupName)), acc1);
      }
    }
  }

  lemma {:induction false} LabelWalkListAppends(d: Snapshot, items: seq<Json>, i: nat, parent: Parent, acc: seq<GroupWithAdmins>)
    requires i <= |items|
    ensures var r := LabelWalkList(d, items, i, parent, acc);
      r.Ok? ==> && acc <= r.value
                && forall k | |acc| <= k < |r.value| :: WellLabelled(r.value[k])
    decreases JArray(items), 1, |items| - i
  {
    if i < |items| && DeserializeObject(items[i]).Ok? {
      var sub := DeserializeObject(items[i]).value;
      if sub.None? {
        LabelWalkListAppends(d, items, i + 1, parent, acc);
      } else {
        assert items[i] == JObject(sub.value);
        LabelWalkAppends(d, sub.value, parent, acc);
        var r1 := LabelWalk(d, sub.value, parent, acc);
        if r1.Ok? {
          LabelWalkListAppends(d, items, i + 1, parent, r1.value);
        }
      }
    }
  }

  /** A group with admins is entered before anything from its subgroups
      (pre-order), with the entry AdminEntryLabels describes. */
  lemma NodeEntryFirst(d: Snapshot, props: map<string, Json>, parent: Parent, acc: seq<GroupWithAdmins>,
                       groupId: string, groupName: string)
    requires TryGetNonBlank(ToGroup(props), "id") == (true, groupId)
    requires TryGetNonBlank(ToGroup(props), "name") == (true, groupName)
    requires AdminsInGroup(d, groupId).Ok? && |AdminsInGroup(d, groupId).value| > 0
    requires LabelWalk(d, props, parent, acc).Ok?
    ensures var r := LabelWalk(d, props, parent, acc).value;
      |acc| < |r| && r[|acc|] == AdminEntry(AdminsInGroup(d, groupId).value, groupId, groupName, parent)
  {
    var acc1 := acc + [AdminEntry(AdminsInGroup(d, groupId).value, groupId, groupName, parent)];
    if HasSubGroupArray(props) {
      LabelWalkListAppends(d, props["subGroups"].items, 0, Some((groupId, groupName)), acc1);
    }
  }

  /** A group without a usable id or name is skipped with all its subgroups. */
  lemma UnnamedGroupSkipped(d: Snapshot, props: map<string, Json>, parent: Parent, acc: seq<GroupWithAdmins>, st: Rollup)
    requires !TryGetNonBlank(ToGroup(props), "id").0 || !TryGetNonBlank(ToGroup(props), "name").0
    requires Valid(st.result)
    ensures LabelWalk(d, props, parent, acc) == Ok(acc)
    ensures AdminsWalk(d, props, st) == Ok(st)
  {
  }

  // --------------------------------------------------- Super-admin group map

  /** Every entry is filed under its own group id, and so is every dealer in it. */
  predicate MapInv(m: Dict<GroupWithAdmins>) {
    && Valid(m)
    && forall k | k in m.entries ::
         && m.entries[k].groupId == k
         && forall x | x in m.entries[k].dealers :: x.groupId == k
  }

  /** Entries are only ever added, and dealers only ever appended. */
  predicate MapGrows(a: Dict<GroupWithAdmins>, b: Dict<GroupWithAdmins>) {
    forall k | k in a.entries :: k in b.entries && a.entries[k].dealers <= b.entries[k].dealers
  }

  lemma FiledStays(a: Dict<GroupWithAdmins>, b: Dict<GroupWithAdmins>, k: string, x: DealerDto)
    requires MapGrows(a, b) && k in a.entries && x in a.entries[k].dealers
    ensures k in b.entries && x in b.entries[k].dealers
  {
    var p := a.entries[k].dealers;
    var i :| 0 <= i < |p| && p[i] == x;
    assert b.entries[k].dealers[i] == x;
  }

  /** `u` is listed, with `roles`, in the entry of group `g`. */
  predicate Filed(m: Dict<GroupWithAdmins>, u: UserRep, g: KcGroup, roles: seq<string>) {
    g.id in m.entries && MapDealer(u, g, roles) in m.entries[g.id].dealers
  }

  lemma MapGrowsTrans(a: Dict<GroupWithAdmins>, b: Dict<GroupWithAdmins>, c: Dict<GroupWithAdmins>)
    requires MapGrows(a, b) && MapGrows(b, c)
    ensures MapGrows(a, c)
  {
  }

  /** One step of the inner loop: file `u` under `g`. */
  lemma FileStep(u: UserRep, roles: seq<string>, g: KcGroup, m: Dict<GroupWithAdmins>)
    requires MapInv(m)
    ensures var m1 := if g.id in m.entries then m else Put(m, g.id, GroupWithAdmins(g.id, g.name, []));
      var e := m1.entries[g.id];
      var m2 := Put(m1, g.id, e.(dealers := e.dealers + [MapDealer(u, g, roles)]));
      && MapInv(m2) && MapGrows(m, m2)
      && g.id in m2.entries && MapDealer(u, g, roles) in m2.entries[g.id].dealers
  {
    var m1 := if g.id in m.entries then m else Put(m, g.id, GroupWithAdmins(g.id, g.name, []));
    assert MapInv(m1);
    var e := m1.entries[g.id];
    var e2 := e.(dealers := e.dealers + [MapDealer(u, g, roles)]);
    assert e2.dealers[|e.dealers|] == MapDealer(u, g, roles);
    var m2 := Put(m1, g.id, e2);
    assert m2.entries[g.id] == e2;
    forall k | k in m2.entries
      ensures m2.entries[k].groupId == k && forall x | x in m2.entries[k].dealers :: x.groupId == k
    {
      if k != g.id {
        assert m2.entries[k] == m1.entries[k];
      }
    }
  }

  lemma {:induction false} FileUnderGroupsSpec(u: UserRep, roles: seq<string>, groups: seq<KcGroup>, j: nat, m: Dict<GroupWithAdmins>)
    requires j <= |groups| && MapInv(m)
    ensures var r := FileUnderGroups(u, roles, groups, j, m);
      MapInv(r) && MapGrows(m, r)
    decreases |groups| - j
  {
    if j < |groups| {
      var g := groups[j];
      var m1 := if g.id in m.entries then m else Put(m, g.id, GroupWithAdmins(g.id, g.name, []));
      var e := m1.entries[g.id];
      var m2 := Put(m1, g.id, e.(dealers := e.dealers + [MapDealer(u, g, roles)]));
      FileStep(u, roles, g, m);
      FileUnderGroupsSpec(u, roles, groups, j + 1, m2);
      MapGrowsTrans(m, m2, FileUnderGroups(u, roles, groups, j + 1, m2));
    }
  }

  /** The inner loop files the admin under each of the groups it visits. */
  lemma {:induction false} FileUnderGroupsFiles(u: UserRep, roles: seq<string>, groups: seq<KcGroup>, j: nat, m: Dict<GroupWithAdmins>, jj: nat)
    requires j <= jj < |groups| && MapInv(m)
    ensures Filed(FileUnderGroups(u, roles, groups, j, m), u, groups[jj], roles)
    decreases |groups| - j
  {
    var g := groups[j];
    var m1 := if g.id in m.entries then m else Put(m, g.id, GroupWithAdmins(g.id, g.name, []));
    var e := m1.entries[g.id];
    var m2 := Put(m1, g.id, e.(dealers := e.dealers + [MapDealer(u, g, roles)]));
    FileStep(u, roles, g, m);
    if j < jj {
      FileUnderGroupsFiles(u, roles, groups, j + 1, m2, jj);
    } else {
      FileUnderGroupsSpec(u, roles, groups, j + 1, m2);
      FiledStays(m2, FileUnderGroups(u, roles, groups, j + 1, m2), g.id, MapDealer(u, g, roles));
    }
  }

  predicate AdminGroupsAt(d: Snapshot, users: seq<UserRep>, k: int)
    requires 0 <= k < |users|
  {
    AdminAt(d, users, k) && UserGroups(d, users[k].id).Ok?
  }

  lemma {:induction false} ScanAdminsSpec(d: Snapshot, users: seq<UserRep>, i: nat, m: Dict<GroupWithAdmins>)
    requires i <= |users| && MapInv(m)
    ensures var r := ScanAdmins(d, users, i, m);
      r.Ok? ==> MapInv(r.value) && MapGrows(m, r.value)
    decreases |users| - i
  {
    if i < |users| && RealmRoles(d, users[i].id).Ok? {
      var roles := RealmRoles(d, users[i].id).value;
      if !AnyAdminRole(roles) {
        ScanAdminsSpec(d, users, i + 1, m);
      } else if UserGroups(d, users[i].id).Ok? {
        var groups := UserGroups(d, users[i].id).value;
        var m1 := FileUnderGroups(users[i], roles, groups, 0, m);
        FileUnderGroupsSpec(users[i], roles, groups, 0, m);
        ScanAdminsSpec(d, users, i + 1, m1);
        var r := ScanAdmins(d, users, i + 1, m1);
        if r.Ok? {
          MapGrowsTrans(m, m1, r.value);
        }
      }
    }
  }

  /** No admin is missed: user `k` ends up filed under each of its groups. */
  lemma {:induction false} ScanAdminsComplete(d: Snapshot, users: seq<UserRep>, i: nat, m: Dict<GroupWithAdmins>, k: nat, g: KcGroup)
    requires i <= k < |users| && MapInv(m)
    requires AdminGroupsAt(d, users, k) && g in UserGroups(d, users[k].id).value
    ensures var r := ScanAdmins(d, users, i, m);
      r.Ok? ==> Filed(r.value, users[k], g, RealmRoles(d, users[k].id).value)
    decreases |users| - i
  {
    if RealmRoles(d, users[i].id).Ok? {
      var roles := RealmRoles(d, users[i].id).value;
      if !AnyAdminRole(roles) {
        ScanAdminsComplete(d, users, i + 1, m, k, g);
      } else if UserGroups(d, users[i].id).Ok? {
        var groups := UserGroups(d, users[i].id).value;
        var m1 := FileUnderGroups(users[i], roles, groups, 0, m);
        FileUnderGroupsSpec(users[i], roles, groups, 0, m);
        var r := ScanAdmins(d, users, i + 1, m1);
        assert r == ScanAdmins(d, users, i, m);
        if i < k {
          ScanAdminsComplete(d, users, i + 1, m1, k, g);
        } else if r.Ok? {
          var jj :| 0 <= jj < |groups| && groups[jj] == g;
          FileUnderGroupsFiles(users[i], roles, groups, 0, m, jj);
          ScanAdminsSpec(d, users, i + 1, m1);
          FiledStays(m1, r.value, g.id, MapDealer(users[i], g, roles));
        }
      }
    }
  }

  /** The super-admin branch of GetGroupsWithAdminsAsync: one entry per distinct
      group id; every dealer of an entry carries that entry's id; every
      admin-capable user is filed under each of its groups; and nothing else
      is filed. */
  lemma SuperAdminGroupMap(d: Snapshot, claims: seq<Claim>)
    requires CallerRoles(claims).Ok? && "super-admin" in CallerRoles(claims).value
    requires !IsNullOrWhiteSpace(CallerId(claims))
    requires GroupsWithAdmins(d, claims).Ok?
    ensures var r := GroupsWithAdmins(d, claims).value;
      && (forall i, j | 0 <= i < j < |r| :: r[i].groupId != r[j].groupId)
      && (forall i, x | 0 <= i < |r| && x in r[i].dealers :: x.groupId == r[i].groupId)
      && var users := Users(d).value;
         && (forall k, g | 0 <= k < |users| && AdminGroupsAt(d, users, k) && g in UserGroups(d, users[k].id).value ::
               ListedUnder(r, g.id, MapDealer(users[k], g, RealmRoles(d, users[k].id).value)))
         && (forall i, x | 0 <= i < |r| && x in r[i].dealers :: ScannedDealer(d, users, r[i].groupId, x))
  {
    var users := Users(d).value;
    var m := ScanAdmins(d, users, 0, EmptyDict()).value;
    ScanAdminsSpec(d, users, 0, EmptyDict());
    assert Values(m) == GroupsWithAdmins(d, claims).value;
    GroupMapValues(m);
    ScanAdminsCovers(d, users, m);
    ScanAdminsSound(d, users, 0, EmptyDict());
    forall i, x | 0 <= i < |Values(m)| && x in Values(m)[i].dealers
      ensures ScannedDealer(d, users, Values(m)[i].groupId, x)
    {
      assert Values(m)[i] == m.entries[m.keys[i]];
    }
  }

  /** A group map read out in key order: distinct ids, and every dealer filed
      under its entry's id. */
  lemma GroupMapValues(m: Dict<GroupWithAdmins>)
    requires MapInv(m)
    ensures var r := Values(m);
      && (forall i, j | 0 <= i < j < |r| :: r[i].groupId != r[j].groupId)
      && (forall i, x | 0 <= i < |r| && x in r[i].dealers :: x.groupId == r[i].groupId)
  {
    var r := Values(m);
    forall i, j | 0 <= i < j < |r|
      ensures r[i].groupId != r[j].groupId
    {
      assert r[i].groupId == m.keys[i] && r[j].groupId == m.keys[j];
    }
  }

  /** Some entry of `r` has id `gid` and lists `x`. */
  predicate ListedUnder(r: seq<GroupWithAdmins>, gid: string, x: DealerDto) {
    exists i | 0 <= i < |r| :: r[i].groupId == gid && x in r[i].dealers
  }

  lemma ScanAdminsCovers(d: Snapshot, users: seq<UserRep>, m: Dict<GroupWithAdmins>)
    requires ScanAdmins(d, users, 0, EmptyDict()) == Ok(m) && MapInv(m)
    ensures forall k, g | 0 <= k < |users| && AdminGroupsAt(d, users, k) && g in UserGroups(d, users[k].id).value ::
      ListedUnder(Values(m), g.id, MapDealer(users[k], g, RealmRoles(d, users[k].id).value))
  {
    forall k, g | 0 <= k < |users| && AdminGroupsAt(d, users, k) && g in UserGroups(d, users[k].id).value
      ensures ListedUnder(Values(m), g.id, MapDealer(users[k], g, RealmRoles(d, users[k].id).value))
    {
      ScanAdminsComplete(d, users, 0, EmptyDict(), k, g);
      var i :| 0 <= i < |m.keys| && m.keys[i] == g.id;
      assert Values(m)[i] == m.entries[g.id];
    }
  }

  /** `x` is the dealer the scan makes for an admin-capable user and one of
      that user's groups, whose id is `gid`. */
  predicate ScannedDealer(d: Snapshot, users: seq<UserRep>, gid: string, x: DealerDto) {
    exists k, g | 0 <= k < |users| && AdminGroupsAt(d, users, k) && g in UserGroups(d, users[k].id).value ::
      g.id == gid && x == MapDealer(users[k], g, RealmRoles(d, users[k].id).value)
  }

  /** Every dealer filed in `m` is one the scan makes. */
  predicate MapSound(d: Snapshot, users: seq<UserRep>, m: Dict<GroupWithAdmins>) {
    forall gid, x | gid in m.entries && x in m.entries[gid].dealers :: ScannedDealer(d, users, gid, x)
  }

  /** The inner loop over the groups of admin `users[k]` files nothing but
      that admin under those groups. */
  lemma {:induction false} FileUnderGroupsSound(d: Snapshot, users: seq<UserRep>, k: nat, groups: seq<KcGroup>, j: nat, m: Dict<GroupWithAdmins>)
    requires k < |users| && AdminGroupsAt(d, users, k) && groups == UserGroups(d, users[k].id).value
    requires j <= |groups| && Valid(m) && MapSound(d, users, m)
    ensures MapSound(d, users, FileUnderGroups(users[k], RealmRoles(d, users[k].id).value, groups, j, m))
    decreases |groups| - j
  {
    if j < |groups| {
      var u, roles, g := users[k], RealmRoles(d, users[k].id).value, groups[j];
      var m1 := if g.id in m.entries then m else Put(m, g.id, GroupWithAdmins(g.id, g.name, []));
      var e := m1.entries[g.id];
      var y := MapDealer(u, g, roles);
      var m2 := Put(m1, g.id, e.(dealers := e.dealers + [y]));
      assert ScannedDealer(d, users, g.id, y) by {
        assert g in UserGroups(d, users[k].id).value;
      }
      forall gid, x | gid in m2.entries && x in m2.entries[gid].dealers
        ensures ScannedDealer(d, users, gid, x)
      {
        if gid != g.id {
          assert m2.entries[gid] == m1.entries[gid];
        } else if x != y {
          var p := e.dealers + [y];
          var t :| 0 <= t < |p| && p[t] == x;
          assert x in e.dealers by { assert e.dealers[t] == x; }
        }
      }
      FileUnderGroupsSound(d, users, k, groups, j + 1, m2);
    }
  }

  /** The super-admin loop files nothing but admin-capable users, each under
      one of its own groups. */
  lemma {:induction false} ScanAdminsSound(d: Snapshot, users: seq<UserRep>, i: nat, m: Dict<GroupWithAdmins>)
    requires i <= |users| && Valid(m) && MapSound(d, users, m)
    ensures var r := ScanAdmins(d, users, i, m);
      r.Ok? ==> MapSound(d, users, r.value)
    decreases |users| - i
  {
    if i < |users| && RealmRoles(d, users[i].id).Ok? {
      var roles := RealmRoles(d, users[i].id).value;
      if !AnyAdminRole(roles) {
        ScanAdminsSound(d, users, i + 1, m);
      } else if UserGroups(d, users[i].id).Ok? {
        var groups := UserGroups(d, users[i].id).value;
        FileUnderGroupsSound(d, users, i, groups, 0, m);
        ScanAdminsSound(d, users, i + 1, FileUnderGroups(users[i], roles, groups, 0, m));
      }
    }
  }

  /** The loop over the caller's groups only appends, and every entry it
      appends has admins, each labelled with the entry's group. */
  lemma {:induction false} LabelCallerGroupsAppends(d: Snapshot, groups: seq<KcGroup>, i: nat, acc: seq<GroupWithAdmins>)
    requires i <= |groups|
    ensures var r := LabelCallerGroups(d, groups, i, acc);
      r.Ok? ==> && acc <= r.value
                && forall k | |acc| <= k < |r.value| :: WellLabelled(r.value[k])
    decreases |groups| - i
  {
    if i < |groups| && Details(d, groups[i].id).Ok? && DeserializeObject(Details(d, groups[i].id).value).Ok? {
      var props := DeserializeObject(Details(d, groups[i].id).value).value;
      if props.None? {
        LabelCallerGroupsAppends(d, groups, i + 1, acc);
      } else {
        LabelWalkAppends(d, props.value, None, acc);
        var r1 := LabelWalk(d, props.value, None, acc);
        if r1.Ok? {
          LabelCallerGroupsAppends(d, groups, i + 1, r1.value);
        }
      }
    }
  }

  /** `e` is the entry built from the directory's admins of group `gid`,
      named `name`, under `parent`. */
  predicate EntryFor(d: Snapshot, e: GroupWithAdmins, gid: string, name: string, parent: Parent) {
    && AdminsInGroup(d, gid).Ok? && |AdminsInGroup(d, gid).value| > 0
    && e == AdminEntry(AdminsInGroup(d, gid).value, gid, name, parent)
  }

  /** `gid` is the id of a group the walk from `props` enters: the root when
      it has a usable id and name, or, below such a root, a group reached
      through the elements of its "subGroups" array. */
  ghost predicate InTree(props: map<string, Json>, gid: string)
    decreases JObject(props), 0, 0
  {
    && Usable(props)
    && (gid == TryGetNonBlank(ToGroup(props), "id").1
        || (HasSubGroupArray(props) && InTreeList(props["subGroups"].items, 0, gid)))
  }

  /** `gid` is entered from one of the elements of `items` from `i` on. */
  ghost predicate InTreeList(items: seq<Json>, i: nat, gid: string)
    requires i <= |items|
    decreases JArray(items), 1, |items| - i
  {
    i < |items| && ((items[i].JObject? && InTree(items[i].props, gid)) || InTreeList(items, i + 1, gid))
  }

  /** `e` is built from the directory for a group the walk from `props` enters;
      an entry filed under that group itself is for the root, when the walk was
      started without a parent. */
  ghost predicate WalkEntry(d: Snapshot, e: GroupWithAdmins, parent: Parent, props: map<string, Json>) {
    exists gid, name, p | EntryFor(d, e, gid, name, p) ::
      && InTree(props, gid)
      && (p.None? ==> parent.None? && gid == TryGetNonBlank(ToGroup(props), "id").1)
  }

  /** `e` is built from the directory for a group entered from `items[i..]`,
      and filed under a parent. */
  ghost predicate NestedEntry(d: Snapshot, e: GroupWithAdmins, items: seq<Json>, i: nat)
    requires i <= |items|
  {
    exists gid, name, p | EntryFor(d, e, gid, name, p) :: p.Some? && InTreeList(items, i, gid)
  }

  /** Every entry the walk appends is the AdminEntry of the admins of a group
      the walk enters, and only the root's entry is filed under the group itself. */
  lemma {:induction false} LabelWalkSound(d: Snapshot, props: map<string, Json>, parent: Parent, acc: seq<GroupWithAdmins>)
    ensures var r := LabelWalk(d, props, parent, acc);
      r.Ok? ==> forall k | |acc| <= k < |r.value| :: WalkEntry(d, r.value[k], parent, props)
    decreases JObject(props), 0, 0
  {
    var (okId, groupId) := TryGetNonBlank(ToGroup(props), "id");
    var (okName, groupName) := TryGetNonBlank(ToGroup(props), "name");
    if okId && okName && AdminsInGroup(d, groupId).Ok? {
      var dealers := AdminsInGroup(d, groupId).value;
      var acc1 := if |dealers| > 0 then acc + [AdminEntry(dealers, groupId, groupName, parent)] else acc;
      var items := if HasSubGroupArray(props) then props["subGroups"].items else [];
      if HasSubGroupArray(props) {
        LabelWalkListSound(d, items, 0, Some((groupId, groupName)), acc1);
        LabelWalkListAppends(d, items, 0, Some((groupId, groupName)), acc1);
      }
      var r := LabelWalk(d, props, parent, acc);
      if r.Ok? {
        forall k | |acc| <= k < |r.value|
          ensures WalkEntry(d, r.value[k], parent, props)
        {
          if k < |acc1| {
            assert r.value[k] == acc1[k];
            assert EntryFor(d, acc1[k], groupId, groupName, parent);
            assert InTree(props, groupId);
          } else {
            var gid, name, p :| EntryFor(d, r.value[k], gid, name, p) && p.Some? && InTreeList(items, 0, gid);
            assert InTree(props, gid);
          }
        }
      }
    }
  }

  lemma {:induction false} LabelWalkListSound(d: Snapshot, items: seq<Json>, i: nat, parent: Parent, acc: seq<GroupWithAdmins>)
    requires i <= |items| && parent.Some?
    ensures var r := LabelWalkList(d, items, i, parent, acc);
      r.Ok? ==> forall k | |acc| <= k < |r.value| :: NestedEntry(d, r.value[k], items, i)
    decreases JArray(items), 1, |items| - i
  {
    if i < |items| && DeserializeObject(items[i]).Ok? {
      var sub := DeserializeObject(items[i]).value;
      var r := LabelWalkList(d, items, i, parent, acc);
      if sub.None? {
        LabelWalkListSound(d, items, i + 1, parent, acc);
        assert r == LabelWalkList(d, items, i + 1, parent, acc);
        if r.Ok? {
          forall k | |acc| <= k < |r.value|
            ensures NestedEntry(d, r.value[k], items, i)
          {
            var gid, name, p :| EntryFor(d, r.value[k], gid, name, p) && p.Some? && InTreeList(items, i + 1, gid);
            assert InTreeList(items, i, gid);
          }
        }
      } else {
        assert items[i] == JObject(sub.value);
        LabelWalkSound(d, sub.value, parent, acc);
        var r1 := LabelWalk(d, sub.value, parent, acc);
        if r1.Ok? {
          LabelWalkListSound(d, items, i + 1, parent, r1.value);
          LabelWalkListAppends(d, items, i + 1, parent, r1.value);
          if r.Ok? {
            forall k | |acc| <= k < |r.value|
              ensures NestedEntry(d, r.value[k], items, i)
            {
              if k < |r1.value| {
                assert r.value[k] == r1.value[k];
                var gid, name, p :| EntryFor(d, r1.value[k], gid, name, p) && p.Some? && InTree(sub.value, gid);
                assert InTreeList(items, i, gid);
              } else {
                var gid, name, p :| EntryFor(d, r.value[k], gid, name, p) && p.Some? && InTreeList(items, i + 1, gid);
                assert InTreeList(items, i, gid);
              }
            }
          }
        }
      }
    }
  }

  /** The details of the caller's group `g` read as an object whose walk
      enters `gid`. */
  ghost predicate InCallerTree(d: Snapshot, g: KcGroup, gid: string) {
    && Details(d, g.id).Ok? && DeserializeObject(Details(d, g.id).value).Ok?
    && DeserializeObject(Details(d, g.id).value).value.Some?
    && InTree(DeserializeObject(Details(d, g.id).value).value.value, gid)
  }

  /** `gid` is entered by the walk from the details of one of the caller's
      groups; when `top` holds, it is that caller's group itself. */
  ghost predicate FromCallerGroup(d: Snapshot, groups: seq<KcGroup>, gid: string, top: bool) {
    exists g | g in groups :: InCallerTree(d, g, gid) && (top ==> CallerGroupId(d, g) == Some(gid))
  }

  /** `e` is the AdminEntry of the admins of a group in the subtree of one of
      the caller's groups; filed under that group itself, it is the caller's group. */
  ghost predicate CallerEntry(d: Snapshot, groups: seq<KcGroup>, e: GroupWithAdmins) {
    exists gid, name, p | EntryFor(d, e, gid, name, p) :: FromCallerGroup(d, groups, gid, p.None?)
  }

  /** Every entry the loop over the caller's groups appends comes from the
      subtree of one of those groups. */
  lemma {:induction false} LabelCallerGroupsSound(d: Snapshot, groups: seq<KcGroup>, i: nat, acc: seq<GroupWithAdmins>)
    requires i <= |groups|
    ensures var r := LabelCallerGroups(d, groups, i, acc);
      r.Ok? ==> forall k | |acc| <= k < |r.value| :: CallerEntry(d, groups, r.value[k])
    decreases |groups| - i
  {
    if i < |groups| && Details(d, groups[i].id).Ok? && DeserializeObject(Details(d, groups[i].id).value).Ok? {
      var props := DeserializeObject(Details(d, groups[i].id).value).value;
      if props.None? {
        LabelCallerGroupsSound(d, groups, i + 1, acc);
      } else {
        LabelWalkSound(d, props.value, None, acc);
        var r1 := LabelWalk(d, props.value, None, acc);
        if r1.Ok? {
          LabelCallerGroupsSound(d, groups, i + 1, r1.value);
          LabelCallerGroupsAppends(d, groups, i + 1, r1.value);
          var r := LabelCallerGroups(d, groups, i + 1, r1.value);
          if r.Ok? {
            forall k | |acc| <= k < |r.value|
              ensures CallerEntry(d, groups, r.value[k])
            {
              if k < |r1.value| {
                assert r.value[k] == r1.value[k];
                var gid, name, p :| EntryFor(d, r1.value[k], gid, name, p) && InTree(props.value, gid)
                  && (p.None? ==> gid == TryGetNonBlank(ToGroup(props.value), "id").1);
                assert FromCallerGroup(d, groups, gid, p.None?) by {
                  assert groups[i] in groups && InCallerTree(d, groups[i], gid);
                  if p.None? {
                    assert CallerGroupId(d, groups[i]) == Some(gid);
                  }
                }
              }
            }
          }
        }
      }
    }
  }

  /** Some entry of `r` is the AdminEntry of the directory's admins of `gid`;
      when `top` holds, one filed under `gid` itself. */
  ghost predicate HasEntryFor(d: Snapshot, r: seq<GroupWithAdmins>, gid: string, top: bool) {
    exists i, name, p | 0 <= i < |r| && EntryFor(d, r[i], gid, name, p) :: top ==> p.None?
  }

  lemma EntryKept(d: Snapshot, a: seq<GroupWithAdmins>, b: seq<GroupWithAdmins>, gid: string, top: bool, top': bool)
    requires a <= b && HasEntryFor(d, a, gid, top) && (top' ==> top)
    ensures HasEntryFor(d, b, gid, top')
  {
    var i, name, p :| 0 <= i < |a| && EntryFor(d, a[i], gid, name, p) && (top ==> p.None?);
    assert b[i] == a[i];
  }

  /** No group with admins that the walk enters is missed; the root's entry
      is filed under the root itself when the walk has no parent. */
  lemma {:induction false} LabelWalkComplete(d: Snapshot, props: map<string, Json>, parent: Parent, acc: seq<GroupWithAdmins>, gid: string)
    requires InTree(props, gid) && AdminsInGroup(d, gid).Ok? && |AdminsInGroup(d, gid).value| > 0
    requires LabelWalk(d, props, parent, acc).Ok?
    ensures HasEntryFor(d, LabelWalk(d, props, parent, acc).value, gid,
                        parent.None? && gid == TryGetNonBlank(ToGroup(props), "id").1)
    decreases JObject(props), 0, 0
  {
    var (okId, groupId) := TryGetNonBlank(ToGroup(props), "id");
    var (okName, groupName) := TryGetNonBlank(ToGroup(props), "name");
    var r := LabelWalk(d, props, parent, acc).value;
    if gid == groupId {
      NodeEntryFirst(d, props, parent, acc, groupId, groupName);
      assert EntryFor(d, r[|acc|], gid, groupName, parent);
    } else {
      var dealers := AdminsInGroup(d, groupId).value;
      var acc1 := if |dealers| > 0 then acc + [AdminEntry(dealers, groupId, groupName, parent)] else acc;
      LabelWalkListComplete(d, props["subGroups"].items, 0, Some((groupId, groupName)), acc1, gid);
    }
  }

  lemma {:induction false} LabelWalkListComplete(d: Snapshot, items: seq<Json>, i: nat, parent: Parent, acc: seq<GroupWithAdmins>, gid: string)
    requires i <= |items| && InTreeList(items, i, gid)
    requires AdminsInGroup(d, gid).Ok? && |AdminsInGroup(d, gid).value| > 0
    requires LabelWalkList(d, items, i, parent, acc).Ok?
    ensures HasEntryFor(d, LabelWalkList(d, items, i, parent, acc).value, gid, false)
    decreases JArray(items), 1, |items| - i
  {
    var sub := DeserializeObject(items[i]).value;
    var r := LabelWalkList(d, items, i, parent, acc).value;
    if sub.None? {
      LabelWalkListComplete(d, items, i + 1, parent, acc, gid);
    } else {
      assert items[i] == JObject(sub.value);
      var r1 := LabelWalk(d, sub.value, parent, acc).value;
      if InTree(sub.value, gid) {
        LabelWalkComplete(d, sub.value, parent, acc, gid);
        LabelWalkListAppends(d, items, i + 1, parent, r1);
        EntryKept(d, r1, r, gid, parent.None? && gid == TryGetNonBlank(ToGroup(sub.value), "id").1, false);
      } else {
        LabelWalkListComplete(d, items, i + 1, parent, r1, gid);
      }
    }
  }

  /** The loop over the caller's groups misses no group with admins in the
      subtree of caller group `groups[j]`, and files the caller group itself
      as a top-level entry. */
  lemma {:induction false} LabelCallerGroupsComplete(d: Snapshot, groups: seq<KcGroup>, i: nat, acc: seq<GroupWithAdmins>, j: nat, gid: string)
    requires i <= j < |groups| && InCallerTree(d, groups[j], gid)
    requires AdminsInGroup(d, gid).Ok? && |AdminsInGroup(d, gid).value| > 0
    requires LabelCallerGroups(d, groups, i, acc).Ok?
    ensures HasEntryFor(d, LabelCallerGroups(d, groups, i, acc).value, gid, CallerGroupId(d, groups[j]) == Some(gid))
    decreases |groups| - i
  {
    var props := DeserializeObject(Details(d, groups[i].id).value).value;
    var r := LabelCallerGroups(d, groups, i, acc).value;
    if props.None? {
      LabelCallerGroupsComplete(d, groups, i + 1, acc, j, gid);
    } else {
      var r1 := LabelWalk(d, props.value, None, acc).value;
      if i == j {
        LabelWalkComplete(d, props.value, None, acc, gid);
        LabelCallerGroupsAppends(d, groups, i + 1, r1);
        EntryKept(d, r1, r, gid, gid == TryGetNonBlank(ToGroup(props.value), "id").1, CallerGroupId(d, groups[j]) == Some(gid));
      } else {
        LabelCallerGroupsComplete(d, groups, i + 1, r1, j, gid);
      }
    }
  }

  /** The regular-admin branch of GetGroupsWithAdminsAsync: every entry
      returned has at least one admin, each of its dealers is labelled with
      the entry's group, and it is the AdminEntry of the directory's admins of
      group in the subtree of one of the caller's groups; an entry filed under
      that group itself is for the caller's group. Conversely, every group in
      those subtrees that has admins gets an entry, a top-level one for the
      caller's group itself. */
  lemma RegularAdminGroups(d: Snapshot, claims: seq<Claim>)
    requires CallerRoles(claims).Ok? && "super-admin" !in CallerRoles(claims).value
    requires GroupsWithAdmins(d, claims).Ok?
    ensures forall e | e in GroupsWithAdmins(d, claims).value :: WellLabelled(e)
    ensures !IsNullOrWhiteSpace(CallerId(claims)) ==>
      && UserGroups(d, CallerId(claims).value).Ok?
      && (forall e | e in GroupsWithAdmins(d, claims).value ::
            CallerEntry(d, UserGroups(d, CallerId(claims).value).value, e))
      && forall g, gid | g in UserGroups(d, CallerId(claims).value).value && InCallerTree(d, g, gid)
                         && AdminsInGroup(d, gid).Ok? && |AdminsInGroup(d, gid).value| > 0 ::
           HasEntryFor(d, GroupsWithAdmins(d, claims).value, gid, CallerGroupId(d, g) == Some(gid))
  {
    if !IsNullOrWhiteSpace(CallerId(claims)) {
      var groups := UserGroups(d, CallerId(claims).value).value;
      LabelCallerGroupsAppends(d, groups, 0, []);
      LabelCallerGroupsSound(d, groups, 0, []);
      forall g, gid | g in groups && InCallerTree(d, g, gid) && AdminsInGroup(d, gid).Ok? && |AdminsInGroup(d, gid).value| > 0
        ensures HasEntryFor(d, GroupsWithAdmins(d, claims).value, gid, CallerGroupId(d, g) == Some(gid))
      {
        var j :| 0 <= j < |groups| && groups[j] == g;
        LabelCallerGroupsComplete(d, groups, 0, [], j, gid);
      }
    }
  }

  // ------------------------------------------------ GetDealersWithGroupsAsync

  predicate DistinctGroupIds(gs: seq<GroupInfo>) {
    forall i, j | 0 <= i < j < |gs| :: gs[i].groupId != gs[j].groupId
  }

  /** The `result` dictionary is keyed by member id. */
  predicate KeyedByDealer(m: Dict<DealerWithGroups>) {
    Valid(m) && forall k | k in m.entries :: m.entries[k].dealerId == k
  }

  /** The invariant of the tree walk: distinct processed ids, and no admin with
      a group listed twice. */
  predicate RollupInv(st: Rollup) {
    && KeyedByDealer(st.result)
    && NoDup(st.processed)
    && GroupsDistinct(st.result)
  }

  /** An admin's names, email and roles come from its first encounter and are
      never overwritten; its groups are only appended to. */
  predicate SameProfile(a: DealerWithGroups, b: DealerWithGroups) {
    && a.dealerId == b.dealerId && a.firstName == b.firstName && a.lastName == b.lastName
    && a.email == b.email && a.roles == b.roles && a.groups <= b.groups
  }

  predicate ResultGrows(a: Dict<DealerWithGroups>, b: Dict<DealerWithGroups>) {
    && a.keys <= b.keys
    && forall k | k in a.entries :: k in b.entries && SameProfile(a.entries[k], b.entries[k])
  }

  predicate RollupGrows(a: Rollup, b: Rollup) {
    a.processed <= b.processed && ResultGrows(a.result, b.result)
  }

  lemma ResultGrowsTrans(a: Dict<DealerWithGroups>, b: Dict<DealerWithGroups>, c: Dict<DealerWithGroups>)
    requires ResultGrows(a, b) && ResultGrows(b, c)
    ensures ResultGrows(a, c)
  {
  }

  predicate GroupsDistinct(m: Dict<DealerWithGroups>) {
    forall k | k in m.entries :: DistinctGroupIds(m.entries[k].groups)
  }

  /** First encounter of an admin-capable member: an entry without groups. */
  lemma FirstEncounterStep(m: UserRep, roles: seq<string>, res: Dict<DealerWithGroups>)
    requires KeyedByDealer(res) && GroupsDistinct(res)
    ensures var res1 := if m.id in res.entries then res else Put(res, m.id, NewDealerWithGroups(m, roles));
      KeyedByDealer(res1) && GroupsDistinct(res1) && ResultGrows(res, res1) && m.id in res1.entries
  {
  }

  /** The group is appended to an existing entry unless it is already listed. */
  lemma GroupAppendStep(id: string, groupId: string, groupName: string, res: Dict<DealerWithGroups>)
    requires KeyedByDealer(res) && GroupsDistinct(res) && id in res.entries
    ensures var e := res.entries[id];
      var res2 := if HasGroup(e.groups, groupId) then res
                  else Put(res, id, e.(groups := e.groups + [GroupInfo(groupId, groupName)]));
      KeyedByDealer(res2) && GroupsDistinct(res2) && ResultGrows(res, res2)
  {
    var e := res.entries[id];
    if !HasGroup(e.groups, groupId) {
      var e2 := e.(groups := e.groups + [GroupInfo(groupId, groupName)]);
      assert DistinctGroupIds(e2.groups);
      var res2 := Put(res, id, e2);
      forall k | k in res2.entries
        ensures res2.entries[k].dealerId == k && DistinctGroupIds(res2.entries[k].groups)
      {
        if k != id {
          assert res2.entries[k] == res.entries[k];
        }
      }
    }
  }

  /** One step of the member loop, for an admin-capable member. */
  lemma AddStep(m: UserRep, roles: seq<string>, groupId: string, groupName: string, res: Dict<DealerWithGroups>)
    requires KeyedByDealer(res) && GroupsDistinct(res)
    ensures var res1 := if m.id in res.entries then res else Put(res, m.id, NewDealerWithGroups(m, roles));
      var e := res1.entries[m.id];
      var res2 := if HasGroup(e.groups, groupId) then res1
                  else Put(res1, m.id, e.(groups := e.groups + [GroupInfo(groupId, groupName)]));
      KeyedByDealer(res2) && GroupsDistinct(res2) && ResultGrows(res, res2)
  {
    var res1 := if m.id in res.entries then res else Put(res, m.id, NewDealerWithGroups(m, roles));
    FirstEncounterStep(m, roles, res);
    GroupAppendStep(m.id, groupId, groupName, res1);
    var e := res1.entries[m.id];
    var res2 := if HasGroup(e.groups, groupId) then res1
                else Put(res1, m.id, e.(groups := e.groups + [GroupInfo(groupId, groupName)]));
    ResultGrowsTrans(res, res1, res2);
  }

  lemma {:induction false} AddAdminsFromInv(d: Snapshot, members: seq<UserRep>, i: nat, groupId: string, groupName: string,
                                            res: Dict<DealerWithGroups>)
    requires i <= |members| && KeyedByDealer(res) && GroupsDistinct(res)
    ensures var r := AddAdminsFrom(d, members, i, groupId, groupName, res);
      r.Ok? ==> KeyedByDealer(r.value) && GroupsDistinct(r.value) && ResultGrows(res, r.value)
    decreases |members| - i
  {
    if i < |members| && RealmRoles(d, members[i].id).Ok? {
      var m := members[i];
      var roles := RealmRoles(d, m.id).value;
      if !AnyAdminRole(roles) {
        AddAdminsFromInv(d, members, i + 1, groupId, groupName, res);
      } else {
        var res1 := if m.id in res.entries then res else Put(res, m.id, NewDealerWithGroups(m, roles));
        var e := res1.entries[m.id];
        var res2 := if HasGroup(e.groups, groupId) then res1
                    else Put(res1, m.id, e.(groups := e.groups + [GroupInfo(groupId, groupName)]));
        AddStep(m, roles, groupId, groupName, res);
        AddAdminsFromInv(d, members, i + 1, groupId, groupName, res2);
        var r := AddAdminsFrom(d, members, i + 1, groupId, groupName, res2);
        if r.Ok? {
          ResultGrowsTrans(res, res2, r.value);
        }
      }
    }
  }

  lemma {:induction false} AdminsWalkInv(d: Snapshot, props: map<string, Json>, st: Rollup)
    requires RollupInv(st)
    ensures var r := AdminsWalk(d, props, st);
      r.Ok? ==> RollupInv(r.value) && RollupGrows(st, r.value)
    decreases JObject(props), 0, 0
  {
    var (okId, groupId) := TryGetNonBlank(ToGroup(props), "id");
    var (okName, groupName) := TryGetNonBlank(ToGroup(props), "name");
    if okId && okName && groupId !in st.processed && Members(d, groupId).Ok? {
      var members := Members(d, groupId).value;
      AddAdminsFromInv(d, members, 0, groupId, groupName, st.result);
      var res := AddAdminsFrom(d, members, 0, groupId, groupName, st.result);
      if res.Ok? {
        var st1 := Rollup(res.value, st.processed + [groupId]);
        NoDupAppend(st.processed, groupId);
        assert RollupInv(st1) && RollupGrows(st, st1);
        if HasSubGroupArray(props) {
          AdminsWalkListInv(d, props["subGroups"].items, 0, st1);
          var r := AdminsWalkList(d, props["subGroups"].items, 0, st1);
          if r.Ok? {
            ResultGrowsTrans(st.result, st1.result, r.value.result);
          }
        }
      }
    }
  }

  lemma {:induction false} AdminsWalkListInv(d: Snapshot, items: seq<Json>, i: nat, st: Rollup)
    requires i <= |items| && RollupInv(st)
    ensures var r := AdminsWalkList(d, items, i, st);
      r.Ok? ==> RollupInv(r.value) && RollupGrows(st, r.value)
    decreases JArray(items), 1, |items| - i
  {
    if i < |items| && DeserializeObject(items[i]).Ok? {
      var sub := DeserializeObject(items[i]).value;
      if sub.None? {
        AdminsWalkListInv(d, items, i + 1, st);
      } else {
        assert items[i] == JObject(sub.value);
        AdminsWalkInv(d, sub.value, st);
        var r1 := AdminsWalk(d, sub.value, st);
        if r1.Ok? {
          AdminsWalkListInv(d, items, i + 1, r1.value);
          var r := AdminsWalkList(d, items, i + 1, r1.value);
          if r.Ok? {
            ResultGrowsTrans(st.result, r1.value.result, r.value.result);
          }
        }
      }
    }
  }

  lemma {:induction false} WalkCallerGroupsInv(d: Snapshot, groups: seq<KcGroup>, i: nat, st: Rollup)
    requires i <= |groups| && RollupInv(st)
    ensures var r := WalkCallerGroups(d, groups, i, st);
      r.Ok? ==> RollupInv(r.value) && RollupGrows(st, r.value)
    decreases |groups| - i
  {
    if i < |groups| && Details(d, groups[i].id).Ok? && DeserializeObject(Details(d, groups[i].id).value).Ok? {
      var props := DeserializeObject(Details(d, groups[i].id).value).value;
      if props.None? {
        WalkCallerGroupsInv(d, groups, i + 1, st);
      } else {
        AdminsWalkInv(d, props.value, st);
        var r1 := AdminsWalk(d, props.value, st);
        if r1.Ok? {
          WalkCallerGroupsInv(d, groups, i + 1, r1.value);
          var r := WalkCallerGroups(d, groups, i + 1, r1.value);
          if r.Ok? {
            ResultGrowsTrans(st.result, r1.value.result, r.value.result);
          }
        }
      }
    }
  }

  /** A group whose id was already processed, in this call and across all of
      the caller's groups, is skipped together with its whole subtree. */
  lemma ProcessedGroupSkipped(d: Snapshot, props: map<string, Json>, st: Rollup)
    requires Valid(st.result)
    requires TryGetNonBlank(ToGroup(props), "id").0 && TryGetNonBlank(ToGroup(props), "id").1 in st.processed
    ensures AdminsWalk(d, props, st) == Ok(st)
  {
  }

  /** Case 2 of GetDealersWithGroupsAsync: each admin appears once, and no
      admin lists the same group id twice. */
  lemma CallerGroupsRollup(d: Snapshot, claims: seq<Claim>)
    requires CallerRoles(claims).Ok? && !IsNullOrWhiteSpace(CallerId(claims))
    requires "admin" in CallerRoles(claims).value || "super-admin" in CallerRoles(claims).value
    requires UserGroups(d, CallerId(claims).value).Ok? && |UserGroups(d, CallerId(claims).value).value| > 0
    requires DealersWithGroups(d, claims).Ok?
    ensures var r := DealersWithGroups(d, claims).value;
      && (forall i, j | 0 <= i < j < |r| :: r[i].dealerId != r[j].dealerId)
      && (forall i | 0 <= i < |r| :: DistinctGroupIds(r[i].groups))
  {
    var groups := UserGroups(d, CallerId(claims).value).value;
    var st0 := Rollup(EmptyDict(), []);
    WalkCallerGroupsInv(d, groups, 0, st0);
    var st := WalkCallerGroups(d, groups, 0, st0).value;
    assert DealersWithGroups(d, claims).value == Values(st.result);
    DealerMapValues(st.result);
  }

  /** A dealer map read out in key order: distinct dealer ids, and no dealer
      with a group listed twice. */
  lemma DealerMapValues(m: Dict<DealerWithGroups>)
    requires KeyedByDealer(m) && GroupsDistinct(m)
    ensures var r := Values(m);
      && (forall i, j | 0 <= i < j < |r| :: r[i].dealerId != r[j].dealerId)
      && (forall i | 0 <= i < |r| :: DistinctGroupIds(r[i].groups))
  {
    KeyedValues(m);
  }

  /** The list a dictionary keyed by dealer id returns names each dealer
      once: an entry is listed exactly when it is stored under its key. */
  lemma KeyedValues(m: Dict<DealerWithGroups>)
    requires KeyedByDealer(m)
    ensures var r := Values(m);
      && (forall i, j | 0 <= i < j < |r| :: r[i].dealerId != r[j].dealerId)
      && (forall i | 0 <= i < |r| :: r[i].dealerId in m.entries && m.entries[r[i].dealerId] == r[i])
      && (forall key | key in m.entries :: exists i | 0 <= i < |r| :: r[i] == m.entries[key])
  {
    var r := Values(m);
    forall i, j | 0 <= i < j < |r|
      ensures r[i].dealerId != r[j].dealerId
    {
      assert r[i].dealerId == m.keys[i] && r[j].dealerId == m.keys[j];
    }
    forall key | key in m.entries
      ensures exists i | 0 <= i < |r| :: r[i] == m.entries[key]
    {
      var i :| 0 <= i < |m.keys| && m.keys[i] == key;
      assert r[i] == m.entries[key];
    }
  }

  // ------------------------------------------- Case 2: no admin of a walked group is missed

  predicate AdminMember(d: Snapshot, m: UserRep) {
    RealmRoles(d, m.id).Ok? && AnyAdminRole(RealmRoles(d, m.id).value)
  }

  /** The dictionary holds an entry for `id` that lists the group `gid`. */
  predicate ListsWithGroup(res: Dict<DealerWithGroups>, id: string, gid: string) {
    id in res.entries && HasGroup(res.entries[id].groups, gid)
  }

  /** Every admin-capable member of group `gid` is listed with it. */
  predicate GroupCovered(d: Snapshot, res: Dict<DealerWithGroups>, gid: string) {
    Members(d, gid).Ok? && forall m | m in Members(d, gid).value && AdminMember(d, m) :: ListsWithGroup(res, m.id, gid)
  }

  /** Every processed group is covered. */
  predicate Covered(d: Snapshot, st: Rollup) {
    forall gid | gid in st.processed :: GroupCovered(d, st.result, gid)
  }

  lemma ListsWithGroupGrows(a: Dict<DealerWithGroups>, b: Dict<DealerWithGroups>, id: string, gid: string)
    requires ResultGrows(a, b) && ListsWithGroup(a, id, gid)
    ensures ListsWithGroup(b, id, gid)
  {
    var k :| 0 <= k < |a.entries[id].groups| && a.entries[id].groups[k].groupId == gid;
    assert b.entries[id].groups[k] == a.entries[id].groups[k];
  }

  lemma CoveredGrows(d: Snapshot, a: Rollup, b: Rollup)
    requires Covered(d, a) && RollupGrows(a, b)
    ensures forall gid | gid in a.processed :: GroupCovered(d, b.result, gid)
  {
    forall gid, m | gid in a.processed && Members(d, gid).Ok? && m in Members(d, gid).value && AdminMember(d, m)
      ensures ListsWithGroup(b.result, m.id, gid)
    {
      ListsWithGroupGrows(a.result, b.result, m.id, gid);
    }
  }

  /** The member loop lists every admin-capable member from `i` on with the
      group. */
  lemma {:induction false} AddAdminsFromCovers(d: Snapshot, members: seq<UserRep>, i: nat, groupId: string, groupName: string,
                                               res: Dict<DealerWithGroups>)
    requires i <= |members| && KeyedByDealer(res) && GroupsDistinct(res)
    ensures var r := AddAdminsFrom(d, members, i, groupId, groupName, res);
      r.Ok? ==> forall k | i <= k < |members| && AdminMember(d, members[k]) :: ListsWithGroup(r.value, members[k].id, groupId)
    decreases |members| - i
  {
    if i < |members| && RealmRoles(d, members[i].id).Ok? {
      var m := members[i];
      var roles := RealmRoles(d, m.id).value;
      if !AnyAdminRole(roles) {
        AddAdminsFromCovers(d, members, i + 1, groupId, groupName, res);
      } else {
        var res1 := if m.id in res.entries then res else Put(res, m.id, NewDealerWithGroups(m, roles));
        var e := res1.entries[m.id];
        var res2 := if HasGroup(e.groups, groupId) then res1
                    else Put(res1, m.id, e.(groups := e.groups + [GroupInfo(groupId, groupName)]));
        assert ListsWithGroup(res2, m.id, groupId) by {
          if !HasGroup(e.groups, groupId) {
            assert res2.entries[m.id].groups[|e.groups|].groupId == groupId;
          }
        }
        AddStep(m, roles, groupId, groupName, res);
        AddAdminsFromCovers(d, members, i + 1, groupId, groupName, res2);
        AddAdminsFromInv(d, members, i + 1, groupId, groupName, res2);
        var r := AddAdminsFrom(d, members, i + 1, groupId, groupName, res2);
        if r.Ok? {
          ListsWithGroupGrows(res2, r.value, m.id, groupId);
        }
      }
    }
  }

  /** The group `props` deserializes to has a usable id and name. */
  predicate Usable(props: map<string, Json>) {
    TryGetNonBlank(ToGroup(props), "id").0 && TryGetNonBlank(ToGroup(props), "name").0
  }

  /** Every element of `items` from `i` on that is an object with a usable id
      and name has its id in `processed`. */
  predicate ItemsProcessed(items: seq<Json>, i: nat, processed: seq<string>) {
    forall j | i <= j < |items| && items[j].JObject? && Usable(items[j].props) ::
      TryGetNonBlank(ToGroup(items[j].props), "id").1 in processed
  }

  /** The walk keeps every processed group covered and covers the ones it
      adds. A group with a usable id and name ends up processed, and when it
      was not processed before, so does each usable element of its
      subGroups. */
  lemma {:induction false} AdminsWalkCovers(d: Snapshot, props: map<string, Json>, st: Rollup)
    requires RollupInv(st) && Covered(d, st)
    ensures var r := AdminsWalk(d, props, st);
      r.Ok? ==>
        && Covered(d, r.value)
        && (Usable(props) ==> TryGetNonBlank(ToGroup(props), "id").1 in r.value.processed)
        && (Usable(props) && TryGetNonBlank(ToGroup(props), "id").1 !in st.processed && HasSubGroupArray(props) ==>
              ItemsProcessed(props["subGroups"].items, 0, r.value.processed))
    decreases JObject(props), 0, 0
  {
    var (okId, groupId) := TryGetNonBlank(ToGroup(props), "id");
    var (okName, groupName) := TryGetNonBlank(ToGroup(props), "name");
    if okId && okName && groupId !in st.processed && Members(d, groupId).Ok? {
      var members := Members(d, groupId).value;
      AddAdminsFromInv(d, members, 0, groupId, groupName, st.result);
      AddAdminsFromCovers(d, members, 0, groupId, groupName, st.result);
      var res := AddAdminsFrom(d, members, 0, groupId, groupName, st.result);
      if res.Ok? {
        var st1 := Rollup(res.value, st.processed + [groupId]);
        NoDupAppend(st.processed, groupId);
        assert RollupInv(st1) && RollupGrows(st, st1);
        CoveredGrows(d, st, st1);
        assert GroupCovered(d, st1.result, groupId) by {
          forall m | m in members && AdminMember(d, m)
            ensures ListsWithGroup(res.value, m.id, groupId)
          {
            var k :| 0 <= k < |members| && members[k] == m;
          }
        }
        assert Covered(d, st1);
        if HasSubGroupArray(props) {
          AdminsWalkListCovers(d, props["subGroups"].items, 0, st1);
          var r := AdminsWalkList(d, props["subGroups"].items, 0, st1);
          if r.Ok? {
            assert r.value.processed[|st.processed|] == groupId;
          }
        }
      }
    }
  }

  lemma {:induction false} AdminsWalkListCovers(d: Snapshot, items: seq<Json>, i: nat, st: Rollup)
    requires i <= |items| && RollupInv(st) && Covered(d, st)
    ensures var r := AdminsWalkList(d, items, i, st);
      r.Ok? ==> && Covered(d, r.value) && st.processed <= r.value.processed
                && ItemsProcessed(items, i, r.value.processed)
    decreases JArray(items), 1, |items| - i
  {
    if i < |items| && DeserializeObject(items[i]).Ok? {
      var sub := DeserializeObject(items[i]).value;
      if sub.None? {
        AdminsWalkListCovers(d, items, i + 1, st);
        assert !items[i].JObject?;
      } else {
        assert items[i] == JObject(sub.value);
        AdminsWalkInv(d, sub.value, st);
        AdminsWalkCovers(d, sub.value, st);
        var r1 := AdminsWalk(d, sub.value, st);
        if r1.Ok? {
          AdminsWalkListCovers(d, items, i + 1, r1.value);
          var r := AdminsWalkList(d, items, i + 1, r1.value);
          if r.Ok? && Usable(sub.value) {
            assert TryGetNonBlank(ToGroup(sub.value), "id").1 in r.value.processed;
          }
        }
      }
    }
  }

  /** The id case 2 reads from the details of the caller's group `g`, when
      they are an object with a usable id and name. */
  function CallerGroupId(d: Snapshot, g: KcGroup): Option<string> {
    var body := Details(d, g.id);
    if body.Ok? && DeserializeObject(body.value).Ok? && DeserializeObject(body.value).value.Some?
       && Usable(DeserializeObject(body.value).value.value)
    then Some(TryGetNonBlank(ToGroup(DeserializeObject(body.value).value.value), "id").1)
    else None
  }

  /** The caller's group `g` was processed, when its details give an id. */
  predicate CallerGroupProcessed(d: Snapshot, g: KcGroup, processed: seq<string>) {
    CallerGroupId(d, g).Some? ==> CallerGroupId(d, g).value in processed
  }

  lemma {:induction false} WalkCallerGroupsCovers(d: Snapshot, groups: seq<KcGroup>, i: nat, st: Rollup)
    requires i <= |groups| && RollupInv(st) && Covered(d, st)
    ensures var r := WalkCallerGroups(d, groups, i, st);
      r.Ok? ==> && Covered(d, r.value) && st.processed <= r.value.processed
                && forall j | i <= j < |groups| :: CallerGroupProcessed(d, groups[j], r.value.processed)
    decreases |groups| - i
  {
    if i < |groups| && Details(d, groups[i].id).Ok? && DeserializeObject(Details(d, groups[i].id).value).Ok? {
      var props := DeserializeObject(Details(d, groups[i].id).value).value;
      if props.None? {
        WalkCallerGroupsCovers(d, groups, i + 1, st);
      } else {
        AdminsWalkInv(d, props.value, st);
        AdminsWalkCovers(d, props.value, st);
        var r1 := AdminsWalk(d, props.value, st);
        if r1.Ok? {
          WalkCallerGroupsCovers(d, groups, i + 1, r1.value);
        }
      }
    }
  }

  /** Some dealer of `r` is `id` and lists the group `gid`. */
  predicate ListedWithGroup(r: seq<DealerWithGroups>, id: string, gid: string) {
    exists j | 0 <= j < |r| :: r[j].dealerId == id && HasGroup(r[j].groups, gid)
  }

  /** A covered group's admins are in the list the dictionary returns. */
  lemma CoveredValues(d: Snapshot, st: Rollup, gid: string, m: UserRep)
    requires KeyedByDealer(st.result) && Covered(d, st) && gid in st.processed
    requires Members(d, gid).Ok? && m in Members(d, gid).value && AdminMember(d, m)
    ensures ListedWithGroup(Values(st.result), m.id, gid)
  {
    assert GroupCovered(d, st.result, gid);
    var j :| 0 <= j < |st.result.keys| && st.result.keys[j] == m.id;
    assert Values(st.result)[j] == st.result.entries[m.id];
  }

  /** The shared walk over the caller's groups, from an empty result, lists
      every admin of each caller group whose details give an id. */
  lemma WalkCallerGroupsListed(d: Snapshot, groups: seq<KcGroup>)
    requires WalkCallerGroups(d, groups, 0, Rollup(EmptyDict(), [])).Ok?
    ensures var st := WalkCallerGroups(d, groups, 0, Rollup(EmptyDict(), [])).value;
      forall g, gid, m | g in groups && CallerGroupId(d, g) == Some(gid) && Members(d, gid).Ok? && m in Members(d, gid).value && AdminMember(d, m) ::
        ListedWithGroup(Values(st.result), m.id, gid)
  {
    var st0 := Rollup(EmptyDict(), []);
    WalkCallerGroupsInv(d, groups, 0, st0);
    WalkCallerGroupsCovers(d, groups, 0, st0);
    var st := WalkCallerGroups(d, groups, 0, st0).value;
    forall g, gid, m | g in groups && CallerGroupId(d, g) == Some(gid) && Members(d, gid).Ok? && m in Members(d, gid).value && AdminMember(d, m)
      ensures ListedWithGroup(Values(st.result), m.id, gid)
    {
      var i :| 0 <= i < |groups| && groups[i] == g;
      assert CallerGroupProcessed(d, groups[i], st.processed);
      CoveredValues(d, st, gid, m);
    }
  }

  /** Case 2 of GetDealersWithGroupsAsync: for each of the caller's groups
      whose details read as an object with a usable id and name, every
      admin-capable member of that group is returned, listed with the group. */
  lemma CallerGroupsCovered(d: Snapshot, claims: seq<Claim>)
    requires CallerRoles(claims).Ok? && !IsNullOrWhiteSpace(CallerId(claims))
    requires "admin" in CallerRoles(claims).value || "super-admin" in CallerRoles(claims).value
    requires UserGroups(d, CallerId(claims).value).Ok? && |UserGroups(d, CallerId(claims).value).value| > 0
    requires DealersWithGroups(d, claims).Ok?
    ensures forall g, gid, m | g in UserGroups(d, CallerId(claims).value).value
                               && CallerGroupId(d, g) == Some(gid) && Members(d, gid).Ok?
                               && m in Members(d, gid).value && AdminMember(d, m) ::
      ListedWithGroup(DealersWithGroups(d, claims).value, m.id, gid)
  {
    var groups := UserGroups(d, CallerId(claims).value).value;
    var st0 := Rollup(EmptyDict(), []);
    assert DealersWithGroups(d, claims).value == Values(WalkCallerGroups(d, groups, 0, st0).value.result);
    WalkCallerGroupsListed(d, groups);
  }

  // --------------------------------------------- Case 2: nothing else returned

  /** Some admin-capable member of group `gid` has the id `k`. */
  predicate AdminMemberOf(d: Snapshot, gid: string, k: string) {
    Members(d, gid).Ok? && exists m | m in Members(d, gid).value :: m.id == k && AdminMember(d, m)
  }

  /** The entry was made, at its first encounter, from an admin-capable member
      of its first group: that member's id, names and email, and its realm roles. */
  predicate ProfileFrom(d: Snapshot, e: DealerWithGroups) {
    && |e.groups| > 0 && Members(d, e.groups[0].groupId).Ok?
    && exists m | m in Members(d, e.groups[0].groupId).value ::
         AdminMember(d, m) && e == NewDealerWithGroups(m, RealmRoles(d, m.id).value).(groups := e.groups)
  }

  /** The dealer's profile comes from an admin-capable member, and the dealer
      is an admin-capable member of every group listed with it. */
  predicate DealerSound(d: Snapshot, e: DealerWithGroups) {
    ProfileFrom(d, e) && forall gi | gi in e.groups :: AdminMemberOf(d, gi.groupId, e.dealerId)
  }

  /** A sound entry whose groups are all among `processed`. */
  predicate EntrySound(d: Snapshot, e: DealerWithGroups, processed: seq<string>) {
    DealerSound(d, e) && forall gi | gi in e.groups :: gi.groupId in processed
  }

  /** Every entry is sound and stored under its dealer id, and every group
      listed with an admin was processed. */
  predicate RollupSound(d: Snapshot, st: Rollup) {
    forall k | k in st.result.entries ::
      st.result.entries[k].dealerId == k && EntrySound(d, st.result.entries[k], st.processed)
  }

  /** Storing a sound entry under `k` keeps the roll-up sound when every other
      entry is. */
  lemma PutSound(d: Snapshot, res: Dict<DealerWithGroups>, allowed: seq<string>, k: string, e: DealerWithGroups)
    requires Valid(res) && e.dealerId == k && EntrySound(d, e, allowed)
    requires forall k' | k' in res.entries && k' != k :: res.entries[k'].dealerId == k' && EntrySound(d, res.entries[k'], allowed)
    ensures RollupSound(d, Rollup(Put(res, k, e), allowed))
  {
  }

  /** The entry an admin-capable member of a processed group gets at its first
      encounter, once the group is added. */
  lemma NewEntrySound(d: Snapshot, m: UserRep, gi: GroupInfo, allowed: seq<string>)
    requires Members(d, gi.groupId).Ok? && m in Members(d, gi.groupId).value && AdminMember(d, m)
    requires gi.groupId in allowed
    ensures EntrySound(d, NewDealerWithGroups(m, RealmRoles(d, m.id).value).(groups := [gi]), allowed)
  {
    var e := NewDealerWithGroups(m, RealmRoles(d, m.id).value).(groups := [gi]);
    assert e.groups[0] == gi;
    assert AdminMemberOf(d, gi.groupId, m.id);
  }

  /** Appending a processed group the dealer is an admin member of keeps its
      entry sound. */
  lemma ExtendedEntrySound(d: Snapshot, e: DealerWithGroups, gi: GroupInfo, allowed: seq<string>)
    requires EntrySound(d, e, allowed) && AdminMemberOf(d, gi.groupId, e.dealerId) && gi.groupId in allowed
    ensures EntrySound(d, e.(groups := e.groups + [gi]), allowed)
  {
    var e2 := e.(groups := e.groups + [gi]);
    var m0 :| m0 in Members(d, e.groups[0].groupId).value && AdminMember(d, m0)
              && e == NewDealerWithGroups(m0, RealmRoles(d, m0.id).value).(groups := e.groups);
    assert e2.groups[0] == e.groups[0];
    assert e2 == NewDealerWithGroups(m0, RealmRoles(d, m0.id).value).(groups := e2.groups);
    forall g | g in e2.groups
      ensures AdminMemberOf(d, g.groupId, e2.dealerId) && g.groupId in allowed
    {
      if g != gi {
        assert g in e.groups;
      }
    }
  }

  /** One step of the member loop, for an admin-capable member `m` of `groupId`. */
  lemma AddStepSound(d: Snapshot, m: UserRep, groupId: string, groupName: string, res: Dict<DealerWithGroups>, allowed: seq<string>)
    requires Valid(res) && RollupSound(d, Rollup(res, allowed)) && groupId in allowed
    requires Members(d, groupId).Ok? && m in Members(d, groupId).value && AdminMember(d, m)
    ensures var roles := RealmRoles(d, m.id).value;
      var res1 := if m.id in res.entries then res else Put(res, m.id, NewDealerWithGroups(m, roles));
      var e := res1.entries[m.id];
      var res2 := if HasGroup(e.groups, groupId) then res1
                  else Put(res1, m.id, e.(groups := e.groups + [GroupInfo(groupId, groupName)]));
      RollupSound(d, Rollup(res2, allowed))
  {
    var roles := RealmRoles(d, m.id).value;
    var gi := GroupInfo(groupId, groupName);
    if m.id !in res.entries {
      var res1 := Put(res, m.id, NewDealerWithGroups(m, roles));
      assert !HasGroup(res1.entries[m.id].groups, groupId);
      NewEntrySound(d, m, gi, allowed);
      assert res1.entries[m.id].(groups := res1.entries[m.id].groups + [gi]) == NewDealerWithGroups(m, roles).(groups := [gi]);
      PutSound(d, res1, allowed, m.id, NewDealerWithGroups(m, roles).(groups := [gi]));
    } else if !HasGroup(res.entries[m.id].groups, groupId) {
      var e := res.entries[m.id];
      assert EntrySound(d, e, allowed);
      assert AdminMemberOf(d, groupId, e.dealerId);
      ExtendedEntrySound(d, e, gi, allowed);
      PutSound(d, res, allowed, m.id, e.(groups := e.groups + [gi]));
    }
  }

  /** The member loop of group `groupId` lists nobody but admin-capable
      members of that group. */
  lemma {:induction false} AddAdminsFromSound(d: Snapshot, members: seq<UserRep>, i: nat, groupId: string, groupName: string,
                                              res: Dict<DealerWithGroups>, allowed: seq<string>)
    requires i <= |members| && Members(d, groupId) == Ok(members)
    requires Valid(res) && RollupSound(d, Rollup(res, allowed)) && groupId in allowed
    ensures var r := AddAdminsFrom(d, members, i, groupId, groupName, res);
      r.Ok? ==> RollupSound(d, Rollup(r.value, allowed))
    decreases |members| - i
  {
    if i < |members| && RealmRoles(d, members[i].id).Ok? {
      var m := members[i];
      var roles := RealmRoles(d, m.id).value;
      if !AnyAdminRole(roles) {
        AddAdminsFromSound(d, members, i + 1, groupId, groupName, res, allowed);
      } else {
        var res1 := if m.id in res.entries then res else Put(res, m.id, NewDealerWithGroups(m, roles));
        var e := res1.entries[m.id];
        var res2 := if HasGroup(e.groups, groupId) then res1
                    else Put(res1, m.id, e.(groups := e.groups + [GroupInfo(groupId, groupName)]));
        AddStepSound(d, m, groupId, groupName, res, allowed);
        AddAdminsFromSound(d, members, i + 1, groupId, groupName, res2, allowed);
      }
    }
  }

  /** The tree walk keeps the roll-up sound, and every group it processes is
      one the walk from `props` enters. */
  lemma {:induction false} AdminsWalkSound(d: Snapshot, props: map<string, Json>, st: Rollup)
    requires Valid(st.result) && RollupSound(d, st)
    ensures var r := AdminsWalk(d, props, st);
      r.Ok? ==> && RollupSound(d, r.value) && st.processed <= r.value.processed
                && forall p | p in r.value.processed :: p in st.processed || InTree(props, p)
    decreases JObject(props), 0, 0
  {
    var (okId, groupId) := TryGetNonBlank(ToGroup(props), "id");
    var (okName, groupName) := TryGetNonBlank(ToGroup(props), "name");
    if okId && okName && groupId !in st.processed && Members(d, groupId).Ok? {
      var members := Members(d, groupId).value;
      var allowed := st.processed + [groupId];
      assert RollupSound(d, Rollup(st.result, allowed));
      AddAdminsFromSound(d, members, 0, groupId, groupName, st.result, allowed);
      var res := AddAdminsFrom(d, members, 0, groupId, groupName, st.result);
      if res.Ok? {
        var st1 := Rollup(res.value, allowed);
        assert InTree(props, groupId);
        if HasSubGroupArray(props) {
          var items := props["subGroups"].items;
          AdminsWalkListSound(d, items, 0, st1);
          var r := AdminsWalkList(d, items, 0, st1);
          if r.Ok? {
            forall p | p in r.value.processed
              ensures p in st.processed || InTree(props, p)
            {
              if p !in st1.processed {
                assert InTreeList(items, 0, p);
              }
            }
          }
        }
      }
    }
  }

  lemma {:induction false} AdminsWalkListSound(d: Snapshot, items: seq<Json>, i: nat, st: Rollup)
    requires i <= |items| && Valid(st.result) && RollupSound(d, st)
    ensures var r := AdminsWalkList(d, items, i, st);
      r.Ok? ==> && RollupSound(d, r.value) && st.processed <= r.value.processed
                && forall p | p in r.value.processed :: p in st.processed || InTreeList(items, i, p)
    decreases JArray(items), 1, |items| - i
  {
    if i < |items| && DeserializeObject(items[i]).Ok? {
      var sub := DeserializeObject(items[i]).value;
      var r := AdminsWalkList(d, items, i, st);
      if sub.None? {
        AdminsWalkListSound(d, items, i + 1, st);
        assert r == AdminsWalkList(d, items, i + 1, st);
        if r.Ok? {
          forall p | p in r.value.processed
            ensures p in st.processed || InTreeList(items, i, p)
          {
          }
        }
      } else {
        assert items[i] == JObject(sub.value);
        AdminsWalkSound(d, sub.value, st);
        var r1 := AdminsWalk(d, sub.value, st);
        if r1.Ok? {
          AdminsWalkListSound(d, items, i + 1, r1.value);
          if r.Ok? {
            forall p | p in r.value.processed
              ensures p in st.processed || InTreeList(items, i, p)
            {
            }
          }
        }
      }
    }
  }

  /** The loop over the caller's groups keeps the roll-up sound, and every
      group it processes lies in the subtree of one of the caller's groups. */
  lemma {:induction false} WalkCallerGroupsSound(d: Snapshot, groups: seq<KcGroup>, i: nat, st: Rollup)
    requires i <= |groups| && Valid(st.result) && RollupSound(d, st)
    ensures var r := WalkCallerGroups(d, groups, i, st);
      r.Ok? ==> && RollupSound(d, r.value) && st.processed <= r.value.processed
                && forall p | p in r.value.processed :: p in st.processed || FromCallerGroup(d, groups, p, false)
    decreases |groups| - i
  {
    if i < |groups| && Details(d, groups[i].id).Ok? && DeserializeObject(Details(d, groups[i].id).value).Ok? {
      var props := DeserializeObject(Details(d, groups[i].id).value).value;
      if props.None? {
        WalkCallerGroupsSound(d, groups, i + 1, st);
      } else {
        AdminsWalkSound(d, props.value, st);
        var r1 := AdminsWalk(d, props.value, st);
        if r1.Ok? {
          WalkCallerGroupsSound(d, groups, i + 1, r1.value);
          var r := WalkCallerGroups(d, groups, i + 1, r1.value);
          if r.Ok? {
            forall p | p in r.value.processed
              ensures p in st.processed || FromCallerGroup(d, groups, p, false)
            {
              if p in r1.value.processed && p !in st.processed {
                assert groups[i] in groups && InCallerTree(d, groups[i], p);
              }
            }
          }
        }
      }
    }
  }

  /** Case 2 of GetDealersWithGroupsAsync, the converse of CallerGroupsCovered:
      every dealer returned was made from an admin-capable member of its first
      group and is an admin-capable member of each group listed with it, and
      each such group lies in the subtree of one of the caller's groups. */
  lemma CallerGroupsSound(d: Snapshot, claims: seq<Claim>)
    requires CallerRoles(claims).Ok? && !IsNullOrWhiteSpace(CallerId(claims))
    requires "admin" in CallerRoles(claims).value || "super-admin" in CallerRoles(claims).value
    requires UserGroups(d, CallerId(claims).value).Ok? && |UserGroups(d, CallerId(claims).value).value| > 0
    requires DealersWithGroups(d, claims).Ok?
    ensures forall x | x in DealersWithGroups(d, claims).value ::
      && DealerSound(d, x)
      && forall gi | gi in x.groups :: FromCallerGroup(d, UserGroups(d, CallerId(claims).value).value, gi.groupId, false)
  {
    var groups := UserGroups(d, CallerId(claims).value).value;
    var st0 := Rollup(EmptyDict(), []);
    WalkCallerGroupsSound(d, groups, 0, st0);
    var st := WalkCallerGroups(d, groups, 0, st0).value;
    assert DealersWithGroups(d, claims).value == Values(st.result);
    SoundValues(d, groups, st);
  }

  /** A sound roll-up, read out in key order, whose processed groups all lie
      in the caller groups' subtrees. */
  lemma SoundValues(d: Snapshot, groups: seq<KcGroup>, st: Rollup)
    requires Valid(st.result) && RollupSound(d, st)
    requires forall p | p in st.processed :: FromCallerGroup(d, groups, p, false)
    ensures forall x | x in Values(st.result) ::
      DealerSound(d, x) && forall gi | gi in x.groups :: FromCallerGroup(d, groups, gi.groupId, false)
  {
    forall x | x in Values(st.result)
      ensures DealerSound(d, x) && forall gi | gi in x.groups :: FromCallerGroup(d, groups, gi.groupId, false)
    {
      var i :| 0 <= i < |Values(st.result)| && Values(st.result)[i] == x;
      assert x == st.result.entries[st.result.keys[i]];
    }
  }

  /** Case 1 can succeed from user `i` on: every remaining user's realm roles
      read, and every admin-capable one's groups read too. */
  predicate ScanReadable(d: Snapshot, users: seq<UserRep>, i: nat) {
    forall k | i <= k < |users| ::
      RealmRoles(d, users[k].id).Ok? && (AdminAt(d, users, k) ==> UserGroups(d, users[k].id).Ok?)
  }

  /** One admin's step keeps the dictionary keyed by dealer id, keeps every
      earlier profile with its groups, and adds no key but the admin's. */
  lemma AdminWithGroupsGrows(u: UserRep, roles: seq<string>, groups: seq<KcGroup>, res: Dict<DealerWithGroups>)
    requires KeyedByDealer(res)
    ensures var r := AdminWithGroups(u, roles, groups, res);
      && KeyedByDealer(r) && ResultGrows(res, r)
      && u.id in r.entries
      && forall key | key in r.entries :: key in res.entries || key == u.id
  {
    var res1 := if u.id in res.entries then res else Put(res, u.id, NewDealerWithGroups(u, roles));
    var e := res1.entries[u.id];
    assert e.groups <= e.groups + GroupInfos(groups);
  }

  /** One admin's step lists all of the admin's groups in its entry. */
  lemma AdminWithGroupsLists(u: UserRep, roles: seq<string>, groups: seq<KcGroup>, res: Dict<DealerWithGroups>)
    requires Valid(res)
    ensures forall g | g in groups :: GroupInfo(g.id, g.name) in AdminWithGroups(u, roles, groups, res).entries[u.id].groups
  {
    var res1 := if u.id in res.entries then res else Put(res, u.id, NewDealerWithGroups(u, roles));
    var e := res1.entries[u.id];
    var infos := GroupInfos(groups);
    forall g | g in groups
      ensures GroupInfo(g.id, g.name) in AdminWithGroups(u, roles, groups, res).entries[u.id].groups
    {
      var j :| 0 <= j < |groups| && groups[j] == g;
      assert (e.groups + infos)[|e.groups| + j] == infos[j];
    }
  }

  /** The scan from user `i` on succeeds exactly when every read it makes
      does. */
  lemma {:induction false} AllAdminsFromOk(d: Snapshot, users: seq<UserRep>, i: nat, res: Dict<DealerWithGroups>)
    requires i <= |users| && Valid(res)
    ensures AllAdminsFrom(d, users, i, res).Ok? <==> ScanReadable(d, users, i)
    decreases |users| - i
  {
    if i < |users| {
      var u := users[i];
      var roles := RealmRoles(d, u.id);
      if roles.Ok? {
        if !AnyAdminRole(roles.value) {
          AllAdminsFromOk(d, users, i + 1, res);
        } else if UserGroups(d, u.id).Ok? {
          var res2 := AdminWithGroups(u, roles.value, UserGroups(d, u.id).value, res);
          assert AllAdminsFrom(d, users, i, res) == AllAdminsFrom(d, users, i + 1, res2);
          AllAdminsFromOk(d, users, i + 1, res2);
        } else {
          assert !ScanReadable(d, users, i) by { assert AdminAt(d, users, i); }
        }
      } else {
        assert !ScanReadable(d, users, i) by { assert !RealmRoles(d, users[i].id).Ok?; }
      }
    }
  }

  /** The scan keeps the dictionary keyed by dealer id, keeps every earlier
      profile with its groups, and adds keys only for admin-capable users. */
  lemma {:induction false} AllAdminsFromGrows(d: Snapshot, users: seq<UserRep>, i: nat, res: Dict<DealerWithGroups>)
    requires i <= |users| && KeyedByDealer(res)
    ensures var r := AllAdminsFrom(d, users, i, res);
      r.Ok? ==>
        && KeyedByDealer(r.value) && ResultGrows(res, r.value)
        && forall key | key in r.value.entries ::
             key in res.entries || exists k | i <= k < |users| :: users[k].id == key && AdminAt(d, users, k)
    decreases |users| - i
  {
    if i < |users| {
      var u := users[i];
      var roles := RealmRoles(d, u.id);
      if roles.Ok? {
        if !AnyAdminRole(roles.value) {
          AllAdminsFromGrows(d, users, i + 1, res);
        } else if UserGroups(d, u.id).Ok? {
          var res2 := AdminWithGroups(u, roles.value, UserGroups(d, u.id).value, res);
          AdminWithGroupsGrows(u, roles.value, UserGroups(d, u.id).value, res);
          assert AllAdminsFrom(d, users, i, res) == AllAdminsFrom(d, users, i + 1, res2);
          AllAdminsFromGrows(d, users, i + 1, res2);
          var r := AllAdminsFrom(d, users, i + 1, res2);
          if r.Ok? {
            ResultGrowsTrans(res, res2, r.value);
            assert AdminAt(d, users, i);
          }
        }
      }
    }
  }

  /** No admin is missed: every admin-capable user from `i` on is a key, and
      its entry holds the GroupInfo of each of its groups. */
  lemma {:induction false} AllAdminsFromComplete(d: Snapshot, users: seq<UserRep>, i: nat, res: Dict<DealerWithGroups>, k: nat)
    requires i <= k < |users| && KeyedByDealer(res) && AdminAt(d, users, k)
    requires AllAdminsFrom(d, users, i, res).Ok?
    ensures UserGroups(d, users[k].id).Ok?
    ensures var r := AllAdminsFrom(d, users, i, res).value;
      users[k].id in r.entries
      && forall g | g in UserGroups(d, users[k].id).value :: GroupInfo(g.id, g.name) in r.entries[users[k].id].groups
    decreases |users| - i
  {
    var u := users[i];
    var roles := RealmRoles(d, u.id);
    if !AnyAdminRole(roles.value) {
      AllAdminsFromComplete(d, users, i + 1, res, k);
    } else {
      var groups := UserGroups(d, u.id).value;
      var res2 := AdminWithGroups(u, roles.value, groups, res);
      AdminWithGroupsGrows(u, roles.value, groups, res);
      AdminWithGroupsLists(u, roles.value, groups, res);
      assert AllAdminsFrom(d, users, i, res) == AllAdminsFrom(d, users, i + 1, res2);
      if i < k {
        AllAdminsFromComplete(d, users, i + 1, res2, k);
      } else {
        AllAdminsFromGrows(d, users, i + 1, res2);
        var r := AllAdminsFrom(d, users, i + 1, res2).value;
        assert SameProfile(res2.entries[u.id], r.entries[u.id]);
      }
    }
  }

  /** Case 1 of GetDealersWithGroupsAsync appends every group the directory
      lists for an admin, without the duplicate check of the tree walk. */
  lemma SuperAdminScanKeepsDuplicates(d: Snapshot, u: UserRep, g: KcGroup)
    requires RealmRoles(d, u.id) == Ok(["admin"])
    requires UserGroups(d, u.id) == Ok([g, g])
    ensures AllAdminsFrom(d, [u], 0, EmptyDict()).Ok?
    ensures u.id in AllAdminsFrom(d, [u], 0, EmptyDict()).value.entries
    ensures AllAdminsFrom(d, [u], 0, EmptyDict()).value.entries[u.id].groups
      == [GroupInfo(g.id, g.name), GroupInfo(g.id, g.name)]
  {
    assert AnyAdminRole(["admin"]) by {
      assert IsAdminRole(["admin"][0]);
    }
  }

  /** `r` lists every admin-capable user among `users` once, with the
      GroupInfo of each group the directory gives it, and nobody who is not
      admin-capable. */
  predicate ListsAdmins(d: Snapshot, users: seq<UserRep>, r: seq<DealerWithGroups>) {
    && (forall a, b | 0 <= a < b < |r| :: r[a].dealerId != r[b].dealerId)
    && (forall j | 0 <= j < |r| :: AdminUser(d, users, r[j].dealerId))
    && forall k | 0 <= k < |users| && AdminAt(d, users, k) :: AdminReturned(d, users, r, k)
  }

  /** `id` belongs to an admin-capable user of `users`. */
  predicate AdminUser(d: Snapshot, users: seq<UserRep>, id: string) {
    exists k | 0 <= k < |users| :: users[k].id == id && AdminAt(d, users, k)
  }

  /** `x` is the dealer `id`, and lists the GroupInfo of every group the
      directory gives `id`. */
  predicate HoldsAllGroups(d: Snapshot, id: string, x: DealerWithGroups) {
    && UserGroups(d, id).Ok? && x.dealerId == id
    && forall g | g in UserGroups(d, id).value :: GroupInfo(g.id, g.name) in x.groups
  }

  /** Some dealer of `r` is `users[k]` with all of its groups. */
  predicate AdminReturned(d: Snapshot, users: seq<UserRep>, r: seq<DealerWithGroups>, k: int)
    requires 0 <= k < |users|
  {
    exists j | 0 <= j < |r| :: HoldsAllGroups(d, users[k].id, r[j])
  }

  /** Every dealer a successful scan returns is an admin-capable user. */
  lemma ScanReturnsOnlyAdmins(d: Snapshot, users: seq<UserRep>, m: Dict<DealerWithGroups>)
    requires AllAdminsFrom(d, users, 0, EmptyDict()) == Ok(m)
    ensures forall j | 0 <= j < |Values(m)| :: AdminUser(d, users, Values(m)[j].dealerId)
  {
    AllAdminsFromGrows(d, users, 0, EmptyDict());
    forall j | 0 <= j < |Values(m)|
      ensures AdminUser(d, users, Values(m)[j].dealerId)
    {
      assert Values(m)[j] == m.entries[m.keys[j]];
    }
  }

  /** Every admin-capable user is returned by a successful scan, with all of
      its groups. */
  lemma ScanReturnsEveryAdmin(d: Snapshot, users: seq<UserRep>, m: Dict<DealerWithGroups>)
    requires AllAdminsFrom(d, users, 0, EmptyDict()) == Ok(m)
    ensures forall k | 0 <= k < |users| && AdminAt(d, users, k) :: AdminReturned(d, users, Values(m), k)
  {
    forall k | 0 <= k < |users| && AdminAt(d, users, k)
      ensures AdminReturned(d, users, Values(m), k)
    {
      AllAdminsFromComplete(d, users, 0, EmptyDict(), k);
      AllAdminsFromGrows(d, users, 0, EmptyDict());
      var j :| 0 <= j < |m.keys| && m.keys[j] == users[k].id;
      assert Values(m)[j] == m.entries[users[k].id];
      assert HoldsAllGroups(d, users[k].id, Values(m)[j]);
    }
  }

  /** The list case 1 returns from a successful scan of all users. */
  lemma ScanListsAdmins(d: Snapshot, users: seq<UserRep>)
    requires AllAdminsFrom(d, users, 0, EmptyDict()).Ok?
    ensures ListsAdmins(d, users, Values(AllAdminsFrom(d, users, 0, EmptyDict()).value))
  {
    var m := AllAdminsFrom(d, users, 0, EmptyDict()).value;
    AllAdminsFromGrows(d, users, 0, EmptyDict());
    KeyedValues(m);
    ScanReturnsOnlyAdmins(d, users, m);
    ScanReturnsEveryAdmin(d, users, m);
  }

  /** Case 1 of GetDealersWithGroupsAsync (lines 212-259), a super-admin
      without groups: the call succeeds exactly when the user list and every
      read of the scan succeed, and then returns a list of the admins. */
  lemma SuperAdminDealers(d: Snapshot, userId: string)
    requires UserGroups(d, userId) == Ok([])
    ensures AdminDealers(d, userId, true).Ok? <==> Users(d).Ok? && ScanReadable(d, Users(d).value, 0)
    ensures AdminDealers(d, userId, true).Ok? ==> ListsAdmins(d, Users(d).value, AdminDealers(d, userId, true).value)
  {
    if Users(d).Ok? {
      var users := Users(d).value;
      AllAdminsFromOk(d, users, 0, EmptyDict());
      if AllAdminsFrom(d, users, 0, EmptyDict()).Ok? {
        ScanListsAdmins(d, users);
      }
    }
  }
}
