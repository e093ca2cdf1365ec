/** KeycloakDealerClient: the dealer (group admin) roll-ups.

  Every operation reads the directory snapshot and aborts with the fault of the
  first failing call. The result lists, the `groupMap` and `result`
  dictionaries and the `processedGroups` set that the code passes between its
  recursive calls are threaded through them as values: each call takes the
  collection as it is and returns it as the call leaves it.

  Each method follows the code's loops; the function named in its `ensures`
  is the same computation written recursively, and the properties the code
  promises are proved about those functions in DealerClientProperties.
 */
module KeycloakDealerClient {
  import opened Wrappers
  import opened Json
  import opened Text
  import opened Claims
  import opened KeycloakJsonHelpers
  import opened Collections
  import opened Directory
  import opened RoleExtraction

  datatype DealerDto = DealerDto(
    dealerId: string,
    dealerName: string,
    groupId: string,
    groupName: string,
    subGroupId: Option<string>,
    subGroupName: Option<string>,
    firstName: string,
    lastName: string,
    email: string,
    roles: seq<string>)

  datatype GroupWithAdmins = GroupWithAdmins(groupId: string, groupName: string, dealers: seq<DealerDto>)

  datatype GroupInfo = GroupInfo(groupId: string, groupName: string)

  datatype DealerWithGroups = DealerWithGroups(
    dealerId: string,
    firstName: string,
    lastName: string,
    email: string,
    roles: seq<string>,
    groups: seq<GroupInfo>)

  /** The id and name of the group a nested group was reached from. */
  type Parent = Option<(string, string)>

  // ---------------------------------------------------------------- Callers

  predicate IsAdminRole(name: string) {
    EqualsIgnoreCase(name, "admin") || EqualsIgnoreCase(name, "super-admin")
  }

  /** A user is admin-capable when one of its realm role names is "admin" or
      "super-admin", ignoring case. */
  function AnyAdminRole(roles: seq<string>): (r: bool)
    ensures r <==> exists i | 0 <= i < |roles| :: IsAdminRole(roles[i])
  {
    if roles == [] then false
    else
      assert forall i | 1 <= i < |roles| :: roles[i] == roles[1..][i - 1];
      IsAdminRole(roles[0]) || AnyAdminRole(roles[1..])
  }

  /** TryGetGroupId and TryGetGroupName: the string under `key` (a JSON string
      or a CLR string, "" for anything else), and whether it is present and not
      blank. */
  function TryGetNonBlank(g: Group, key: string): (r: (bool, string))
    ensures r.0 <==> key in g.fields && HoldsString(g.fields[key]) && !IsBlank(StringOf(g.fields[key]))
    ensures r.1 == TryGetString(g, key).1
  {
    var (ok, s) := TryGetString(g, key);
    (ok && !IsBlank(s), s)
  }

  /** The caller's realm roles, read from the first claim whose type is
      "realm_access" ignoring case. Nothing here is caught: a claim that does
      not parse, a root that is not an object, or an element that is neither a
      string nor null aborts the operation. */
  function CallerRoles(claims: seq<Claim>): Result<seq<string>> {
    var c := FindFirst(claims, RealmAccess);
    if c.None? || IsBlank(c.value.value) then Ok([])
    else if c.value.json.None? then Err(JsonException)
    else
      var roles :- TryGetProperty(c.value.json.value, "roles");
      if roles.Some? && roles.value.JArray? then StringsOrEmpty(roles.value.items) else Ok([])
  }

  /** The value of the first claim whose type is exactly NameIdentifier or "sub". */
  function CallerId(claims: seq<Claim>): Option<string> {
    var c := First(claims, (c: Claim) => c.kind == NameIdentifier || c.kind == "sub");
    if c.Some? then Some(c.value.value) else None
  }

  // ------------------------------------------------- GetAdminsInGroupAsync

  /** A member as GetAdminsInGroupAsync lists it, before any labelling. */
  function NewDealer(u: UserRep, roles: seq<string>): DealerDto {
    DealerDto(u.id, u.username, "", "", None, None, u.firstName, u.lastName, u.email, roles)
  }

  /** The member loop from member `i` on, with `acc` the dealers listed so far. */
  function AdminsFrom(d: Snapshot, users: seq<UserRep>, i: nat, acc: seq<DealerDto>): Result<seq<DealerDto>>
    requires i <= |users|
    decreases |users| - i
  {
    if i == |users| then Ok(acc)
    else
      var roles :- RealmRoles(d, users[i].id);
      AdminsFrom(d, users, i + 1, if AnyAdminRole(roles) then acc + [NewDealer(users[i], roles)] else acc)
  }

  function AdminsInGroup(d: Snapshot, groupId: string): Result<seq<DealerDto>> {
    var users :- Members(d, groupId);
    AdminsFrom(d, users, 0, [])
  }

  method GetAdminsInGroupAsync(d: Snapshot, groupId: string) returns (r: Result<seq<DealerDto>>)
    ensures r == AdminsInGroup(d, groupId)
  {
    var users := Members(d, groupId);
    if users.Err? {
      return Err(users.fault);
    }
    var dealers: seq<DealerDto> := [];
    var i := 0;
    while i < |users.value|
      invariant 0 <= i <= |users.value|
      invariant AdminsFrom(d, users.value, i, dealers) == AdminsInGroup(d, groupId)
      decreases |users.value| - i
    {
      var roles := RealmRoles(d, users.value[i].id);
      if roles.Err? {
        return Err(roles.fault);
      }
      if AnyAdminRole(roles.value) {
        dealers := dealers + [NewDealer(users.value[i], roles.value)];
      }
      i := i + 1;
    }
    return Ok(dealers);
  }

  // ----------------------------------------- CollectGroupWithAdminsRecursively

  /** How a dealer found in group (groupId, groupName) is labelled: a top-level
      group labels it with itself, a nested group with its parent and itself as
      the subgroup. */
  function Label(x: DealerDto, groupId: string, groupName: string, parent: Parent): DealerDto {
    match parent
    case None => x.(groupId := groupId, groupName := groupName, subGroupId := None, subGroupName := None)
    case Some((pid, pname)) =>
      x.(groupId := pid, groupName := pname, subGroupId := Some(groupId), subGroupName := Some(groupName))
  }

  /** The entry a group with admins adds: it is filed under its parent when it
      has one, under itself otherwise. */
  function AdminEntry(dealers: seq<DealerDto>, groupId: string, groupName: string, parent: Parent): GroupWithAdmins {
    var labelled := seq(|dealers|, i requires 0 <= i < |dealers| => Label(dealers[i], groupId, groupName, parent));
    if parent.Some? then GroupWithAdmins(parent.value.0, parent.value.1, labelled)
    else GroupWithAdmins(groupId, groupName, labelled)
  }

  /** The `foreach` that rewrites each dealer's group fields in place. */
  method RelabelDealers(dealers: seq<DealerDto>, groupId: string, groupName: string, parent: Parent)
    returns (r: seq<DealerDto>)
    ensures |r| == |dealers|
    ensures forall i | 0 <= i < |r| :: r[i] == Label(dealers[i], groupId, groupName, parent)
  {
    r := dealers;
    var i := 0;
    while i < |r|
      invariant 0 <= i <= |r| == |dealers|
      invariant forall k | 0 <= k < i :: r[k] == Label(dealers[k], groupId, groupName, parent)
      invariant forall k | i <= k < |r| :: r[k] == dealers[k]
    {
      r := r[i := Label(r[i], groupId, groupName, parent)];
      i := i + 1;
    }
  }

  /** The group has a "subGroups" entry that is a JSON array. */
  predicate HasSubGroupArray(props: map<string, Json>) {
    "subGroups" in props && props["subGroups"].JArray?
  }

  /** CollectGroupWithAdminsRecursively on the group `props` deserializes to,
      with `acc` the list of entries so far. */
  function LabelWalk(d: Snapshot, props: map<string, Json>, parent: Parent, acc: seq<GroupWithAdmins>)
    : Result<seq<GroupWithAdmins>>
    decreases JObject(props), 0, 0
  {
    var (okId, groupId) := TryGetNonBlank(ToGroup(props), "id");
    var (okName, groupName) := TryGetNonBlank(ToGroup(props), "name");
    if !okId || !okName then Ok(acc)
    else
      var dealers :- AdminsInGroup(d, groupId);
      var acc1 := if |dealers| > 0 then acc + [AdminEntry(dealers, groupId, groupName, parent)] else acc;
      if HasSubGroupArray(props) then
        LabelWalkList(d, props["subGroups"].items, 0, Some((groupId, groupName)), acc1)
      else Ok(acc1)
  }

  /** The loop over the "subGroups" elements from element `i` on. */
  function LabelWalkList(d: Snapshot, items: seq<Json>, i: nat, parent: Parent, acc: seq<GroupWithAdmins>)
    : Result<seq<GroupWithAdmins>>
    requires i <= |items|
    decreases JArray(items), 1, |items| - i
  {
    if i == |items| then Ok(acc)
    else
      var sub :- DeserializeObject(items[i]);
      if sub.None? then LabelWalkList(d, items, i + 1, parent, acc)
      else
        var acc1 :- LabelWalk(d, sub.value, parent, acc);
        LabelWalkList(d, items, i + 1, parent, acc1)
  }

  method CollectGroupWithAdminsRecursively(d: Snapshot, props: map<string, Json>, parent: Parent, acc: seq<GroupWithAdmins>)
    returns (r: Result<seq<GroupWithAdmins>>)
    ensures r == LabelWalk(d, props, parent, acc)
    decreases JObject(props)
  {
    var (okId, groupId) := TryGetNonBlank(ToGroup(props), "id");
    var (okName, groupName) := TryGetNonBlank(ToGroup(props), "name");
    if !okId || !okName {
      return Ok(acc);
    }
    var dealers := GetAdminsInGroupAsync(d, groupId);
    if dealers.Err? {
      return Err(dealers.fault);
    }
    var result := acc;
    if |dealers.value| > 0 {
      var labelled := RelabelDealers(dealers.value, groupId, groupName, parent);
      var entryId, entryName := groupId, groupName;
      if parent.Some? {
        entryId, entryName := parent.value.0, parent.value.1;
      }
      assert GroupWithAdmins(entryId, entryName, labelled) == AdminEntry(dealers.value, groupId, groupName, parent);
      result := result + [GroupWithAdmins(entryId, entryName, labelled)];
    }
    if !HasSubGroupArray(props) {
      return Ok(result);
    }
    var items := props["subGroups"].items;
    var i := 0;
    while i < |items|
      invariant 0 <= i <= |items|
      invariant LabelWalkList(d, items, i, Some((groupId, groupName)), result) == LabelWalk(d, props, parent, acc)
      decreases |items| - i
    {
      var sub := DeserializeObject(items[i]);
      if sub.Err? {
        return Err(sub.fault);
      }
      if sub.value.Some? {
        assert items[i] == JObject(sub.value.value);
        var next := CollectGroupWithAdminsRecursively(d, sub.value.value, Some((groupId, groupName)), result);
        if next.Err? {
          return Err(next.fault);
        }
        result := next.value;
      }
      i := i + 1;
    }
    return Ok(result);
  }

  // ------------------------------------------------- GetGroupsWithAdminsAsync

  /** The dealer a super-admin scan files under one of the admin's groups. */
  function MapDealer(u: UserRep, g: KcGroup, roles: seq<string>): DealerDto {
    DealerDto(u.id, u.username, g.id, g.name, None, None, u.firstName, u.lastName, u.email, roles)
  }

  /** The inner loop over one admin's groups from group `j` on: a group seen for
      the first time gets an empty entry, then the admin is appended to it. */
  function FileUnderGroups(u: UserRep, roles: seq<string>, groups: seq<KcGroup>, j: nat, m: Dict<GroupWithAdmins>)
    : (r: Dict<GroupWithAdmins>)
    requires j <= |groups| && Valid(m)
    ensures Valid(r)
    decreases |groups| - j
  {
    if j == |groups| then m
    else
      var g := groups[j];
      var m1 := if g.id in m.entries then m else Put(m, g.id, GroupWithAdmins(g.id, g.name, []));
      var e := m1.entries[g.id];
      FileUnderGroups(u, roles, groups, j + 1, Put(m1, g.id, e.(dealers := e.dealers + [MapDealer(u, g, roles)])))
  }

  /** The super-admin loop over all users from user `i` on. */
  function ScanAdmins(d: Snapshot, users: seq<UserRep>, i: nat, m: Dict<GroupWithAdmins>)
    : (r: Result<Dict<GroupWithAdmins>>)
    requires i <= |users| && Valid(m)
    ensures r.Ok? ==> Valid(r.value)
    decreases |users| - i
  {
    if i == |users| then Ok(m)
    else
      var roles :- RealmRoles(d, users[i].id);
      if !AnyAdminRole(roles) then ScanAdmins(d, users, i + 1, m)
      else
        var groups :- UserGroups(d, users[i].id);
        ScanAdmins(d, users, i + 1, FileUnderGroups(users[i], roles, groups, 0, m))
  }

  /** The regular-admin loop over the caller's groups from group `i` on. */
  function LabelCallerGroups(d: Snapshot, groups: seq<KcGroup>, i: nat, acc: seq<GroupWithAdmins>)
    : Result<seq<GroupWithAdmins>>
    requires i <= |groups|
    decreases |groups| - i
  {
    if i == |groups| then Ok(acc)
    else
      var body :- Details(d, groups[i].id);
      var props :- DeserializeObject(body);
      if props.None? then LabelCallerGroups(d, groups, i + 1, acc)
      else
        var acc1 :- LabelWalk(d, props.value, None, acc);
        LabelCallerGroups(d, groups, i + 1, acc1)
  }

  /** GetGroupsWithAdminsAsync: the caller's roles are read first, a caller
      without an id gets nothing, a caller whose roles contain "super-admin"
      (exactly) gets every admin filed under each of its groups, and any other
      caller gets the admins of its own groups and their subgroups. */
  function GroupsWithAdmins(d: Snapshot, claims: seq<Claim>): Result<seq<GroupWithAdmins>> {
    var roles :- CallerRoles(claims);
    var userId := CallerId(claims);
    if IsNullOrWhiteSpace(userId) then Ok([])
    else if "super-admin" in roles then
      var users :- Users(d);
      var m :- ScanAdmins(d, users, 0, EmptyDict());
      Ok(Values(m))
    else
      var groups :- UserGroups(d, userId.value);
      LabelCallerGroups(d, groups, 0, [])
  }

  method GetGroupsWithAdminsAsync(d: Snapshot, claims: seq<Claim>) returns (r: Result<seq<GroupWithAdmins>>)
    ensures r == GroupsWithAdmins(d, claims)
  {
    var roles := CallerRoles(claims);
    if roles.Err? {
      return Err(roles.fault);
    }
    var userId := CallerId(claims);
    if IsNullOrWhiteSpace(userId) {
      return Ok([]);
    }
    if "super-admin" in roles.value {
      var users := Users(d);
      if users.Err? {
        return Err(users.fault);
      }
      var groupMap := ScanGroupMap(d, users.value);
      if groupMap.Err? {
        return Err(groupMap.fault);
      }
      return Ok(Values(groupMap.value));
    }
    var groups := UserGroups(d, userId.value);
    if groups.Err? {
      return Err(groups.fault);
    }
    r := LabelGroups(d, groups.value);
  }

  /** The regular-admin loop of lines 161-171: each of the caller's groups is
      fetched and walked, all appending to one result list. */
  method LabelGroups(d: Snapshot, groups: seq<KcGroup>) returns (r: Result<seq<GroupWithAdmins>>)
    ensures r == LabelCallerGroups(d, groups, 0, [])
  {
    var result: seq<GroupWithAdmins> := [];
    var i := 0;
    while i < |groups|
      invariant 0 <= i <= |groups|
      invariant LabelCallerGroups(d, groups, i, result) == LabelCallerGroups(d, groups, 0, [])
      decreases |groups| - i
    {
      var body := Details(d, groups[i].id);
      if body.Err? {
        return Err(body.fault);
      }
      var props := DeserializeObject(body.value);
      if props.Err? {
        return Err(props.fault);
      }
      if props.value.Some? {
        var next := CollectGroupWithAdminsRecursively(d, props.value.value, None, result);
        if next.Err? {
          return Err(next.fault);
        }
        result := next.value;
      }
      i := i + 1;
    }
    return Ok(result);
  }

  /** The super-admin scan of lines 107-150, building `groupMap`. */
  method ScanGroupMap(d: Snapshot, users: seq<UserRep>) returns (r: Result<Dict<GroupWithAdmins>>)
    ensures r == ScanAdmins(d, users, 0, EmptyDict())
    ensures r.Ok? ==> Valid(r.value)
  {
    var groupMap: Dict<GroupWithAdmins> := EmptyDict();
    var i := 0;
    while i < |users|
      invariant 0 <= i <= |users| && Valid(groupMap)
      invariant ScanAdmins(d, users, i, groupMap) == ScanAdmins(d, users, 0, EmptyDict())
      decreases |users| - i
    {
      var userRoles := RealmRoles(d, users[i].id);
      if userRoles.Err? {
        return Err(userRoles.fault);
      }
      if AnyAdminRole(userRoles.value) {
        var userGroups := UserGroups(d, users[i].id);
        if userGroups.Err? {
          return Err(userGroups.fault);
        }
        var j := 0;
        ghost var start := groupMap;
        while j < |userGroups.value|
          invariant 0 <= j <= |userGroups.value| && Valid(groupMap)
          invariant FileUnderGroups(users[i], userRoles.value, userGroups.value, j, groupMap)
                 == FileUnderGroups(users[i], userRoles.value, userGroups.value, 0, start)
          decreases |userGroups.value| - j
        {
          var g := userGroups.value[j];
          if g.id !in groupMap.entries {
            groupMap := Put(groupMap, g.id, GroupWithAdmins(g.id, g.name, []));
          }
          var e := groupMap.entries[g.id];
          groupMap := Put(groupMap, g.id, e.(dealers := e.dealers + [MapDealer(users[i], g, userRoles.value)]));
          j := j + 1;
        }
      }
      i := i + 1;
    }
    return Ok(groupMap);
  }

  // ------------------------------------------ CollectAdminsInGroupRecursively

  /** The `result` dictionary (keyed by member id) and the `processedGroups` set. */
  datatype Rollup = Rollup(result: Dict<DealerWithGroups>, processed: seq<string>)

  function NewDealerWithGroups(u: UserRep, roles: seq<string>): DealerWithGroups {
    DealerWithGroups(u.id, u.firstName, u.lastName, u.email, roles, [])
  }

  predicate HasGroup(groups: seq<GroupInfo>, groupId: string) {
    exists k | 0 <= k < |groups| :: groups[k].groupId == groupId
  }

  /** The member loop of one group from member `i` on: an admin seen for the
      first time gets an entry, and the group is added to the admin's groups
      unless a group with that id is already there. */
  function AddAdminsFrom(d: Snapshot, members: seq<UserRep>, i: nat, groupId: string, groupName: string, res: Dict<DealerWithGroups>)
    : (r: Result<Dict<DealerWithGroups>>)
    requires i <= |members| && Valid(res)
    ensures r.Ok? ==> Valid(r.value)
    decreases |members| - i
  {
    if i == |members| then Ok(res)
    else
      var m := members[i];
      var roles :- RealmRoles(d, m.id);
      if !AnyAdminRole(roles) then AddAdminsFrom(d, members, i + 1, groupId, groupName, res)
      else
        var res1 := if m.id in res.entries then res else Put(res, m.id, NewDealerWithGroups(m, roles));
        var e := res1.entries[m.id];
        var res2 := if HasGroup(e.groups, groupId) then res1
                    else Put(res1, m.id, e.(groups := e.groups + [GroupInfo(groupId, groupName)]));
        AddAdminsFrom(d, members, i + 1, groupId, groupName, res2)
  }

  /** CollectAdminsInGroupRecursively on the group `props` deserializes to. */
  function AdminsWalk(d: Snapshot, props: map<string, Json>, st: Rollup): (r: Result<Rollup>)
    requires Valid(st.result)
    ensures r.Ok? ==> Valid(r.value.result)
    decreases JObject(props), 0, 0
  {
    var (okId, groupId) := TryGetNonBlank(ToGroup(props), "id");
    var (okName, groupName) := TryGetNonBlank(ToGroup(props), "name");
    if !okId || !okName || groupId in st.processed then Ok(st)
    else
      var members :- Members(d, groupId);
      var res :- AddAdminsFrom(d, members, 0, groupId, groupName, st.result);
      var st1 := Rollup(res, st.processed + [groupId]);
      if HasSubGroupArray(props) then AdminsWalkList(d, props["subGroups"].items, 0, st1) else Ok(st1)
  }

  function AdminsWalkList(d: Snapshot, items: seq<Json>, i: nat, st: Rollup): (r: Result<Rollup>)
    requires i <= |items| && Valid(st.result)
    ensures r.Ok? ==> Valid(r.value.result)
    decreases JArray(items), 1, |items| - i
  {
    if i == |items| then Ok(st)
    else
      var sub :- DeserializeObject(items[i]);
      if sub.None? then AdminsWalkList(d, items, i + 1, st)
      else
        var st1 :- AdminsWalk(d, sub.value, st);
        AdminsWalkList(d, items, i + 1, st1)
  }

  /** The member loop of lines 346-383. */
  method AddGroupAdmins(d: Snapshot, members: seq<UserRep>, groupId: string, groupName: string, res: Dict<DealerWithGroups>)
    returns (r: Result<Dict<DealerWithGroups>>)
    requires Valid(res)
    ensures r == AddAdminsFrom(d, members, 0, groupId, groupName, res)
  {
    var result := res;
    var i := 0;
    while i < |members|
      invariant 0 <= i <= |members| && Valid(result)
      invariant AddAdminsFrom(d, members, i, groupId, groupName, result) == AddAdminsFrom(d, members, 0, groupId, groupName, res)
      decreases |members| - i
    {
      var member := members[i];
      var userRoles := RealmRoles(d, member.id);
      if userRoles.Err? {
        return Err(userRoles.fault);
      }
      if AnyAdminRole(userRoles.value) {
        if member.id !in result.entries {
          result := Put(result, member.id, NewDealerWithGroups(member, userRoles.value));
        }
        var e := result.entries[member.id];
        if !HasGroup(e.groups, groupId) {
          result := Put(result, member.id, e.(groups := e.groups + [GroupInfo(groupId, groupName)]));
        }
      }
      i := i + 1;
    }
    return Ok(result);
  }

  method CollectAdminsInGroupRecursively(d: Snapshot, props: map<string, Json>, st: Rollup) returns (r: Result<Rollup>)
    requires Valid(st.result)
    ensures r == AdminsWalk(d, props, st)
    decreases JObject(props)
  {
    var (okId, groupId) := TryGetNonBlank(ToGroup(props), "id");
    var (okName, groupName) := TryGetNonBlank(ToGroup(props), "name");
    if !okId || !okName || groupId in st.processed {
      return Ok(st);
    }
    var processed := st.processed + [groupId];
    var members := Members(d, groupId);
    if members.Err? {
      return Err(members.fault);
    }
    var res := AddGroupAdmins(d, members.value, groupId, groupName, st.result);
    if res.Err? {
      return Err(res.fault);
    }
    var cur := Rollup(res.value, processed);
    if !HasSubGroupArray(props) {
      return Ok(cur);
    }
    var items := props["subGroups"].items;
    var i := 0;
    while i < |items|
      invariant 0 <= i <= |items| && Valid(cur.result)
      invariant AdminsWalkList(d, items, i, cur) == AdminsWalk(d, props, st)
      decreases |items| - i
    {
      var sub := DeserializeObject(items[i]);
      if sub.Err? {
        return Err(sub.fault);
      }
      if sub.value.Some? {
        assert items[i] == JObject(sub.value.value);
        var next := CollectAdminsInGroupRecursively(d, sub.value.value, cur);
        if next.Err? {
          return Err(next.fault);
        }
        cur := next.value;
      }
      i := i + 1;
    }
    return Ok(cur);
  }

  // ------------------------------------------------- GetDealersWithGroupsAsync

  /** Case 1, the super-admin without groups: every admin, with all of its
      groups appended, from user `i` on. */
  function AllAdminsFrom(d: Snapshot, users: seq<UserRep>, i: nat, res: Dict<DealerWithGroups>)
    : (r: Result<Dict<DealerWithGroups>>)
    requires i <= |users| && Valid(res)
    ensures r.Ok? ==> Valid(r.value)
    decreases |users| - i
  {
    if i == |users| then Ok(res)
    else
      var u := users[i];
      var roles :- RealmRoles(d, u.id);
      if !AnyAdminRole(roles) then AllAdminsFrom(d, users, i + 1, res)
      else
        var groups :- UserGroups(d, u.id);
        AllAdminsFrom(d, users, i + 1, AdminWithGroups(u, roles, groups, res))
  }

  /** Lines 238-258 for one admin `u`: its first encounter creates the
      entry, then every one of its groups is appended. */
  function AdminWithGroups(u: UserRep, roles: seq<string>, groups: seq<KcGroup>, res: Dict<DealerWithGroups>)
    : (r: Dict<DealerWithGroups>)
    requires Valid(res)
    ensures Valid(r)
  {
    var res1 := if u.id in res.entries then res else Put(res, u.id, NewDealerWithGroups(u, roles));
    var e := res1.entries[u.id];
    Put(res1, u.id, e.(groups := e.groups + GroupInfos(groups)))
  }

  function GroupInfos(groups: seq<KcGroup>): (r: seq<GroupInfo>)
    ensures |r| == |groups|
    ensures forall k | 0 <= k < |r| :: r[k] == GroupInfo(groups[k].id, groups[k].name)
  {
    seq(|groups|, k requires 0 <= k < |groups| => GroupInfo(groups[k].id, groups[k].name))
  }

  /** Case 2, the caller's groups: the tree walk of each one's details, from
      group `i` on, sharing one `result` and one `processedGroups`. */
  function WalkCallerGroups(d: Snapshot, groups: seq<KcGroup>, i: nat, st: Rollup): (r: Result<Rollup>)
    requires i <= |groups| && Valid(st.result)
    ensures r.Ok? ==> Valid(r.value.result)
    decreases |groups| - i
  {
    if i == |groups| then Ok(st)
    else
      var body :- Details(d, groups[i].id);
      var props :- DeserializeObject(body);
      if props.None? then WalkCallerGroups(d, groups, i + 1, st)
      else
        var st1 :- AdminsWalk(d, props.value, st);
        WalkCallerGroups(d, groups, i + 1, st1)
  }

  /** GetDealersWithGroupsAsync. The role checks use `List.Contains`, so they
      are exact here, unlike the case-insensitive test applied to members. */
  function DealersWithGroups(d: Snapshot, claims: seq<Claim>): Result<seq<DealerWithGroups>> {
    var roles :- CallerRoles(claims);
    var userId := CallerId(claims);
    if IsNullOrWhiteSpace(userId) then Ok([])
    else
      var isSuperAdmin := "super-admin" in roles;
      var isAdmin := "admin" in roles || isSuperAdmin;
      if !isAdmin then Ok([]) else AdminDealers(d, userId.value, isSuperAdmin)
  }

  /** GetDealersWithGroupsAsync once the caller is known to be an admin:
      case 1 for a super-admin without groups, case 2 for any admin with
      groups, and nothing otherwise. */
  function AdminDealers(d: Snapshot, userId: string, isSuperAdmin: bool): Result<seq<DealerWithGroups>> {
    var groups :- UserGroups(d, userId);
    if isSuperAdmin && |groups| == 0 then
      var users :- Users(d);
      var res :- AllAdminsFrom(d, users, 0, EmptyDict());
      Ok(Values(res))
    else if |groups| > 0 then
      var st :- WalkCallerGroups(d, groups, 0, Rollup(EmptyDict(), []));
      Ok(Values(st.result))
    else Ok([])
  }

  /** The inner loop of lines 251-258: one GroupInfo per group, in order. */
  method AddGroupInfos(groups: seq<GroupInfo>, adminGroups: seq<KcGroup>) returns (r: seq<GroupInfo>)
    ensures r == groups + GroupInfos(adminGroups)
  {
    r := groups;
    var j := 0;
    while j < |adminGroups|
      invariant 0 <= j <= |adminGroups|
      invariant r == groups + GroupInfos(adminGroups[..j])
    {
      assert adminGroups[..j + 1] == adminGroups[..j] + [adminGroups[j]];
      r := r + [GroupInfo(adminGroups[j].id, adminGroups[j].name)];
      j := j + 1;
    }
    assert adminGroups[..j] == adminGroups;
  }

  /** The Case 1 loop of lines 218-259. */
  method CollectAllAdmins(d: Snapshot, users: seq<UserRep>) returns (r: Result<Dict<DealerWithGroups>>)
    ensures r == AllAdminsFrom(d, users, 0, EmptyDict())
    ensures r.Ok? ==> Valid(r.value)
  {
    var result: Dict<DealerWithGroups> := EmptyDict();
    var i := 0;
    while i < |users|
      invariant 0 <= i <= |users| && Valid(result)
      invariant AllAdminsFrom(d, users, i, result) == AllAdminsFrom(d, users, 0, EmptyDict())
      decreases |users| - i
    {
      var u := users[i];
      var userRoles := RealmRoles(d, u.id);
      if userRoles.Err? {
        return Err(userRoles.fault);
      }
      if AnyAdminRole(userRoles.value) {
        var adminGroups := UserGroups(d, u.id);
        if adminGroups.Err? {
          return Err(adminGroups.fault);
        }
        if u.id !in result.entries {
          result := Put(result, u.id, NewDealerWithGroups(u, userRoles.value));
        }
        var e := result.entries[u.id];
        var groups := AddGroupInfos(e.groups, adminGroups.value);
        result := Put(result, u.id, e.(groups := groups));
      }
      i := i + 1;
    }
    return Ok(result);
  }

  /** The Case 2 loop: each of the caller's groups is fetched and walked. */
  method CollectCallerGroups(d: Snapshot, groups: seq<KcGroup>) returns (r: Result<Rollup>)
    ensures r == WalkCallerGroups(d, groups, 0, Rollup(EmptyDict(), []))
  {
    var st := Rollup(EmptyDict(), []);
    var i := 0;
    while i < |groups|
      invariant 0 <= i <= |groups| && Valid(st.result)
      invariant WalkCallerGroups(d, groups, i, st) == WalkCallerGroups(d, groups, 0, Rollup(EmptyDict(), []))
      decreases |groups| - i
    {
      var body := Details(d, groups[i].id);
      if body.Err? {
        return Err(body.fault);
      }
      var props := DeserializeObject(body.value);
      if props.Err? {
        return Err(props.fault);
      }
      if props.value.Some? {
        var next := CollectAdminsInGroupRecursively(d, props.value.value, st);
        if next.Err? {
          return Err(next.fault);
        }
        st := next.value;
      }
      i := i + 1;
    }
    return Ok(st);
  }

  method GetDealersWithGroupsAsync(d: Snapshot, claims: seq<Claim>) returns (r: Result<seq<DealerWithGroups>>)
    ensures r == DealersWithGroups(d, claims)
  {
    var roles := CallerRoles(claims);
    if roles.Err? {
      return Err(roles.fault);
    }
    var userId := CallerId(claims);
    if IsNullOrWhiteSpace(userId) {
      return Ok([]);
    }
    var isSuperAdmin := "super-admin" in roles.value;
    var isAdmin := "admin" in roles.value || isSuperAdmin;
    if !isAdmin {
      return Ok([]);
    }
    r := CollectAdminDealers(d, userId.value, isSuperAdmin);
  }

  method CollectAdminDealers(d: Snapshot, userId: string, isSuperAdmin: bool) returns (r: Result<seq<DealerWithGroups>>)
    ensures r == AdminDealers(d, userId, isSuperAdmin)
  {
    var userGroups := UserGroups(d, userId);
    if userGroups.Err? {
      return Err(userGroups.fault);
    }
    if isSuperAdmin && |userGroups.value| == 0 {
      var allUsers := Users(d);
      if allUsers.Err? {
        return Err(allUsers.fault);
      }
      var result := CollectAllAdmins(d, allUsers.value);
      if result.Err? {
        return Err(result.fault);
      }
      return Ok(Values(result.value));
    }
    if |userGroups.value| == 0 {
      return Ok([]);
    }
    var st := CollectCallerGroups(d, userGroups.value);
    if st.Err? {
      return Err(st.fault);
    }
    return Ok(Values(st.value.result));
  }
}
