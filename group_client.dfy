/** KeycloakGroupClient: the role-filtered group listing, the membership
  search over the `children` tree, and the name lookup that creation relies on.

  Its private ExtractRoles is RoleExtraction.ExtractRealmRoles, and its private
  TryGetString is KeycloakJsonHelpers.TryGetString: the code of both is the
  same as those definitions.
 */
module KeycloakGroupClient {
  import opened Wrappers
  import opened Json
  import opened Text
  import opened Claims
  import opened KeycloakJsonHelpers
  import opened GroupRepresentations
  import opened Directory
  import opened RoleExtraction
  import opened AdminApi

  // ------------------------------------------------- FilterGroupByUserRolesAsync

  /** A child matches when its "name" holds a string that is in the role set. */
  predicate NameInRoles(roles: RoleSet, g: Group) {
    TryGetString(g, "name").0 && Contains(roles, TryGetString(g, "name").1)
  }

  /** `subGroups.Where(sg => TryGetString(sg, "name", out n) && userRoles.Contains(n))`. */
  function Matches(roles: RoleSet, children: seq<Group>): (r: seq<Group>)
    ensures |r| <= |children|
    ensures forall k | 0 <= k < |r| :: r[k] in children && NameInRoles(roles, r[k])
    ensures forall k | 0 <= k < |children| :: NameInRoles(roles, children[k]) ==> children[k] in r
  {
    if children == [] then []
    else
      var rest := Matches(roles, children[1..]);
      assert forall k | 1 <= k < |children| :: children[k] == children[1..][k - 1];
      (if NameInRoles(roles, children[0]) then [children[0]] else []) + rest
  }

  /** The matches keep the provider's order. */
  lemma {:induction false} MatchesAppend(roles: RoleSet, a: seq<Group>, b: seq<Group>)
    ensures Matches(roles, a + b) == Matches(roles, a) + Matches(roles, b)
  {
    if a == [] {
      assert a + b == b;
    } else {
      assert (a + b)[0] == a[0];
      assert (a + b)[1..] == a[1..] + b;
      MatchesAppend(roles, a[1..], b);
    }
  }

  /** The group is examined: it has string "id" and "name" entries. */
  predicate Named(g: Group) {
    TryGetString(g, "id").0 && TryGetString(g, "name").0
  }

  /** FilterGroupByUserRolesAsync: a group without a string id or name is
      dropped; otherwise its children are fetched, and the group is kept, with
      "subGroups" replaced by the matching children, exactly when its own name
      or one child's name is in the role set. */
  function FilterGroup(d: Snapshot, roles: RoleSet, g: Group): Result<Option<Group>>
  {
    var (okId, groupId) := TryGetString(g, "id");
    var (okName, groupName) := TryGetString(g, "name");
    if !okId || !okName then Ok(None)
    else
      var children :- Children(d, groupId);
      var matches := Matches(roles, children);
      if Contains(roles, groupName) || |matches| > 0 then
        Ok(Some(SetField(g, "subGroups", ClrList(matches))))
      else
        Ok(None)
  }

  /** What FilterGroupByUserRolesAsync promises: a group without a string id
      or name is dropped; a failed children fetch aborts; otherwise the group
      is kept exactly when its own name or one child's name is in the role set,
      and the kept group differs from the input only in "subGroups", which
      holds the matching children. */
  lemma FilterGroupSpec(d: Snapshot, roles: RoleSet, g: Group)
    ensures var r := FilterGroup(d, roles, g);
      var children := Children(d, TryGetString(g, "id").1);
      && (!Named(g) ==> r == Ok(None))
      && (r.Err? <==> Named(g) && children.Err?)
      && (r.Ok? && r.value.Some? <==>
            && Named(g) && children.Ok?
            && (|| Contains(roles, TryGetString(g, "name").1)
                || exists k | 0 <= k < |children.value| :: NameInRoles(roles, children.value[k])))
      && (r.Ok? && r.value.Some? ==>
            && SameExcept(g, r.value.value, "subGroups")
            && "subGroups" in r.value.value.fields
            && r.value.value.fields["subGroups"] == ClrList(Matches(roles, children.value)))
  {
    var children := Children(d, TryGetString(g, "id").1);
    if Named(g) && children.Ok? {
      var matches := Matches(roles, children.value);
      assert |matches| > 0 ==> matches[0] in children.value && NameInRoles(roles, matches[0]);
    }
  }

  // ----------------------------------------------- GetFilteredGroupsByRolesAsync

  /** The groups kept, in order; the first failed fetch aborts. */
  function FilteredGroups(d: Snapshot, roles: RoleSet, groups: seq<Group>): (r: Result<seq<Group>>)
  {
    if groups == [] then Ok([])
    else
      var head :- FilterGroup(d, roles, groups[0]);
      var tail :- FilteredGroups(d, roles, groups[1..]);
      Ok((if head.Some? then [head.value] else []) + tail)
  }

  /** The filter succeeds exactly when every group's fetch succeeds, and never
      lists more groups than it was given. */
  lemma {:induction false} FilteredGroupsOk(d: Snapshot, roles: RoleSet, groups: seq<Group>)
    ensures var r := FilteredGroups(d, roles, groups);
      && (r.Ok? <==> forall k | 0 <= k < |groups| :: FilterGroup(d, roles, groups[k]).Ok?)
      && (r.Ok? ==> |r.value| <= |groups|)
  {
    if groups != [] {
      FilteredGroupsOk(d, roles, groups[1..]);
      assert forall k | 1 <= k < |groups| :: groups[k] == groups[1..][k - 1];
    }
  }

  /** Filtering a list is filtering its parts: the result is the kept groups
      in provider order, and a failure in the first part wins. */
  lemma {:induction false} FilteredGroupsAppend(d: Snapshot, roles: RoleSet, a: seq<Group>, b: seq<Group>)
    ensures FilteredGroups(d, roles, a + b) ==
      match FilteredGroups(d, roles, a)
      case Err(f) => Err(f)
      case Ok(x) =>
        match FilteredGroups(d, roles, b)
        case Err(f) => Err(f)
        case Ok(y) => Ok(x + y)
  {
    if a == [] {
      assert a + b == b;
      var u := FilteredGroups(d, roles, b);
      if u.Ok? {
        assert [] + u.value == u.value;
      }
    } else {
      assert (a + b)[0] == a[0];
      assert (a + b)[1..] == a[1..] + b;
      FilteredGroupsAppend(d, roles, a[1..], b);
      var h := FilterGroup(d, roles, a[0]);
      if h.Ok? {
        var x := if h.value.Some? then [h.value.value] else [];
        var t := FilteredGroups(d, roles, a[1..]);
        var u := FilteredGroups(d, roles, b);
        if t.Ok? && u.Ok? {
          assert x + (t.value + u.value) == (x + t.value) + u.value;
        }
      }
    }
  }

  lemma FilteredSingleton(d: Snapshot, roles: RoleSet, g: Group)
    ensures FilteredGroups(d, roles, [g]) ==
      match FilterGroup(d, roles, g)
      case Err(f) => Err(f)
      case Ok(h) => Ok(if h.Some? then [h.value] else [])
  {
    assert [g][0] == g && [g][1..] == [];
    assert FilteredGroups(d, roles, []) == Ok([]);
    var h := FilterGroup(d, roles, g);
    if h.Ok? {
      var x: seq<Group> := if h.value.Some? then [h.value.value] else [];
      assert x + [] == x;
      assert FilteredGroups(d, roles, [g]) == Ok(x + []);
    }
  }

  /** A group is in the result exactly when it is the filtered form of a kept
      input group. */
  lemma {:induction false} FilteredGroupsMembers(d: Snapshot, roles: RoleSet, groups: seq<Group>, x: Group)
    requires FilteredGroups(d, roles, groups).Ok?
    ensures x in FilteredGroups(d, roles, groups).value <==>
      exists k | 0 <= k < |groups| :: FilterGroup(d, roles, groups[k]) == Ok(Some(x))
  {
    if groups != [] {
      assert forall k | 1 <= k < |groups| :: groups[k] == groups[1..][k - 1];
      FilteredGroupsMembers(d, roles, groups[1..], x);
      if x in FilteredGroups(d, roles, groups[1..]).value {
        var k :| 0 <= k < |groups[1..]| && FilterGroup(d, roles, groups[1..][k]) == Ok(Some(x));
        assert FilterGroup(d, roles, groups[k + 1]) == Ok(Some(x));
      }
    }
  }

  /** A group without a string id or name never reaches the result. */
  lemma UnnamedGroupDropped(d: Snapshot, roles: RoleSet, a: seq<Group>, g: Group)
    requires !Named(g)
    ensures FilteredGroups(d, roles, a + [g]) == FilteredGroups(d, roles, a)
  {
    FilteredGroupsAppend(d, roles, a, [g]);
    FilteredSingleton(d, roles, g);
    var t := FilteredGroups(d, roles, a);
    if t.Ok? {
      assert t.value + [] == t.value;
    }
  }

  /** Filtering one more group. */
  lemma FilteredSnoc(d: Snapshot, roles: RoleSet, pre: seq<Group>, g: Group, acc: seq<Group>)
    requires FilteredGroups(d, roles, pre) == Ok(acc)
    ensures var h := FilterGroup(d, roles, g);
      && (h.Err? ==> FilteredGroups(d, roles, pre + [g]) == Err(h.fault))
      && (h.Ok? ==> FilteredGroups(d, roles, pre + [g]) == Ok(acc + (if h.value.Some? then [h.value.value] else [])))
  {
    FilteredGroupsAppend(d, roles, pre, [g]);
    FilteredSingleton(d, roles, g);
  }

  /** A failure in a prefix is the failure of the whole list. */
  lemma FilteredErrPrefix(d: Snapshot, roles: RoleSet, pre: seq<Group>, post: seq<Group>)
    requires FilteredGroups(d, roles, pre).Err?
    ensures FilteredGroups(d, roles, pre + post) == FilteredGroups(d, roles, pre)
  {
    FilteredGroupsAppend(d, roles, pre, post);
  }

  /** One more group of the loop: a failure ends the whole operation with it,
      and anything else extends the prefix's result. */
  lemma FilterPrefixStep(d: Snapshot, roles: RoleSet, groups: seq<Group>, i: nat, acc: seq<Group>)
    requires i < |groups| && FilteredGroups(d, roles, groups[..i]) == Ok(acc)
    ensures var h := FilterGroup(d, roles, groups[i]);
      && (h.Err? ==> FilteredGroups(d, roles, groups) == Err(h.fault))
      && (h.Ok? ==> FilteredGroups(d, roles, groups[..i + 1]) == Ok(acc + (if h.value.Some? then [h.value.value] else [])))
  {
    assert groups[..i + 1] == groups[..i] + [groups[i]];
    FilteredSnoc(d, roles, groups[..i], groups[i], acc);
    if FilterGroup(d, roles, groups[i]).Err? {
      FilteredErrPrefix(d, roles, groups[..i + 1], groups[i + 1..]);
      assert groups[..i + 1] + groups[i + 1..] == groups;
    }
  }

  /** GetFilteredGroupsByRolesAsync: the roles come from the claims, then the
      top-level groups are fetched and filtered one level deep. */
  function FilteredGroupsFor(d: Snapshot, claims: seq<Claim>): Result<seq<Group>> {
    var groups :- d.groups;
    FilteredGroups(d, ExtractRealmRoles(claims), groups)
  }

  method GetFilteredGroupsByRolesAsync(d: Snapshot, claims: seq<Claim>) returns (r: Result<seq<Group>>)
    ensures r == FilteredGroupsFor(d, claims)
  {
    var userRoles := ExtractRealmRoles(claims);
    if d.groups.Err? {
      return Err(d.groups.fault);
    }
    var allGroups := d.groups.value;
    var result: seq<Group> := [];
    var i := 0;
    while i < |allGroups|
      invariant 0 <= i <= |allGroups|
      invariant FilteredGroups(d, userRoles, allGroups[..i]) == Ok(result)
      decreases |allGroups| - i
    {
      var filtered := FilterGroup(d, userRoles, allGroups[i]);
      FilterPrefixStep(d, userRoles, allGroups, i, result);
      if filtered.Err? {
        return Err(filtered.fault);
      }
      if filtered.value.Some? {
        result := result + [filtered.value.value];
      } else {
        assert result + [] == result;
      }
      i := i + 1;
    }
    assert allGroups[..i] == allGroups;
    return Ok(result);
  }

  // ------------------------------------------------- CollectGroupsRecursively

  /** GroupWithUsersDto. */
  datatype GroupWithUsers = GroupWithUsers(groupId: string, groupName: string, users: seq<UserDto>)

  /** `users.Any(u => u.Id == userId)`, an exact comparison. */
  predicate HasMember(users: seq<UserRep>, userId: string) {
    exists k | 0 <= k < |users| :: users[k].id == userId
  }

  /** CollectGroupsRecursively on one group: a group without a string id or
      name is skipped with its subtree; otherwise the group is listed, with its
      whole member list, when `userId` is among its members, and then each of
      its children is visited, whether or not it was listed. */
  function CollectNode(d: Snapshot, ghost rank: string -> nat, userId: string, g: Group, acc: seq<GroupWithUsers>)
    : Result<seq<GroupWithUsers>>
    requires Ranked(d, rank)
    decreases Measure(rank, g), 0, 0
  {
    var (okId, groupId) := TryGetString(g, "id");
    var (okName, groupName) := TryGetString(g, "name");
    if !okId || !okName then Ok(acc)
    else
      var users :- Members(d, groupId);
      var acc1 := if HasMember(users, userId) then acc + [GroupWithUsers(groupId, groupName, ToUserDtos(users, None))] else acc;
      var children :- Children(d, groupId);
      CollectList(d, rank, userId, groupId, children, 0, acc1)
  }

  /** The loop over the children of group `parent`, from child `i` on. */
  function CollectList(d: Snapshot, ghost rank: string -> nat, userId: string, ghost parent: string,
                       children: seq<Group>, i: nat, acc: seq<GroupWithUsers>)
    : Result<seq<GroupWithUsers>>
    requires Ranked(d, rank) && i <= |children|
    requires forall c | c in children :: Measure(rank, c) <= rank(parent)
    decreases rank(parent), 1, |children| - i
  {
    if i == |children| then Ok(acc)
    else
      var acc1 :- CollectNode(d, rank, userId, children[i], acc);
      CollectList(d, rank, userId, parent, children, i + 1, acc1)
  }

  method CollectGroupsRecursively(d: Snapshot, ghost rank: string -> nat, userId: string, group: Group, acc: seq<GroupWithUsers>)
    returns (r: Result<seq<GroupWithUsers>>)
    requires Ranked(d, rank)
    ensures r == CollectNode(d, rank, userId, group, acc)
    decreases Measure(rank, group)
  {
    var (okId, groupId) := TryGetString(group, "id");
    var (okName, groupName) := TryGetString(group, "name");
    if !okId || !okName {
      return Ok(acc);
    }
    var users := Members(d, groupId);
    if users.Err? {
      return Err(users.fault);
    }
    var result := acc;
    if HasMember(users.value, userId) {
      result := result + [GroupWithUsers(groupId, groupName, ToUserDtos(users.value, None))];
    }
    var children := Children(d, groupId);
    if children.Err? {
      return Err(children.fault);
    }
    var i := 0;
    while i < |children.value|
      invariant 0 <= i <= |children.value|
      invariant CollectList(d, rank, userId, groupId, children.value, i, result) == CollectNode(d, rank, userId, group, acc)
      decreases |children.value| - i
    {
      var child := children.value[i];
      assert Measure(rank, child) <= rank(groupId);
      var next := CollectGroupsRecursively(d, rank, userId, child, result);
      if next.Err? {
        return next;
      }
      result := next.value;
      i := i + 1;
    }
    return Ok(result);
  }

  // --------------------------------------------- GetGroupsWithUsersByRolesAsync

  /** The caller's id: the value of the first claim present among
      NameIdentifier, "sub", "user_id" and "preferred_username", each looked up
      with FindFirst. A present claim with a blank value is not skipped. */
  function CallerUserId(claims: seq<Claim>): (r: Option<string>)
    ensures r.None? <==>
      forall kind | kind in [NameIdentifier, "sub", "user_id", "preferred_username"] :: FindFirst(claims, kind).None?
    ensures r.Some? ==> exists i | 0 <= i < |claims| :: claims[i].value == r.value
  {
    var a := FindFirstValue(claims, NameIdentifier);
    if a.Some? then a
    else
      var b := FindFirstValue(claims, "sub");
      if b.Some? then b
      else
        var c := FindFirstValue(claims, "user_id");
        if c.Some? then c else FindFirstValue(claims, "preferred_username")
  }

  /** The loop over the top-level groups from group `i` on. */
  function CollectTop(d: Snapshot, ghost rank: string -> nat, userId: string, groups: seq<Group>, i: nat, acc: seq<GroupWithUsers>)
    : Result<seq<GroupWithUsers>>
    requires Ranked(d, rank) && i <= |groups|
    decreases |groups| - i
  {
    if i == |groups| then Ok(acc)
    else
      var acc1 :- CollectNode(d, rank, userId, groups[i], acc);
      CollectTop(d, rank, userId, groups, i + 1, acc1)
  }

  /** GetGroupsWithUsersByRolesAsync: the groups (at any depth) that list the
      caller among their members, in pre-order. */
  function GroupsWithUsers(d: Snapshot, ghost rank: string -> nat, claims: seq<Claim>): Result<seq<GroupWithUsers>>
    requires Ranked(d, rank)
  {
    var userId := CallerUserId(claims);
    if IsNullOrWhiteSpace(userId) then Ok([])
    else
      var groups :- d.groups;
      CollectTop(d, rank, userId.value, groups, 0, [])
  }

  method GetGroupsWithUsersByRolesAsync(d: Snapshot, ghost rank: string -> nat, claims: seq<Claim>)
    returns (r: Result<seq<GroupWithUsers>>)
    requires Ranked(d, rank)
    ensures r == GroupsWithUsers(d, rank, claims)
  {
    var userId := CallerUserId(claims);
    if IsNullOrWhiteSpace(userId) {
      return Ok([]);
    }
    if d.groups.Err? {
      return Err(d.groups.fault);
    }
    var groups := d.groups.value;
    var result: seq<GroupWithUsers> := [];
    var i := 0;
    while i < |groups|
      invariant 0 <= i <= |groups|
      invariant CollectTop(d, rank, userId.value, groups, i, result) == GroupsWithUsers(d, rank, claims)
      decreases |groups| - i
    {
      var next := CollectGroupsRecursively(d, rank, userId.value, groups[i], result);
      if next.Err? {
        return next;
      }
      result := next.value;
      i := i + 1;
    }
    return Ok(result);
  }

  // ------------------------------------------------------------ UpdateGroupAsync

  /** UpdateGroupAsync: PUT groups/{GroupId} with the new name; a failed
      status raises, and every success status answers true. */
  function UpdateGroupOutcome(answer: Request -> Reply, group: GroupRepresentation): (o: Outcome<bool>)
    ensures o.sent == [PutGroup(GuidText(group.groupId), group.name)]
    ensures var status := answer(PutGroup(GuidText(group.groupId), group.name)).status;
      && (IsSuccess(status) ==> o.result == Ok(true))
      && (!IsSuccess(status) ==> o.result == Err(HttpStatus(status)))
  {
    var req := PutGroup(GuidText(group.groupId), group.name);
    var rep := EnsureSuccess(answer(req));
    Outcome(if rep.Err? then Err(rep.fault) else Ok(true), [req])
  }

  method UpdateGroupAsync(kc: Keycloak, group: GroupRepresentation) returns (r: Result<bool>)
    modifies kc
    ensures kc.sent == old(kc.sent) + UpdateGroupOutcome(kc.answer, group).sent
    ensures r == UpdateGroupOutcome(kc.answer, group).result
  {
    var response := kc.Send(PutGroup(GuidText(group.groupId), group.name));
    var ok := EnsureSuccess(response);
    if ok.Err? {
      return Err(ok.fault);
    }
    r := Ok(true);
  }

  // ------------------------------------- GetGroupByNameAsync, CreateGroupIfNotExistsAsync

  /** `groups.Where(g => g.Name == name)`: exact, case-sensitive. */
  function ExactMatches(groups: seq<GroupRepresentation>, name: string): (r: seq<GroupRepresentation>)
    ensures |r| <= |groups|
    ensures forall k | 0 <= k < |r| :: r[k].name == name && r[k] in groups
    ensures forall k | 0 <= k < |groups| :: groups[k].name == name ==> groups[k] in r
  {
    if groups == [] then []
    else
      var rest := ExactMatches(groups[1..], name);
      assert forall k | 1 <= k < |groups| :: groups[k] == groups[1..][k - 1];
      (if groups[0].name == name then [groups[0]] else []) + rest
  }

  /** GetGroupByNameAsync: the search results whose name is exactly `name`. */
  function GroupByName(d: Snapshot, name: string): Result<seq<GroupRepresentation>> {
    var groups :- Search(d, name);
    Ok(ExactMatches(groups, name))
  }

  /** `FirstOrDefault(g => g.GroupId.HasValue)`. */
  function FirstWithId(groups: seq<GroupRepresentation>): (r: Option<GroupRepresentation>)
    ensures r.None? <==> forall k | 0 <= k < |groups| :: groups[k].groupId.None?
    ensures r.Some? ==> exists k | 0 <= k < |groups| ::
      groups[k] == r.value && r.value.groupId.Some? && forall j | 0 <= j < k :: groups[j].groupId.None?
  {
    if groups == [] then None
    else if groups[0].groupId.Some? then Some(groups[0])
    else
      assert forall j | 1 <= j < |groups| :: groups[j] == groups[1..][j - 1];
      FirstWithId(groups[1..])
  }

  /** CreateGroupIfNotExistsAsync: the first exact-name match that has a group
      id is reused; otherwise the group is created. */
  function CreateIfMissingOutcome(d: Snapshot, answer: Request -> Reply, name: string): Outcome<string> {
    var existing := GroupByName(d, name);
    if existing.Err? then Outcome(Err(existing.fault), [])
    else
      var found := FirstWithId(existing.value);
      if found.Some? then Outcome(Ok(GuidText(found.value.groupId)), [])
      else CreateGroupOutcome(answer, name)
  }

  method CreateGroupIfNotExistsAsync(kc: Keycloak, name: string) returns (r: Result<string>)
    modifies kc
    ensures kc.sent == old(kc.sent) + CreateIfMissingOutcome(kc.dir, kc.answer, name).sent
    ensures r == CreateIfMissingOutcome(kc.dir, kc.answer, name).result
  {
    var existingGroups := GroupByName(kc.dir, name);
    if existingGroups.Err? {
      return Err(existingGroups.fault);
    }
    if |existingGroups.value| > 0 {
      var existingGroup := FirstWithId(existingGroups.value);
      if existingGroup.Some? {
        return Ok(GuidText(existingGroup.value.groupId));
      }
    }
    r := CreateGroupAsync(kc, name);
  }
}
