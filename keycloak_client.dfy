/** KeyCloakClient: the admin-API client behind IdentityProviderService and
  UserGroupQueryService.

  Reads go to the directory snapshot. Writes go through the `Keycloak` server
  object, and each has a pure description (`...Outcome`) of the result and of
  the requests it sends. The group tree is assembled in place: the loops of
  GetAllGroupsAsync and ProcessSubGroupsRecursivelyAsync overwrite entries of
  an array and are proved against the functions `AllGroups` and
  `ProcessedList`.
 */
module KeyCloakClient {
  import opened Wrappers
  import opened Json
  import opened Text
  import opened KeycloakJsonHelpers
  import opened GroupRepresentations
  import opened Directory
  import opened AdminApi

  // ------------------------------------------------------------ group tree

  /** One entry of ProcessSubGroupsRecursivelyAsync's loop. An entry whose "id"
      is a JSON or CLR string gets "subGroups": its processed children, or an
      empty list when it has none. Any other entry is left as it is. */
  function ProcessedNode(d: Snapshot, ghost rank: string -> nat, g: Group): Result<Group>
    requires Ranked(d, rank)
    decreases Measure(rank, g), 0, 0
  {
    var (ok, groupId) := TryGetString(g, "id");
    if !ok then Ok(g)
    else
      var subGroups :- Children(d, groupId);
      if |subGroups| > 0 then
        var processed :- ProcessedList(d, rank, groupId, subGroups, 0);
        Ok(SetField(g, "subGroups", ClrList(processed)))
      else
        Ok(SetField(g, "subGroups", ClrList([])))
  }

  /** ProcessSubGroupsRecursivelyAsync on the children of `parent`, from entry
      `i` on: every entry processed, the first failed fetch aborting. */
  function ProcessedList(d: Snapshot, ghost rank: string -> nat, ghost parent: string, groups: seq<Group>, i: nat)
    : Result<seq<Group>>
    requires Ranked(d, rank) && i <= |groups|
    requires forall c | c in groups :: Measure(rank, c) <= rank(parent)
    decreases rank(parent), 1, |groups| - i
  {
    if i == |groups| then Ok([])
    else
      var head :- ProcessedNode(d, rank, groups[i]);
      var tail :- ProcessedList(d, rank, parent, groups, i + 1);
      Ok([head] + tail)
  }

  lemma ProcessedListCons(d: Snapshot, rank: string -> nat, parent: string, groups: seq<Group>, i: nat)
    requires Ranked(d, rank) && i < |groups|
    requires forall c | c in groups :: Measure(rank, c) <= rank(parent)
    ensures var tail := ProcessedList(d, rank, parent, groups, i + 1);
      ProcessedList(d, rank, parent, groups, i) ==
        match ProcessedNode(d, rank, groups[i])
        case Err(f) => Err(f)
        case Ok(head) => if tail.Ok? then Ok([head] + tail.value) else tail
  {
  }

  /** Once entries `lo..i` are known to process to `done[lo..i]`, the list from
      `lo` is that prefix followed by the list from `i`. */
  lemma {:induction false} ProcessedListPrefix(d: Snapshot, rank: string -> nat, parent: string,
                                               groups: seq<Group>, done: seq<Group>, lo: nat, i: nat)
    requires Ranked(d, rank) && lo <= i <= |groups| && |done| == |groups|
    requires forall c | c in groups :: Measure(rank, c) <= rank(parent)
    requires forall j | lo <= j < i :: ProcessedNode(d, rank, groups[j]) == Ok(done[j])
    ensures var rest := ProcessedList(d, rank, parent, groups, i);
      ProcessedList(d, rank, parent, groups, lo) == if rest.Ok? then Ok(done[lo..i] + rest.value) else rest
    decreases i - lo
  {
    var rest := ProcessedList(d, rank, parent, groups, i);
    if lo == i {
      if rest.Ok? {
        assert done[lo..i] + rest.value == rest.value;
      }
    } else {
      ProcessedListPrefix(d, rank, parent, groups, done, lo + 1, i);
      assert ProcessedNode(d, rank, groups[lo]) == Ok(done[lo]);
      ProcessedListCons(d, rank, parent, groups, lo);
      if rest.Ok? {
        assert done[lo..i] + rest.value == [done[lo]] + (done[lo + 1..i] + rest.value);
      }
    }
  }

  method ProcessSubGroupsRecursivelyAsync(d: Snapshot, ghost rank: string -> nat, ghost parent: string, groups: array<Group>)
    returns (r: Result<seq<Group>>)
    requires Ranked(d, rank)
    requires forall c | c in groups[..] :: Measure(rank, c) <= rank(parent)
    modifies groups
    ensures r == ProcessedList(d, rank, parent, old(groups[..]), 0)
    ensures r.Ok? ==> groups[..] == r.value
    decreases rank(parent)
  {
    ghost var orig := groups[..];
    var i := 0;
    while i < groups.Length
      invariant 0 <= i <= groups.Length
      invariant forall j | i <= j < groups.Length :: groups[j] == orig[j]
      invariant forall j | 0 <= j < i :: ProcessedNode(d, rank, orig[j]) == Ok(groups[j])
    {
      var (ok, groupId) := TryGetString(groups[i], "id");
      if ok {
        var subGroups := Children(d, groupId);
        if subGroups.Err? {
          ProcessedListPrefix(d, rank, parent, orig, groups[..], 0, i);
          return Err(subGroups.fault);
        }
        if |subGroups.value| > 0 {
          var children := new Group[|subGroups.value|](k requires 0 <= k < |subGroups.value| => subGroups.value[k]);
          assert children[..] == subGroups.value;
          assert Measure(rank, orig[i]) <= rank(parent);
          var processed := ProcessSubGroupsRecursivelyAsync(d, rank, groupId, children);
          if processed.Err? {
            ProcessedListPrefix(d, rank, parent, orig, groups[..], 0, i);
            return Err(processed.fault);
          }
          groups[i] := SetField(groups[i], "subGroups", ClrList(processed.value));
        } else {
          groups[i] := SetField(groups[i], "subGroups", ClrList([]));
        }
      }
      i := i + 1;
    }
    ProcessedListPrefix(d, rank, parent, orig, groups[..], 0, groups.Length);
    assert groups[..][0..groups.Length] + [] == groups[..];
    return Ok(groups[..]);
  }

  /** The id GetAllGroupsAsync descends by: only a JSON string element. */
  predicate HasJsonStringId(g: Group) {
    "id" in g.fields && g.fields["id"].Element? && g.fields["id"].json.JString?
  }

  /** One top-level entry of GetAllGroupsAsync's loop: "subGroups" is written
      only when the group has at least one child. */
  function AssembledGroup(d: Snapshot, ghost rank: string -> nat, g: Group): Result<Group>
    requires Ranked(d, rank)
  {
    if !HasJsonStringId(g) then Ok(g)
    else
      var groupId := g.fields["id"].json.s;
      var subGroups :- Children(d, groupId);
      if |subGroups| > 0 then
        var processed :- ProcessedList(d, rank, groupId, subGroups, 0);
        Ok(SetField(g, "subGroups", ClrList(processed)))
      else
        Ok(g)
  }

  function AssembledList(d: Snapshot, ghost rank: string -> nat, groups: seq<Group>, i: nat): Result<seq<Group>>
    requires Ranked(d, rank) && i <= |groups|
    decreases |groups| - i
  {
    if i == |groups| then Ok([])
    else
      var head :- AssembledGroup(d, rank, groups[i]);
      var tail :- AssembledList(d, rank, groups, i + 1);
      Ok([head] + tail)
  }

  /** GetAllGroupsAsync: the top-level groups with their subtrees attached. */
  function AllGroups(d: Snapshot, ghost rank: string -> nat): Result<seq<Group>>
    requires Ranked(d, rank)
  {
    var groups :- d.groups;
    AssembledList(d, rank, groups, 0)
  }

  lemma AssembledListCons(d: Snapshot, rank: string -> nat, groups: seq<Group>, i: nat)
    requires Ranked(d, rank) && i < |groups|
    ensures var tail := AssembledList(d, rank, groups, i + 1);
      AssembledList(d, rank, groups, i) ==
        match AssembledGroup(d, rank, groups[i])
        case Err(f) => Err(f)
        case Ok(head) => if tail.Ok? then Ok([head] + tail.value) else tail
  {
  }

  lemma {:induction false} AssembledListPrefix(d: Snapshot, rank: string -> nat, groups: seq<Group>, done: seq<Group>,
                                               lo: nat, i: nat)
    requires Ranked(d, rank) && lo <= i <= |groups| && |done| == |groups|
    requires forall j | lo <= j < i :: AssembledGroup(d, rank, groups[j]) == Ok(done[j])
    ensures var rest := AssembledList(d, rank, groups, i);
      AssembledList(d, rank, groups, lo) == if rest.Ok? then Ok(done[lo..i] + rest.value) else rest
    decreases i - lo
  {
    var rest := AssembledList(d, rank, groups, i);
    if lo == i {
      if rest.Ok? {
        assert done[lo..i] + rest.value == rest.value;
      }
    } else {
      AssembledListPrefix(d, rank, groups, done, lo + 1, i);
      assert AssembledGroup(d, rank, groups[lo]) == Ok(done[lo]);
      AssembledListCons(d, rank, groups, lo);
      if rest.Ok? {
        assert done[lo..i] + rest.value == [done[lo]] + (done[lo + 1..i] + rest.value);
      }
    }
  }

  method GetAllGroupsAsync(d: Snapshot, ghost rank: string -> nat) returns (r: Result<seq<Group>>)
    requires Ranked(d, rank)
    ensures r == AllGroups(d, rank)
  {
    if d.groups.Err? {
      return Err(d.groups.fault);
    }
    var allGroups := new Group[|d.groups.value|](k requires 0 <= k < |d.groups.value| => d.groups.value[k]);
    ghost var orig := allGroups[..];
    assert orig == d.groups.value;
    var i := 0;
    while i < allGroups.Length
      invariant 0 <= i <= allGroups.Length
      invariant forall j | i <= j < allGroups.Length :: allGroups[j] == orig[j]
      invariant forall j | 0 <= j < i :: AssembledGroup(d, rank, orig[j]) == Ok(allGroups[j])
    {
      if HasJsonStringId(allGroups[i]) {
        var groupId := allGroups[i].fields["id"].json.s;
        var subGroups := Children(d, groupId);
        if subGroups.Err? {
          AssembledListPrefix(d, rank, orig, allGroups[..], 0, i);
          return Err(subGroups.fault);
        }
        if |subGroups.value| > 0 {
          var children := new Group[|subGroups.value|](k requires 0 <= k < |subGroups.value| => subGroups.value[k]);
          assert children[..] == subGroups.value;
          var processed := ProcessSubGroupsRecursivelyAsync(d, rank, groupId, children);
          if processed.Err? {
            AssembledListPrefix(d, rank, orig, allGroups[..], 0, i);
            return Err(processed.fault);
          }
          allGroups[i] := SetField(allGroups[i], "subGroups", ClrList(processed.value));
        }
      }
      i := i + 1;
    }
    AssembledListPrefix(d, rank, orig, allGroups[..], 0, allGroups.Length);
    assert allGroups[..][0..allGroups.Length] + [] == allGroups[..];
    return Ok(allGroups[..]);
  }

  // -------------------------------------------------------- reads by name

  /** `groups.FirstOrDefault(g => g.Name.Equals(name, OrdinalIgnoreCase))`. */
  function FirstNamed(groups: seq<GroupRepresentation>, name: string): (r: Option<GroupRepresentation>)
    ensures r.None? <==> forall k | 0 <= k < |groups| :: !EqualsIgnoreCase(groups[k].name, name)
    ensures r.Some? ==> exists k | 0 <= k < |groups| ::
      groups[k] == r.value && EqualsIgnoreCase(r.value.name, name)
      && forall j | 0 <= j < k :: !EqualsIgnoreCase(groups[j].name, name)
  {
    if groups == [] then None
    else if EqualsIgnoreCase(groups[0].name, name) then Some(groups[0])
    else
      assert forall j | 1 <= j < |groups| :: groups[j] == groups[1..][j - 1];
      FirstNamed(groups[1..], name)
  }

  /** GetUsersByGroupAsync: the members of the first group whose name equals the
      path without its leading '/' characters (ignoring case), each carrying the
      path as given; no such group gives an empty list. */
  function UsersByGroup(d: Snapshot, groupPath: string): Result<seq<UserDto>> {
    UsersOfGroupNamed(d, TrimStart(groupPath, '/'), groupPath)
  }

  /** The rest of GetUsersByGroupAsync once the group name is known. */
  function UsersOfGroupNamed(d: Snapshot, name: string, groupPath: string): Result<seq<UserDto>> {
    var groups :- d.groupList;
    var target := FirstNamed(groups, name);
    if target.None? then Ok([])
    else
      var users :- Members(d, GuidText(target.value.groupId));
      Ok(ToUserDtos(users, Some(groupPath)))
  }

  /** GetGroupByNameAsync: every search hit, rebuilt through the record's
      constructor from its name and id; nothing is filtered out. */
  function GroupByName(d: Snapshot, name: string): (r: Result<seq<GroupRepresentation>>)
    ensures r.Err? <==> Search(d, name).Err?
    ensures r.Ok? ==> |r.value| == |Search(d, name).value|
    ensures r.Ok? ==> forall k | 0 <= k < |r.value| ::
      var hit := Search(d, name).value[k];
      r.value[k] == NewGroupRepresentation(hit.name, hit.groupId, None)
  {
    var groups :- Search(d, name);
    Ok(seq(|groups|, k requires 0 <= k < |groups| => NewGroupRepresentation(groups[k].name, groups[k].groupId, None)))
  }

  /** GroupExistsAsync: the direct lookup succeeds, or else the group list can
      be read and some group's name equals the id text, ignoring case. */
  function GroupExists(d: Snapshot, groupId: Guid): (r: bool)
    ensures DetailsFound(d, groupId.text) ==> r
    ensures !DetailsFound(d, groupId.text) && d.groupList.Err? ==> !r
    ensures !DetailsFound(d, groupId.text) && d.groupList.Ok? ==>
      (r <==> exists k | 0 <= k < |d.groupList.value| :: EqualsIgnoreCase(d.groupList.value[k].name, groupId.text))
  {
    if DetailsFound(d, groupId.text) then true
    else if d.groupList.Err? then false
    else FirstNamed(d.groupList.value, groupId.text).Some?
  }

  // ---------------------------------------------------------------- writes

  /** RegisterUserAsync: POST users, then the new id from the Location header. */
  function RegisterUserOutcome(answer: Request -> Reply, user: UserModel): (o: Outcome<string>)
    ensures o.sent == [PostUser(user)]
    ensures !IsSuccess(answer(PostUser(user)).status) ==> o.result == Err(HttpStatus(answer(PostUser(user)).status))
    ensures IsSuccess(answer(PostUser(user)).status) ==> o.result == IdFromLocation(answer(PostUser(user)).location, "users/")
  {
    var rep := EnsureSuccess(answer(PostUser(user)));
    Outcome(if rep.Err? then Err(rep.fault) else IdFromLocation(rep.value.location, "users/"), [PostUser(user)])
  }

  /** CreateGroupIfNotExistsAsync: the first group whose name matches ignoring
      case is reused when it has an id; otherwise (no match, or a first match
      without an id) the group is created. */
  function CreateIfMissingOutcome(d: Snapshot, answer: Request -> Reply, name: string): Outcome<string> {
    if d.groupList.Err? then Outcome(Err(d.groupList.fault), [])
    else
      var existing := FirstNamed(d.groupList.value, name);
      if existing.Some? && existing.value.groupId.Some? then Outcome(Ok(existing.value.groupId.value.text), [])
      else CreateGroupOutcome(answer, name)
  }

  /** AssignUserToGroupAsync: PUT users/{userId}/groups/{groupId}. */
  function AssignUserToGroupOutcome(answer: Request -> Reply, userId: string, groupId: string): (o: Outcome<()>)
    ensures o.sent == [PutMembership(userId, groupId)]
    ensures o.result.Ok? <==> IsSuccess(answer(PutMembership(userId, groupId)).status)
    ensures o.result.Err? ==> o.result.fault == HttpStatus(answer(PutMembership(userId, groupId)).status)
  {
    var rep := EnsureSuccess(answer(PutMembership(userId, groupId)));
    Outcome(if rep.Err? then Err(rep.fault) else Ok(()), [PutMembership(userId, groupId)])
  }

  /** AssignRealmRoleToUserAsync: the role is read first; a failed read or a
      null role aborts before the mapping is posted. */
  function AssignRealmRoleOutcome(d: Snapshot, answer: Request -> Reply, userId: string, roleName: string): (o: Outcome<()>)
    ensures Role(d, roleName).Err? ==> o == Outcome(Err(Role(d, roleName).fault), [])
    ensures Role(d, roleName) == Ok(None) ==> o == Outcome(Err(RoleNotFound), [])
    ensures Role(d, roleName).Ok? && Role(d, roleName).value.Some? ==>
      var req := PostRoleMapping(userId, Role(d, roleName).value.value);
      && o.sent == [req]
      && (o.result.Ok? <==> IsSuccess(answer(req).status))
  {
    var role := Role(d, roleName);
    if role.Err? then Outcome(Err(role.fault), [])
    else if role.value.None? then Outcome(Err(RoleNotFound), [])
    else
      var req := PostRoleMapping(userId, role.value.value);
      var rep := EnsureSuccess(answer(req));
      Outcome(if rep.Err? then Err(rep.fault) else Ok(()), [req])
  }

  /** UpdateGroupAsync: PUT groups/{GroupId} with the new name, then whether
      the group exists (a null id is looked up as Guid.Empty). */
  function UpdateGroupOutcome(d: Snapshot, answer: Request -> Reply, group: GroupRepresentation): Outcome<bool> {
    var req := PutGroup(GuidText(group.groupId), group.name);
    var rep := EnsureSuccess(answer(req));
    if rep.Err? then Outcome(Err(rep.fault), [req])
    else Outcome(Ok(GroupExists(d, if group.groupId.Some? then group.groupId.value else EmptyGuid)), [req])
  }

  /** DeleteGroupAsync: 404 raises InvalidOperationException, any other failure
      an HttpRequestException, and success returns the id text. */
  function DeleteGroupOutcome(answer: Request -> Reply, groupId: Guid): (o: Outcome<string>)
    ensures o.sent == [DeleteGroup(groupId.text)]
    ensures var status := answer(DeleteGroup(groupId.text)).status;
      && (status == NotFound ==> o.result == Err(InvalidOperation))
      && (status != NotFound && !IsSuccess(status) ==> o.result == Err(HttpStatus(status)))
      && (IsSuccess(status) ==> o.result == Ok(groupId.text))
  {
    var rep := answer(DeleteGroup(groupId.text));
    if rep.status == NotFound then Outcome(Err(InvalidOperation), [DeleteGroup(groupId.text)])
    else
      var ok := EnsureSuccess(rep);
      Outcome(if ok.Err? then Err(ok.fault) else Ok(groupId.text), [DeleteGroup(groupId.text)])
  }

  method RegisterUserAsync(kc: Keycloak, user: UserModel) returns (r: Result<string>)
    modifies kc
    ensures kc.sent == old(kc.sent) + RegisterUserOutcome(kc.answer, user).sent
    ensures r == RegisterUserOutcome(kc.answer, user).result
  {
    var response := kc.Send(PostUser(user));
    var ok := EnsureSuccess(response);
    if ok.Err? {
      return Err(ok.fault);
    }
    r := IdFromLocation(response.location, "users/");
  }

  method CreateGroupIfNotExistsAsync(kc: Keycloak, name: string) returns (r: Result<string>)
    modifies kc
    ensures kc.sent == old(kc.sent) + CreateIfMissingOutcome(kc.dir, kc.answer, name).sent
    ensures r == CreateIfMissingOutcome(kc.dir, kc.answer, name).result
  {
    if kc.dir.groupList.Err? {
      return Err(kc.dir.groupList.fault);
    }
    var existing := FirstNamed(kc.dir.groupList.value, name);
    if existing.Some? && existing.value.groupId.Some? {
      return Ok(existing.value.groupId.value.text);
    }
    r := CreateGroupAsync(kc, name);
  }

  method AssignUserToGroupAsync(kc: Keycloak, userId: string, groupId: string) returns (r: Result<()>)
    modifies kc
    ensures kc.sent == old(kc.sent) + AssignUserToGroupOutcome(kc.answer, userId, groupId).sent
    ensures r == AssignUserToGroupOutcome(kc.answer, userId, groupId).result
  {
    var response := kc.Send(PutMembership(userId, groupId));
    var ok := EnsureSuccess(response);
    r := if ok.Err? then Err(ok.fault) else Ok(());
  }

  method AssignRealmRoleToUserAsync(kc: Keycloak, userId: string, roleName: string) returns (r: Result<()>)
    modifies kc
    ensures kc.sent == old(kc.sent) + AssignRealmRoleOutcome(kc.dir, kc.answer, userId, roleName).sent
    ensures r == AssignRealmRoleOutcome(kc.dir, kc.answer, userId, roleName).result
  {
    var role := Role(kc.dir, roleName);
    if role.Err? {
      return Err(role.fault);
    }
    if role.value.None? {
      return Err(RoleNotFound);
    }
    var response := kc.Send(PostRoleMapping(userId, role.value.value));
    var ok := EnsureSuccess(response);
    r := if ok.Err? then Err(ok.fault) else Ok(());
  }

  method UpdateGroupAsync(kc: Keycloak, group: GroupRepresentation) returns (r: Result<bool>)
    modifies kc
    ensures kc.sent == old(kc.sent) + UpdateGroupOutcome(kc.dir, kc.answer, group).sent
    ensures r == UpdateGroupOutcome(kc.dir, kc.answer, group).result
  {
    var response := kc.Send(PutGroup(GuidText(group.groupId), group.name));
    var ok := EnsureSuccess(response);
    if ok.Err? {
      return Err(ok.fault);
    }
    var groupId := if group.groupId.Some? then group.groupId.value else EmptyGuid;
    r := Ok(GroupExists(kc.dir, groupId));
  }

  method DeleteGroupAsync(kc: Keycloak, groupId: Guid) returns (r: Result<string>)
    modifies kc
    ensures kc.sent == old(kc.sent) + DeleteGroupOutcome(kc.answer, groupId).sent
    ensures r == DeleteGroupOutcome(kc.answer, groupId).result
  {
    var response := kc.Send(DeleteGroup(groupId.text));
    if response.status == NotFound {
      return Err(InvalidOperation);
    }
    var ok := EnsureSuccess(response);
    r := if ok.Err? then Err(ok.fault) else Ok(groupId.text);
  }
}
