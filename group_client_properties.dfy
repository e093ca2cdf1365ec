/** What the membership search and the create-if-missing step of
  KeycloakGroupClient guarantee.
 */
module KeycloakGroupClientProperties {
  import opened Wrappers
  import opened Json
  import opened Text
  import opened Claims
  import opened KeycloakJsonHelpers
  import opened GroupRepresentations
  import opened Directory
  import opened AdminApi
  import opened KeycloakGroupClient
  import KeyCloakClient

  // ------------------------------------------------- CollectGroupsRecursively

  /** The entry lists the caller among the group's members. */
  predicate ListsCaller(e: GroupWithUsers, userId: string) {
    exists k | 0 <= k < |e.users| :: e.users[k].id == userId
  }

  /** The walk only appends, and everything it appends lists the caller. */
  lemma {:induction false} CollectNodeSound(d: Snapshot, rank: string -> nat, userId: string, g: Group, acc: seq<GroupWithUsers>)
    requires Ranked(d, rank)
    ensures var r := CollectNode(d, rank, userId, g, acc);
      r.Ok? ==> acc <= r.value && forall k | |acc| <= k < |r.value| :: ListsCaller(r.value[k], userId)
    decreases Measure(rank, g), 0, 0
  {
    var (okId, groupId) := TryGetString(g, "id");
    var (okName, groupName) := TryGetString(g, "name");
    if okId && okName && Members(d, groupId).Ok? {
      var users := Members(d, groupId).value;
      var acc1 := if HasMember(users, userId) then acc + [GroupWithUsers(groupId, groupName, ToUserDtos(users, None))] else acc;
      if HasMember(users, userId) {
        var k :| 0 <= k < |users| && users[k].id == userId;
        assert ToUserDtos(users, None)[k].id == userId;
        assert ListsCaller(acc1[|acc|], userId);
      }
      if Children(d, groupId).Ok? {
        CollectListSound(d, rank, userId, groupId, Children(d, groupId).value, 0, acc1);
      }
    }
  }

  lemma {:induction false} CollectListSound(d: Snapshot, rank: string -> nat, userId: string, parent: string,
                                            children: seq<Group>, i: nat, acc: seq<GroupWithUsers>)
    requires Ranked(d, rank) && i <= |children|
    requires forall c | c in children :: Measure(rank, c) <= rank(parent)
    ensures var r := CollectList(d, rank, userId, parent, children, i, acc);
      r.Ok? ==> acc <= r.value && forall k | |acc| <= k < |r.value| :: ListsCaller(r.value[k], userId)
    decreases rank(parent), 1, |children| - i
  {
    if i < |children| {
      CollectNodeSound(d, rank, userId, children[i], acc);
      var r1 := CollectNode(d, rank, userId, children[i], acc);
      if r1.Ok? {
        CollectListSound(d, rank, userId, parent, children, i + 1, r1.value);
      }
    }
  }

  /** A group that lists the caller is entered, with its whole member list,
      before anything from its subtree (pre-order). */
  lemma NodeEntryFirst(d: Snapshot, rank: string -> nat, userId: string, g: Group, acc: seq<GroupWithUsers>)
    requires Ranked(d, rank) && Named(g)
    requires Members(d, TryGetString(g, "id").1).Ok? && HasMember(Members(d, TryGetString(g, "id").1).value, userId)
    requires CollectNode(d, rank, userId, g, acc).Ok?
    ensures var r := CollectNode(d, rank, userId, g, acc).value;
      var users := Members(d, TryGetString(g, "id").1).value;
      |acc| < |r| && r[|acc|] == GroupWithUsers(TryGetString(g, "id").1, TryGetString(g, "name").1, ToUserDtos(users, None))
  {
    var groupId := TryGetString(g, "id").1;
    var users := Members(d, groupId).value;
    var acc1 := acc + [GroupWithUsers(groupId, TryGetString(g, "name").1, ToUserDtos(users, None))];
    CollectListSound(d, rank, userId, groupId, Children(d, groupId).value, 0, acc1);
  }

  /** A group that does not list the caller adds nothing of its own, but its
      children are still visited. */
  lemma NonMemberStillDescends(d: Snapshot, rank: string -> nat, userId: string, g: Group, acc: seq<GroupWithUsers>)
    requires Ranked(d, rank) && Named(g)
    requires Members(d, TryGetString(g, "id").1).Ok? && !HasMember(Members(d, TryGetString(g, "id").1).value, userId)
    requires Children(d, TryGetString(g, "id").1).Ok?
    ensures CollectNode(d, rank, userId, g, acc)
         == CollectList(d, rank, userId, TryGetString(g, "id").1, Children(d, TryGetString(g, "id").1).value, 0, acc)
  {
  }

  lemma {:induction false} CollectTopSound(d: Snapshot, rank: string -> nat, userId: string, groups: seq<Group>, i: nat,
                                           acc: seq<GroupWithUsers>)
    requires Ranked(d, rank) && i <= |groups|
    ensures var r := CollectTop(d, rank, userId, groups, i, acc);
      r.Ok? ==> acc <= r.value && forall k | |acc| <= k < |r.value| :: ListsCaller(r.value[k], userId)
    decreases |groups| - i
  {
    if i < |groups| {
      CollectNodeSound(d, rank, userId, groups[i], acc);
      var r1 := CollectNode(d, rank, userId, groups[i], acc);
      if r1.Ok? {
        CollectTopSound(d, rank, userId, groups, i + 1, r1.value);
      }
    }
  }

  /** Every group GetGroupsWithUsersByRolesAsync returns lists the caller. */
  lemma GroupsWithUsersSound(d: Snapshot, rank: string -> nat, claims: seq<Claim>)
    requires Ranked(d, rank)
    ensures var r := GroupsWithUsers(d, rank, claims);
      r.Ok? ==> forall k | 0 <= k < |r.value| :: ListsCaller(r.value[k], CallerUserId(claims).value)
  {
    if !IsNullOrWhiteSpace(CallerUserId(claims)) && d.groups.Ok? {
      CollectTopSound(d, rank, CallerUserId(claims).value, d.groups.value, 0, []);
    }
  }

  /** `g` has a string id and name, and its members include the caller. */
  predicate CallerListed(d: Snapshot, g: Group, userId: string) {
    && Named(g)
    && Members(d, TryGetString(g, "id").1).Ok?
    && HasMember(Members(d, TryGetString(g, "id").1).value, userId)
  }

  /** The entry the walk makes for such a group, with its whole member list. */
  function EntryFor(d: Snapshot, g: Group): GroupWithUsers
    requires Members(d, TryGetString(g, "id").1).Ok?
  {
    var groupId := TryGetString(g, "id").1;
    GroupWithUsers(groupId, TryGetString(g, "name").1, ToUserDtos(Members(d, groupId).value, None))
  }

  /** `path` is a chain of named groups, each one a child of the one before
      it as the `children` endpoint reports them. */
  ghost predicate Descends(d: Snapshot, path: seq<Group>)
    decreases |path|
  {
    && |path| > 0
    && Named(path[0])
    && (|path| > 1 ==>
          && Children(d, TryGetString(path[0], "id").1).Ok?
          && path[1] in Children(d, TryGetString(path[0], "id").1).value
          && Descends(d, path[1..]))
  }

  lemma InPrefix<T>(x: T, a: seq<T>, b: seq<T>)
    requires x in a && a <= b
    ensures x in b
  {
    var k :| 0 <= k < |a| && a[k] == x;
    assert b[k] == x;
  }

  /** A successful walk from the first group of a chain lists the last group
      of the chain when it lists the caller. */
  lemma {:induction false} CollectNodeComplete(d: Snapshot, rank: string -> nat, userId: string, path: seq<Group>,
                                               acc: seq<GroupWithUsers>)
    requires Ranked(d, rank) && Descends(d, path) && CallerListed(d, path[|path| - 1], userId)
    requires CollectNode(d, rank, userId, path[0], acc).Ok?
    ensures EntryFor(d, path[|path| - 1]) in CollectNode(d, rank, userId, path[0], acc).value
    decreases Measure(rank, path[0]), 0, 0
  {
    var g := path[0];
    var r := CollectNode(d, rank, userId, g, acc).value;
    if |path| == 1 {
      NodeEntryFirst(d, rank, userId, g, acc);
      assert r[|acc|] == EntryFor(d, g);
    } else {
      var groupId := TryGetString(g, "id").1;
      var users := Members(d, groupId).value;
      var acc1 := if HasMember(users, userId) then acc + [GroupWithUsers(groupId, TryGetString(g, "name").1, ToUserDtos(users, None))] else acc;
      var children := Children(d, groupId).value;
      assert CollectNode(d, rank, userId, g, acc) == CollectList(d, rank, userId, groupId, children, 0, acc1);
      var j :| 0 <= j < |children| && children[j] == path[1];
      assert path[1..][|path[1..]| - 1] == path[|path| - 1];
      CollectListComplete(d, rank, userId, groupId, children, 0, acc1, path[1..], j);
    }
  }

  /** The loop over the children lists the last group of a chain that starts
      at child `j`, for a start at any `i <= j`. */
  lemma {:induction false} CollectListComplete(d: Snapshot, rank: string -> nat, userId: string, parent: string,
                                               children: seq<Group>, i: nat, acc: seq<GroupWithUsers>,
                                               path: seq<Group>, j: nat)
    requires Ranked(d, rank) && i <= j < |children|
    requires forall c | c in children :: Measure(rank, c) <= rank(parent)
    requires Descends(d, path) && path[0] == children[j] && CallerListed(d, path[|path| - 1], userId)
    requires CollectList(d, rank, userId, parent, children, i, acc).Ok?
    ensures EntryFor(d, path[|path| - 1]) in CollectList(d, rank, userId, parent, children, i, acc).value
    decreases rank(parent), 1, |children| - i
  {
    var r1 := CollectNode(d, rank, userId, children[i], acc);
    var r := CollectList(d, rank, userId, parent, children, i, acc);
    assert r == CollectList(d, rank, userId, parent, children, i + 1, r1.value);
    if i == j {
      assert Measure(rank, children[i]) <= rank(parent);
      CollectNodeComplete(d, rank, userId, path, acc);
      CollectListSound(d, rank, userId, parent, children, i + 1, r1.value);
      InPrefix(EntryFor(d, path[|path| - 1]), r1.value, r.value);
    } else {
      CollectListComplete(d, rank, userId, parent, children, i + 1, r1.value, path, j);
    }
  }

  /** The loop over the top-level groups lists the last group of a chain
      that starts at top-level group `j`, for a start at any `i <= j`. */
  lemma {:induction false} CollectTopComplete(d: Snapshot, rank: string -> nat, userId: string, groups: seq<Group>,
                                              i: nat, acc: seq<GroupWithUsers>, path: seq<Group>, j: nat)
    requires Ranked(d, rank) && i <= j < |groups|
    requires Descends(d, path) && path[0] == groups[j] && CallerListed(d, path[|path| - 1], userId)
    requires CollectTop(d, rank, userId, groups, i, acc).Ok?
    ensures EntryFor(d, path[|path| - 1]) in CollectTop(d, rank, userId, groups, i, acc).value
    decreases |groups| - i
  {
    var r1 := CollectNode(d, rank, userId, groups[i], acc);
    var r := CollectTop(d, rank, userId, groups, i, acc);
    assert r == CollectTop(d, rank, userId, groups, i + 1, r1.value);
    if i == j {
      CollectNodeComplete(d, rank, userId, path, acc);
      CollectTopSound(d, rank, userId, groups, i + 1, r1.value);
      InPrefix(EntryFor(d, path[|path| - 1]), r1.value, r.value);
    } else {
      CollectTopComplete(d, rank, userId, groups, i + 1, r1.value, path, j);
    }
  }

  /** Every named group reachable from a top-level group through `children`
      whose members include the caller is in a successful answer, with its
      whole member list. */
  lemma GroupsWithUsersComplete(d: Snapshot, rank: string -> nat, claims: seq<Claim>, path: seq<Group>)
    requires Ranked(d, rank) && !IsNullOrWhiteSpace(CallerUserId(claims))
    requires d.groups.Ok? && Descends(d, path) && path[0] in d.groups.value
    requires CallerListed(d, path[|path| - 1], CallerUserId(claims).value)
    requires GroupsWithUsers(d, rank, claims).Ok?
    ensures EntryFor(d, path[|path| - 1]) in GroupsWithUsers(d, rank, claims).value
  {
    var j :| 0 <= j < |d.groups.value| && d.groups.value[j] == path[0];
    CollectTopComplete(d, rank, CallerUserId(claims).value, d.groups.value, 0, [], path, j);
  }

  /** Without a usable caller id the answer is empty, whatever the directory
      holds: no endpoint is consulted. */
  lemma BlankCallerGetsNothing(d1: Snapshot, rank1: string -> nat, d2: Snapshot, rank2: string -> nat, claims: seq<Claim>)
    requires Ranked(d1, rank1) && Ranked(d2, rank2)
    requires IsNullOrWhiteSpace(CallerUserId(claims))
    ensures GroupsWithUsers(d1, rank1, claims) == Ok([])
    ensures GroupsWithUsers(d2, rank2, claims) == Ok([])
  {
  }

  /** A NameIdentifier claim wins over "sub", even when its value is blank. */
  lemma NameIdentifierFirst(claims: seq<Claim>, c: Claim)
    requires c.kind == NameIdentifier
    ensures CallerUserId([c] + claims) == Some(c.value)
  {
    assert FindFirst([c] + claims, NameIdentifier) == Some(c);
  }

  // ---------------------------------------------------------- UpdateGroupAsync

  /** The two clients send the same PUT and fail alike. After a successful
      PUT this client answers true, while KeyCloakClient answers whether the
      group can then be found, so the two disagree on a group that is not
      found. */
  lemma UpdateSkipsExistenceCheck(d: Snapshot, answer: Request -> Reply, group: GroupRepresentation)
    ensures UpdateGroupOutcome(answer, group).sent == KeyCloakClient.UpdateGroupOutcome(d, answer, group).sent
    ensures var status := answer(PutGroup(GuidText(group.groupId), group.name)).status;
      !IsSuccess(status) ==>
        UpdateGroupOutcome(answer, group).result == KeyCloakClient.UpdateGroupOutcome(d, answer, group).result
    ensures var status := answer(PutGroup(GuidText(group.groupId), group.name)).status;
      var id := if group.groupId.Some? then group.groupId.value else EmptyGuid;
      IsSuccess(status) && !KeyCloakClient.GroupExists(d, id) ==>
        UpdateGroupOutcome(answer, group).result == Ok(true)
        && KeyCloakClient.UpdateGroupOutcome(d, answer, group).result == Ok(false)
  {
  }

  // ----------------------------------------------- CreateGroupIfNotExistsAsync

  /** The first exact-name match with a group id is the first such entry of
      the search results. */
  lemma {:induction false} FirstMatchWithId(groups: seq<GroupRepresentation>, name: string, k: nat)
    requires k < |groups| && groups[k].name == name && groups[k].groupId.Some?
    requires forall j | 0 <= j < k :: groups[j].name != name || groups[j].groupId.None?
    ensures FirstWithId(ExactMatches(groups, name)) == Some(groups[k])
  {
    var rest := ExactMatches(groups[1..], name);
    var m := ExactMatches(groups, name);
    if k == 0 {
      assert m == [groups[0]] + rest;
      assert m[0] == groups[0];
    } else {
      var tail := groups[1..];
      assert tail[k - 1] == groups[k];
      assert forall j | 0 <= j < k - 1 :: tail[j] == groups[j + 1];
      FirstMatchWithId(tail, name, k - 1);
      if groups[0].name == name {
        assert m == [groups[0]] + rest;
        assert m[1..] == rest;
        assert m[0].groupId.None?;
      } else {
        assert m == [] + rest;
        assert m == rest;
      }
    }
  }

  /** An existing group with that exact name and an id is reused: nothing is
      written and its id is returned. */
  lemma ExistingGroupReused(d: Snapshot, answer: Request -> Reply, name: string, k: nat)
    requires Search(d, name).Ok? && k < |Search(d, name).value|
    requires var gs := Search(d, name).value;
      && gs[k].name == name && gs[k].groupId.Some?
      && forall j | 0 <= j < k :: gs[j].name != name || gs[j].groupId.None?
    ensures CreateIfMissingOutcome(d, answer, name) == Outcome(Ok(Search(d, name).value[k].groupId.value.text), [])
  {
    FirstMatchWithId(Search(d, name).value, name, k);
  }

  /** Without such a group, exactly one POST groups is sent and its Location
      header gives the result. */
  lemma MissingGroupCreated(d: Snapshot, answer: Request -> Reply, name: string)
    requires Search(d, name).Ok?
    requires var gs := Search(d, name).value;
      forall j | 0 <= j < |gs| :: gs[j].name != name || gs[j].groupId.None?
    ensures CreateIfMissingOutcome(d, answer, name).sent == [PostGroup(name)]
    ensures var rep := answer(PostGroup(name));
      CreateIfMissingOutcome(d, answer, name).result ==
        if IsSuccess(rep.status) then IdFromLocation(rep.location, "groups/") else Err(HttpStatus(rep.status))
  {
    var m := ExactMatches(Search(d, name).value, name);
    assert forall k | 0 <= k < |m| :: m[k].groupId.None?;
  }

  /** On records the constructor built, the group is created exactly when no
      search hit has the exact name. */
  lemma CreatesExactlyWithoutExactMatch(d: Snapshot, answer: Request -> Reply, name: string)
    requires RecordsConstructed(d) && Search(d, name).Ok?
    ensures var gs := Search(d, name).value;
      CreateIfMissingOutcome(d, answer, name).sent == [PostGroup(name)]
      <==> forall k | 0 <= k < |gs| :: gs[k].name != name
  {
    var gs := Search(d, name).value;
    var m := ExactMatches(gs, name);
    if exists k | 0 <= k < |gs| :: gs[k].name == name {
      var k :| 0 <= k < |gs| && gs[k].name == name;
      assert Constructed(gs[k]);
      var i :| 0 <= i < |m| && m[i] == gs[k];
      assert FirstWithId(m).Some?;
    } else {
      MissingGroupCreated(d, answer, name);
    }
  }

  /** When every search hit carries `Guid.Empty`, as deserializing Keycloak's
      payload makes them, an exact hit reuses the text of the empty Guid. */
  lemma PayloadHitReusesEmptyGuid(d: Snapshot, answer: Request -> Reply, name: string)
    requires Search(d, name).Ok?
    requires forall k | 0 <= k < |Search(d, name).value| :: Search(d, name).value[k].groupId == Some(EmptyGuid)
    requires exists k | 0 <= k < |Search(d, name).value| :: Search(d, name).value[k].name == name
    ensures CreateIfMissingOutcome(d, answer, name) == Outcome(Ok(EmptyGuid.text), [])
  {
    var gs := Search(d, name).value;
    var m := ExactMatches(gs, name);
    var k :| 0 <= k < |gs| && gs[k].name == name;
    var i :| 0 <= i < |m| && m[i] == gs[k];
    var found := FirstWithId(m);
    assert found.Some?;
    var j :| 0 <= j < |m| && m[j] == found.value;
    assert m[j] in gs;
  }

  /** A failed search aborts before any write. */
  lemma FailedSearchWritesNothing(d: Snapshot, answer: Request -> Reply, name: string)
    requires Search(d, name).Err?
    ensures CreateIfMissingOutcome(d, answer, name) == Outcome(Err(Search(d, name).fault), [])
  {
  }

  /** The lookup is case-sensitive: a search hit "Sales" is no match for "sales". */
  lemma NameLookupIsExact(d: Snapshot, id: Guid)
    requires Search(d, "sales") == Ok([GroupRepresentation("Sales", Some(id), Some(EmptyGuid))])
    ensures GroupByName(d, "sales") == Ok([])
  {
    assert "Sales" != "sales" by {
      assert "Sales"[0] != "sales"[0];
    }
  }
}
