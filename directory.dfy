/** The Keycloak admin API as the clients read it: an immutable snapshot of the
  directory in which every GET endpoint is a total lookup.

  Each answer is a Result. `Err(HttpStatus(code))` is a response whose status
  is not a success, on which `EnsureSuccessStatusCode` throws and the calling
  operation aborts. A `null` body, which the code turns into an empty list with
  `?? []`, is an empty list here. An id the snapshot has no entry for answers
  404.
 */
module Directory {
  import opened Wrappers
  import opened Json
  import opened Text
  import opened KeycloakJsonHelpers
  import opened GroupRepresentations

  /** UserRepresentation (and the UserDto read back from a member list). */
  datatype UserRep = UserRep(id: string, username: string, email: string, firstName: string, lastName: string)

  /** UserDto: a member as the clients hand it back, with the group path it was
      looked up by (null when read straight from a member list). */
  datatype UserDto = UserDto(id: string, username: string, email: string, groupPath: Option<string>)

  /** The members of a list read as UserDto records carrying `groupPath`. */
  function ToUserDtos(users: seq<UserRep>, groupPath: Option<string>): (r: seq<UserDto>)
    ensures |r| == |users|
    ensures forall k | 0 <= k < |r| ::
      r[k] == UserDto(users[k].id, users[k].username, users[k].email, groupPath)
  {
    seq(|users|, k requires 0 <= k < |users| => UserDto(users[k].id, users[k].username, users[k].email, groupPath))
  }

  /** KeycloakGroup: an entry of `users/{id}/groups`. */
  datatype KcGroup = KcGroup(id: string, name: string)

  datatype Snapshot = Snapshot(
    users: Result<seq<UserRep>>,                          // GET users
    realmRoles: map<string, Result<seq<string>>>,         // GET users/{id}/role-mappings/realm (role names)
    userGroups: map<string, Result<seq<KcGroup>>>,        // GET users/{id}/groups
    details: map<string, Result<Json>>,                   // GET groups/{id}
    members: map<string, Result<seq<UserRep>>>,           // GET groups/{id}/members
    children: map<string, Result<seq<Group>>>,            // GET groups/{id}/children
    groups: Result<seq<Group>>,                           // GET groups, read as dictionaries
    groupList: Result<seq<GroupRepresentation>>,          // GET groups, read as records
    search: map<string, Result<seq<GroupRepresentation>>>, // GET groups?search={name}
    roles: map<string, Result<Option<string>>>            // GET roles/{name}; None is a null body
  )

  const Missing: Fault := HttpStatus(NotFound)

  function Users(d: Snapshot): Result<seq<UserRep>> {
    d.users
  }

  function RealmRoles(d: Snapshot, userId: string): Result<seq<string>> {
    if userId in d.realmRoles then d.realmRoles[userId] else Err(Missing)
  }

  function UserGroups(d: Snapshot, userId: string): Result<seq<KcGroup>> {
    if userId in d.userGroups then d.userGroups[userId] else Err(Missing)
  }

  function Details(d: Snapshot, groupId: string): Result<Json> {
    if groupId in d.details then d.details[groupId] else Err(Missing)
  }

  function Members(d: Snapshot, groupId: string): Result<seq<UserRep>> {
    if groupId in d.members then d.members[groupId] else Err(Missing)
  }

  function Children(d: Snapshot, groupId: string): Result<seq<Group>> {
    if groupId in d.children then d.children[groupId] else Err(Missing)
  }

  function Search(d: Snapshot, name: string): Result<seq<GroupRepresentation>> {
    if name in d.search then d.search[name] else Err(Missing)
  }

  /** Every record read from `GET groups` or a name search was built by the
      record's constructor, as deserialization builds them. */
  predicate RecordsConstructed(d: Snapshot) {
    && (d.groupList.Ok? ==> forall k | 0 <= k < |d.groupList.value| :: Constructed(d.groupList.value[k]))
    && (forall name | name in d.search && d.search[name].Ok? ::
          forall k | 0 <= k < |d.search[name].value| :: Constructed(d.search[name].value[k]))
  }

  function Role(d: Snapshot, name: string): Result<Option<string>> {
    if name in d.roles then d.roles[name] else Err(Missing)
  }

  /** `GET groups/{id}` answers with a success status. */
  predicate DetailsFound(d: Snapshot, groupId: string) {
    Details(d, groupId).Ok?
  }

  /** The rank a `children` walk descends by: one more than the rank of the
      entry's string "id", and 0 for an entry the walk does not descend into. */
  ghost function Measure(rank: string -> nat, g: Group): nat {
    var (ok, id) := TryGetString(g, "id");
    if ok then rank(id) + 1 else 0
  }

  /** The `children` endpoint describes a finite forest: every child that the
      walk descends into ranks strictly below its parent. No cycle guard exists
      in the code, so the recursions over `children` terminate only on such a
      directory. */
  ghost predicate Ranked(d: Snapshot, rank: string -> nat) {
    forall id | id in d.children && d.children[id].Ok? ::
      forall c | c in d.children[id].value :: Measure(rank, c) <= rank(id)
  }

  /** A group listed among its own children cannot be ranked: on such a
      directory the recursions would never end. */
  lemma SelfLoopUnranked(d: Snapshot, rank: string -> nat, id: string, c: Group)
    requires id in d.children && d.children[id].Ok? && c in d.children[id].value
    requires TryGetString(c, "id") == (true, id)
    ensures !Ranked(d, rank)
  {
    assert Measure(rank, c) == rank(id) + 1;
  }
}
