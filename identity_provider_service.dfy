/** IdentityProviderService: registration and group administration over
  KeyCloakClient, with each failure caught and mapped to a domain error, and
  the group-viewer gates in front of the group client's role-based reads.

  The service's ExtractRealmRoles is the pipeline of RoleExtractionService and
  is modelled by `RoleExtraction.ExtractRealmRoles`. The calls it makes to
  GetFilteredGroupsByRolesAsync and GetGroupsWithUsersByRolesAsync target
  methods that only KeycloakGroupClient defines; the model gives them that
  client's behaviour.
 */
module IdentityProviderService {
  import opened Wrappers
  import opened Json
  import opened Text
  import opened Claims
  import opened GroupRepresentations
  import opened Directory
  import opened AdminApi
  import opened RoleExtraction
  import KeyCloakClient
  import KeycloakGroupClient

  /** The UsersErrors and AccountsGroupsErrors the service reports. */
  datatype Error =
    | EmailIsNotUnique(email: string)
    | RegistrationFailed
    | GroupNameIsNotUnique(name: string)
    | GroupCreationFailed(parentId: string)
    | GroupUpdateFailed(groupId: string)

  /** The service's `Result<T>`. */
  datatype Reported<T> = Success(value: T) | Failure(error: Error)

  /** What an operation reports together with the writes it sent, in order. */
  datatype Report<T> = Report(result: Reported<T>, sent: seq<Request>)

  const GroupViewer := "group-viewer"
  const AdminRolePrefix := "group-admin-"

  /** `id?.ToString() ?? "null"`. */
  function NullableText(id: Option<Guid>): string {
    if id.Some? then id.value.text else "null"
  }

  // ---------------------------------------------------------- registration

  /** The catch clauses of the Register methods: an HttpRequestException with
      status 409 is a duplicate e-mail, anything else a failed registration. */
  function RegistrationError(f: Fault, email: string): (e: Error)
    ensures e == EmailIsNotUnique(email) <==> f == HttpStatus(Conflict)
    ensures e != EmailIsNotUnique(email) ==> e == RegistrationFailed
  {
    if f == HttpStatus(Conflict) then EmailIsNotUnique(email) else RegistrationFailed
  }

  function AsRegistration(o: Outcome<string>, email: string): (r: Report<string>)
    ensures r.sent == o.sent
    ensures o.result.Ok? <==> r.result.Success?
    ensures o.result.Ok? ==> r.result.value == o.result.value
    ensures o.result.Err? ==> r.result.error == RegistrationError(o.result.fault, email)
  {
    Report(if o.result.Ok? then Success(o.result.value) else Failure(RegistrationError(o.result.fault, email)), o.sent)
  }

  /** The try block of RegisterUserAsync: register, ensure the group, add the
      membership; the first failure stops the sequence. */
  function RegisterSteps(d: Snapshot, answer: Request -> Reply, user: UserModel, groupName: string): Outcome<string> {
    var reg := KeyCloakClient.RegisterUserOutcome(answer, user);
    if reg.result.Err? then reg
    else
      var userId := reg.result.value;
      var grp := KeyCloakClient.CreateIfMissingOutcome(d, answer, groupName);
      if grp.result.Err? then Outcome(Err(grp.result.fault), reg.sent + grp.sent)
      else
        var asg := KeyCloakClient.AssignUserToGroupOutcome(answer, userId, grp.result.value);
        Outcome(if asg.result.Err? then Err(asg.result.fault) else Ok(userId), reg.sent + grp.sent + asg.sent)
  }

  function RegisterUser(d: Snapshot, answer: Request -> Reply, user: UserModel, groupName: string): Report<string> {
    AsRegistration(RegisterSteps(d, answer, user, groupName), user.email)
  }

  /** The role RegisterAdminUserAsync grants: "group-admin-" and the lower-cased
      group name. */
  function AdminRoleName(targetGroup: string): (r: string)
    ensures |r| == |AdminRolePrefix| + |targetGroup|
    ensures r[..|AdminRolePrefix|] == AdminRolePrefix && r[|AdminRolePrefix|..] == Fold(targetGroup)
  {
    AdminRolePrefix + Fold(targetGroup)
  }

  /** The try block of RegisterAdminUserAsync: the steps of RegisterUserAsync,
      then the realm role. */
  function RegisterAdminSteps(d: Snapshot, answer: Request -> Reply, user: UserModel, targetGroup: string): Outcome<string> {
    var base := RegisterSteps(d, answer, user, targetGroup);
    if base.result.Err? then base
    else
      var role := KeyCloakClient.AssignRealmRoleOutcome(d, answer, base.result.value, AdminRoleName(targetGroup));
      Outcome(if role.result.Err? then Err(role.result.fault) else base.result, base.sent + role.sent)
  }

  function RegisterAdminUser(d: Snapshot, answer: Request -> Reply, user: UserModel, targetGroup: string): Report<string> {
    AsRegistration(RegisterAdminSteps(d, answer, user, targetGroup), user.email)
  }

  method RegisterUserAsync(kc: Keycloak, user: UserModel, groupName: string) returns (r: Reported<string>)
    modifies kc
    ensures kc.sent == old(kc.sent) + RegisterUser(kc.dir, kc.answer, user, groupName).sent
    ensures r == RegisterUser(kc.dir, kc.answer, user, groupName).result
  {
    var userId := KeyCloakClient.RegisterUserAsync(kc, user);
    if userId.Err? {
      return Failure(RegistrationError(userId.fault, user.email));
    }
    var groupId := KeyCloakClient.CreateGroupIfNotExistsAsync(kc, groupName);
    if groupId.Err? {
      return Failure(RegistrationError(groupId.fault, user.email));
    }
    var membership := KeyCloakClient.AssignUserToGroupAsync(kc, userId.value, groupId.value);
    if membership.Err? {
      return Failure(RegistrationError(membership.fault, user.email));
    }
    r := Success(userId.value);
  }

  method RegisterAdminUserAsync(kc: Keycloak, user: UserModel, targetGroup: string) returns (r: Reported<string>)
    modifies kc
    ensures kc.sent == old(kc.sent) + RegisterAdminUser(kc.dir, kc.answer, user, targetGroup).sent
    ensures r == RegisterAdminUser(kc.dir, kc.answer, user, targetGroup).result
  {
    var userId := KeyCloakClient.RegisterUserAsync(kc, user);
    if userId.Err? {
      return Failure(RegistrationError(userId.fault, user.email));
    }
    var groupId := KeyCloakClient.CreateGroupIfNotExistsAsync(kc, targetGroup);
    if groupId.Err? {
      return Failure(RegistrationError(groupId.fault, user.email));
    }
    var membership := KeyCloakClient.AssignUserToGroupAsync(kc, userId.value, groupId.value);
    if membership.Err? {
      return Failure(RegistrationError(membership.fault, user.email));
    }
    var granted := KeyCloakClient.AssignRealmRoleToUserAsync(kc, userId.value, AdminRoleName(targetGroup));
    if granted.Err? {
      return Failure(RegistrationError(granted.fault, user.email));
    }
    r := Success(userId.value);
  }

  // ------------------------------------------------------ group management

  /** The catch clauses of CreateGroupAsync. */
  function CreationError(f: Fault, group: GroupRepresentation): Error {
    if f == HttpStatus(Conflict) then GroupNameIsNotUnique(group.name) else GroupCreationFailed(NullableText(group.parentId))
  }

  /** CreateGroupAsync: any search hit for the name makes it a duplicate and
      nothing is created; otherwise the group is posted. (The record it builds
      passes ParentId as the group id, but only the name reaches the server.) */
  function CreateGroup(d: Snapshot, answer: Request -> Reply, group: GroupRepresentation): Report<string> {
    var existing := KeyCloakClient.GroupByName(d, group.name);
    if existing.Err? then Report(Failure(CreationError(existing.fault, group)), [])
    else if |existing.value| != 0 then Report(Failure(GroupNameIsNotUnique(group.name)), [])
    else
      var created := CreateGroupOutcome(answer, group.name);
      Report(if created.result.Ok? then Success(created.result.value) else Failure(CreationError(created.result.fault, group)),
             created.sent)
  }

  /** UpdateGroupAsync: `false` from the client is raised as a Conflict, so it is
      reported like a 409, as a duplicate name; success returns the id text
      ("" for a null id). */
  function UpdateGroup(d: Snapshot, answer: Request -> Reply, group: GroupRepresentation): Report<string> {
    var rebuilt := NewGroupRepresentation(group.name, group.groupId, group.parentId);
    var o := KeyCloakClient.UpdateGroupOutcome(d, answer, rebuilt);
    var result :=
      if o.result == Ok(true) then Success(GuidText(group.groupId))
      else if o.result == Ok(false) || o.result == Err(HttpStatus(Conflict)) then Failure(GroupNameIsNotUnique(group.name))
      else Failure(GroupUpdateFailed(NullableText(group.parentId)));
    Report(result, o.sent)
  }

  /** DeleteGroupAsync: every failure, a 404 included, is GroupUpdateFailed with
      the id. */
  function DeleteGroup(answer: Request -> Reply, groupId: Guid): Report<string> {
    var o := KeyCloakClient.DeleteGroupOutcome(answer, groupId);
    Report(if o.result.Ok? then Success(o.result.value) else Failure(GroupUpdateFailed(groupId.text)), o.sent)
  }

  method CreateGroupAsync(kc: Keycloak, group: GroupRepresentation) returns (r: Reported<string>)
    modifies kc
    ensures kc.sent == old(kc.sent) + CreateGroup(kc.dir, kc.answer, group).sent
    ensures r == CreateGroup(kc.dir, kc.answer, group).result
  {
    var existingGroup := KeyCloakClient.GroupByName(kc.dir, group.name);
    if existingGroup.Err? {
      return Failure(CreationError(existingGroup.fault, group));
    }
    if |existingGroup.value| != 0 {
      return Failure(GroupNameIsNotUnique(group.name));
    }
    var identityId := AdminApi.CreateGroupAsync(kc, group.name);
    if identityId.Err? {
      return Failure(CreationError(identityId.fault, group));
    }
    r := Success(identityId.value);
  }

  method UpdateGroupAsync(kc: Keycloak, group: GroupRepresentation) returns (r: Reported<string>)
    modifies kc
    ensures kc.sent == old(kc.sent) + UpdateGroup(kc.dir, kc.answer, group).sent
    ensures r == UpdateGroup(kc.dir, kc.answer, group).result
  {
    var rebuilt := NewGroupRepresentation(group.name, group.groupId, group.parentId);
    var updated := KeyCloakClient.UpdateGroupAsync(kc, rebuilt);
    if updated == Ok(true) {
      return Success(GuidText(group.groupId));
    }
    if updated == Ok(false) || updated == Err(HttpStatus(Conflict)) {
      return Failure(GroupNameIsNotUnique(group.name));
    }
    r := Failure(GroupUpdateFailed(NullableText(group.parentId)));
  }

  method DeleteGroupAsync(kc: Keycloak, groupId: Guid) returns (r: Reported<string>)
    modifies kc
    ensures kc.sent == old(kc.sent) + DeleteGroup(kc.answer, groupId).sent
    ensures r == DeleteGroup(kc.answer, groupId).result
  {
    var identityId := KeyCloakClient.DeleteGroupAsync(kc, groupId);
    if identityId.Err? {
      return Failure(GroupUpdateFailed(groupId.text));
    }
    r := Success(identityId.value);
  }

  // ------------------------------------------------------------------ reads

  /** GetUsersInCallerGroupAsync: the first claim of type exactly "groups"; a
      missing or blank one gives an empty list without a directory call. */
  function UsersInCallerGroup(d: Snapshot, claims: seq<Claim>): Result<seq<UserDto>> {
    var groupClaim := FirstValueOfKind(claims, "groups");
    if IsNullOrWhiteSpace(groupClaim) then Ok([]) else KeyCloakClient.UsersByGroup(d, groupClaim.value)
  }

  /** The caller's realm roles contain "group-viewer", ignoring case. */
  predicate IsGroupViewer(claims: seq<Claim>) {
    Contains(ExtractRealmRoles(claims), GroupViewer)
  }

  /** GetFilteredGroupsAsync. */
  function FilteredGroups(d: Snapshot, claims: seq<Claim>): Result<seq<Group>> {
    if !IsGroupViewer(claims) then Err(UnauthorizedAccess) else KeycloakGroupClient.FilteredGroupsFor(d, claims)
  }

  /** GetGroupsWithUsersByRolesAsync. */
  function GroupsWithUsersByRoles(d: Snapshot, ghost rank: string -> nat, claims: seq<Claim>)
    : Result<seq<KeycloakGroupClient.GroupWithUsers>>
    requires Ranked(d, rank)
  {
    if !IsGroupViewer(claims) then Err(UnauthorizedAccess) else KeycloakGroupClient.GroupsWithUsers(d, rank, claims)
  }
}
