/** What IdentityProviderService guarantees: the order of the registration
  steps, the role an admin receives, the error each failure is reported as,
  the duplicate check before a group is created, and the gates.
 */
module IdentityProviderProperties {
  import opened Wrappers
  import opened Json
  import opened Text
  import opened Claims
  import opened GroupRepresentations
  import opened Directory
  import opened AdminApi
  import opened RoleExtraction
  import KeyCloakClient
  import KeycloakGroupClient
  import opened IdentityProviderService

  // ---------------------------------------------------------- registration

  /** A successful registration sends, in order: the new user, the group
      creation if one was needed, and the membership of the new user in the
      group found or created. */
  lemma RegisterUserOrder(d: Snapshot, answer: Request -> Reply, user: UserModel, groupName: string)
    requires RegisterUser(d, answer, user, groupName).result.Success?
    ensures var userId := RegisterUser(d, answer, user, groupName).result.value;
      var grp := KeyCloakClient.CreateIfMissingOutcome(d, answer, groupName);
      && KeyCloakClient.RegisterUserOutcome(answer, user).result == Ok(userId)
      && grp.result.Ok?
      && RegisterUser(d, answer, user, groupName).sent == [PostUser(user)] + grp.sent + [PutMembership(userId, grp.result.value)]
  {
  }

  /** A successful admin registration adds, after those steps, the realm role
      "group-admin-" + the lower-cased group name. */
  lemma RegisterAdminOrder(d: Snapshot, answer: Request -> Reply, user: UserModel, targetGroup: string)
    requires RegisterAdminUser(d, answer, user, targetGroup).result.Success?
    ensures var userId := RegisterAdminUser(d, answer, user, targetGroup).result.value;
      var grp := KeyCloakClient.CreateIfMissingOutcome(d, answer, targetGroup);
      var role := Role(d, AdminRoleName(targetGroup));
      && grp.result.Ok? && role.Ok? && role.value.Some?
      && RegisterAdminUser(d, answer, user, targetGroup).sent
         == [PostUser(user)] + grp.sent + [PutMembership(userId, grp.result.value), PostRoleMapping(userId, role.value.value)]
  {
    var base := RegisterSteps(d, answer, user, targetGroup);
    assert base.result.Ok?;
    RegisterUserOrder(d, answer, user, targetGroup);
  }

  lemma AdminRoleNameLowerCased()
    ensures AdminRoleName("Sales") == "group-admin-sales"
  {
    assert Fold("Sales") == "sales";
  }

  /** A 409 on the first request is a duplicate e-mail, and nothing else is
      sent. */
  lemma EmailConflictStopsRegistration(d: Snapshot, answer: Request -> Reply, user: UserModel, groupName: string)
    requires answer(PostUser(user)).status == Conflict
    ensures RegisterUser(d, answer, user, groupName) == Report(Failure(EmailIsNotUnique(user.email)), [PostUser(user)])
    ensures RegisterAdminUser(d, answer, user, groupName) == Report(Failure(EmailIsNotUnique(user.email)), [PostUser(user)])
  {
  }

  /** Any 409 is reported as a duplicate e-mail, even one answered to the
      membership request after the user was created. */
  lemma MembershipConflictReportedAsEmail(d: Snapshot, answer: Request -> Reply, user: UserModel, groupName: string)
    requires KeyCloakClient.RegisterUserOutcome(answer, user).result.Ok?
    requires KeyCloakClient.CreateIfMissingOutcome(d, answer, groupName).result.Ok?
    requires var userId := KeyCloakClient.RegisterUserOutcome(answer, user).result.value;
      var groupId := KeyCloakClient.CreateIfMissingOutcome(d, answer, groupName).result.value;
      answer(PutMembership(userId, groupId)).status == Conflict
    ensures RegisterUser(d, answer, user, groupName).result == Failure(EmailIsNotUnique(user.email))
  {
  }

  /** A missing admin role fails the registration, but the user, the group and
      the membership already sent stay in place. */
  lemma MissingRoleKeepsUser(d: Snapshot, answer: Request -> Reply, user: UserModel, targetGroup: string)
    requires RegisterUser(d, answer, user, targetGroup).result.Success?
    requires Role(d, AdminRoleName(targetGroup)) == Ok(None)
    ensures RegisterAdminUser(d, answer, user, targetGroup).result == Failure(RegistrationFailed)
    ensures RegisterAdminUser(d, answer, user, targetGroup).sent == RegisterUser(d, answer, user, targetGroup).sent
    ensures RegisterAdminUser(d, answer, user, targetGroup).sent[0] == PostUser(user)
  {
    RegisterUserOrder(d, answer, user, targetGroup);
  }

  // ------------------------------------------------------ group management

  /** Any search hit for the name, exact or not, is a duplicate: nothing is
      created. */
  lemma DuplicateNameNotCreated(d: Snapshot, answer: Request -> Reply, group: GroupRepresentation)
    requires Search(d, group.name).Ok? && |Search(d, group.name).value| > 0
    ensures CreateGroup(d, answer, group) == Report(Failure(GroupNameIsNotUnique(group.name)), [])
  {
  }

  /** Without a hit the group is posted once, and its failure is mapped: 409 a
      duplicate name, anything else a failed creation naming the parent id
      ("null" when there is none). */
  lemma FreshNameCreated(d: Snapshot, answer: Request -> Reply, group: GroupRepresentation)
    requires Search(d, group.name) == Ok([])
    ensures var o := CreateGroup(d, answer, group);
      var status := answer(PostGroup(group.name)).status;
      && o.sent == [PostGroup(group.name)]
      && (status == Conflict ==> o.result == Failure(GroupNameIsNotUnique(group.name)))
      && (!IsSuccess(status) && status != Conflict ==> o.result == Failure(GroupCreationFailed(NullableText(group.parentId))))
      && (IsSuccess(status) && IdFromLocation(answer(PostGroup(group.name)).location, "groups/").Ok? ==>
            o.result == Success(IdFromLocation(answer(PostGroup(group.name)).location, "groups/").value))
  {
  }

  /** The update goes to the group's id, Guid.Empty when it has none. An update
      the client then reports as not found is a duplicate name; one it finds
      returns the group's id text. */
  lemma UpdateResultMapping(d: Snapshot, answer: Request -> Reply, group: GroupRepresentation)
    ensures var id := if group.groupId.Some? then group.groupId.value else EmptyGuid;
      var o := UpdateGroup(d, answer, group);
      var status := answer(PutGroup(id.text, group.name)).status;
      && o.sent == [PutGroup(id.text, group.name)]
      && (IsSuccess(status) && !KeyCloakClient.GroupExists(d, id) ==> o.result == Failure(GroupNameIsNotUnique(group.name)))
      && (IsSuccess(status) && KeyCloakClient.GroupExists(d, id) ==> o.result == Success(GuidText(group.groupId)))
      && (status == Conflict ==> o.result == Failure(GroupNameIsNotUnique(group.name)))
      && (!IsSuccess(status) && status != Conflict ==> o.result == Failure(GroupUpdateFailed(NullableText(group.parentId))))
  {
    var rebuilt := NewGroupRepresentation(group.name, group.groupId, group.parentId);
    assert GuidText(rebuilt.groupId) == (if group.groupId.Some? then group.groupId.value else EmptyGuid).text;
  }

  /** Every failed delete, a 404 included, is GroupUpdateFailed with the id. */
  lemma DeleteFailureMapping(answer: Request -> Reply, groupId: Guid)
    ensures var status := answer(DeleteGroup(groupId.text)).status;
      && (!IsSuccess(status) ==> IdentityProviderService.DeleteGroup(answer, groupId) == Report(Failure(GroupUpdateFailed(groupId.text)), [DeleteGroup(groupId.text)]))
      && (IsSuccess(status) ==> IdentityProviderService.DeleteGroup(answer, groupId) == Report(Success(groupId.text), [DeleteGroup(groupId.text)]))
  {
  }

  // ------------------------------------------------------------------ reads

  /** Without a usable "groups" claim the answer is empty whatever the
      directory holds. */
  lemma BlankGroupsClaim(d1: Snapshot, d2: Snapshot, claims: seq<Claim>)
    requires IsNullOrWhiteSpace(FirstValueOfKind(claims, "groups"))
    ensures UsersInCallerGroup(d1, claims) == Ok([])
    ensures UsersInCallerGroup(d2, claims) == Ok([])
  {
  }

  /** The gates admit exactly callers with a realm_access claim listing
      "group-viewer" ignoring case; everyone else is refused before any
      directory call, and admitted callers get the group client's answer. */
  lemma GateDecision(d: Snapshot, rank: string -> nat, claims: seq<Claim>)
    requires Ranked(d, rank)
    ensures (exists i | 0 <= i < |claims| :: Grants(claims[i], GroupViewer)) ==>
      && FilteredGroups(d, claims) == KeycloakGroupClient.FilteredGroupsFor(d, claims)
      && GroupsWithUsersByRoles(d, rank, claims) == KeycloakGroupClient.GroupsWithUsers(d, rank, claims)
    ensures (forall i | 0 <= i < |claims| :: !Grants(claims[i], GroupViewer)) ==>
      && FilteredGroups(d, claims) == Err(UnauthorizedAccess)
      && GroupsWithUsersByRoles(d, rank, claims) == Err(UnauthorizedAccess)
  {
    ExtractRealmRolesSpec(claims, GroupViewer);
  }
}
