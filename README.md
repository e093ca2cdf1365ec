# Keycloak admin glue: claims, gates and group trees

This project models the core logic of an ASP.NET Core service that sits in
front of a Keycloak realm, and proves properties of that model. The service:

- reads realm roles and fine-grained permissions out of the JSON claims of an
  access token;
- decides who may see groups and dealers;
- aggregates Keycloak's group tree against the members, realm roles and
  group memberships that the admin REST API reports;
- wraps the admin API's writes (register a user, create, update and delete a
  group, grant a role) with the mapping from HTTP failures to domain errors.

## Shape of the model

- **Wrappers, Text, Claims.** `Result`/`Option`, string helpers as .NET
  defines them, and claim lookup.
  - `FindFirst` compares the claim type ignoring case.
  - `Claims.Where(c => c.Type == …)` compares it exactly.
- **Json, KeycloakJsonHelpers.** The JSON a claim or a response holds is a
  datatype `Json`.
  - A claim carries `Option<Json>`, where `None` means `JsonDocument.Parse`
    raises.
  - A deserialized `Dictionary<string, object>` is a `Group` whose values
    are JSON elements, CLR strings or CLR lists written back by the code.
- **Directory.** One immutable snapshot of what Keycloak's admin API answers.
  - Every read endpoint is a lookup that returns a `Result`.
  - A failed status is the `Err` that `EnsureSuccessStatusCode` raises.
- **AdminApi.** The writes. A `Keycloak` object holds the snapshot, a fixed
  reply function and the log of requests sent.
  - Each client write is a method that appends to that log.
  - Each is proved to equal a pure `…Outcome` function that describes both
    the result and the requests.
- **RoleExtraction.** The realm-role pipeline of RoleExtractionService:
  - a case-insensitive set;
  - blank names dropped;
  - a claim that fails to parse or read contributes nothing.

  The copies in IdentityProviderService (`ExtractRealmRoles`) and
  KeycloakGroupClient (`ExtractRoles`) are the same LINQ pipeline, so they
  use this module.
- **KeyCloakClient, KeycloakGroupClient, KeycloakDealerClient.** The three
  clients. The loops that update a list, a dictionary or an array in place
  are methods with loop invariants. Each is proved equal to a recursive
  specification function, and the properties are proved about those
  functions in the `…Properties` modules.
- **IdentityProviderService, GetGroupsWithUsersQueryHandler.** Registration,
  group administration and error mapping, and the group-viewer gates.
- **HttpPipeline, KeycloakAuthorizationMiddleware,
  KeycloakRoleExtractionMiddleware, KeycloakAuthorizationPolicies.**
  - The request as a mutable `HttpContext`, holding `Items`, the
    authenticated principal, its `ClaimsIdentity` and a counter of `next`
    calls.
  - The two middlewares that change it.
  - The two policies that read it.

## Termination

The recursions over `groups/{id}/children` have no cycle guard in the code.
They terminate only when the `children` endpoint describes a finite forest.
Every such function requires `Ranked(d, rank)`: a ghost rank on group ids
that strictly decreases from a parent to each child the walk descends into.
`Directory.SelfLoopUnranked` shows that a group listed among its own
children cannot be ranked. The trees embedded in a group-details response
(`subGroups`) are finite JSON values, and the walks over them terminate
structurally.

## Behaviour the proofs bring out

- **The query handler's own role list.** GetGroupsWithUsersQueryHandler
  keeps the roles read before a bad array element.
  - RoleExtractionService discards the whole claim in that case
    (`PartialRolesKept`).
  - This changes nothing for the caller, because the service applies the
    strict gate again (`HandleIsService`).
- **Policy versus service gate.** `GroupViewerPolicy` compares the role name
  exactly, while the service's gate ignores case.
  - A realm role "Group-Viewer" passes the service but fails the policy
    (`PolicyStricterThanServiceGate`).
- **The dealer roll-up's own role checks.** They use `List.Contains`, so a
  caller whose only role is "Admin" gets nothing, even though "Admin" makes
  a *member* admin-capable (`CallerCheckIsCaseSensitive`).
- **Two kinds of group lookup.**
  - The KeyCloakClient lookups ignore case and take the first match only: its
    id wins over a later match's (`FirstMatchWins`), and on records the
    constructor built the group is created exactly when no name matches
    (`CreatesExactlyWithoutMatch`).
  - KeycloakGroupClient's `GetGroupByNameAsync` is exact (`NameLookupIsExact`).
- **The id of an existing group.** Records are deserialized through the
  record's constructor. Keycloak's payload names the id "id", which does not
  bind to the `groupId` parameter, so every record carries `Guid.Empty`. When a
  listed group matches, the text of the empty Guid is returned in place of the
  group's id (`PayloadMatchReusesEmptyGuid`).
- **Two kinds of group update.** KeyCloakClient's `UpdateGroupAsync` answers
  whether the group exists after a successful PUT. KeycloakGroupClient's
  answers true on every success (`UpdateSkipsExistenceCheck`).
- **The membership search misses nothing.** Every named group the caller
  belongs to is listed, provided a chain of `children` lists leads to it from
  a top-level group (`GroupsWithUsersComplete`).
- **The dealer roll-up misses no admin.** A super-admin without groups gets
  every admin-capable user once, with all of its groups, and nobody else
  (`SuperAdminDealers`). An admin with groups gets every admin of each of its
  groups listed with that group (`CallerGroupsCovered`), and nobody but
  admin-capable members of the groups listed with them, all from the
  caller's subtrees (`CallerGroupsSound`).
- **The Location header.** When the header lacks the segment, the id is cut
  at `segment.Length - 1`, because the `IndexOf` result of -1 is not guarded
  (`LocationWithoutSegment`).

## Model

| member | source | states |
|---|---|---|
| Claims.First | KeyCloak.Infrastructure/Identity/IdentityProviderService.cs:282 | `FirstOrDefault`: `None` exactly when no claim satisfies the predicate; otherwise a satisfying claim with none before it |
| Text.Fold | KeyCloak.Infrastructure/Identity/IdentityProviderService.cs:162 | `ToLower()`: the same length, each character folded (ASCII upper case to lower case) |
| Text.IndexOfIgnoreCase | KeyCloak.Infrastructure/Identity/KeyCloakClient.cs:158 | the first index where the pattern matches ignoring case, or -1 when it matches nowhere |
| Text.TrimStart | KeyCloak.Infrastructure/Identity/KeyCloakClient.cs:222 | the longest suffix that does not start with the character; everything removed is that character |
| Json.TryGetProperty | KeyCloak.Infrastructure/Identity/Services/RolesExtractionService/RoleExtractionService.cs:19 | raises exactly on a non-object; otherwise finds the property exactly when it is present, and gives its value |
| Json.DeserializeObject | KeyCloak.Infrastructure/Identity/KeyCloakClients/KeycloakDealersClients/KeycloakDealerClient.cs:317-318 | raises unless the element is an object or null; null gives null; an object gives its own properties |
| Json.ToGroup | KeyCloak.Infrastructure/Identity/KeyCloakClient.cs:272-273 | a deserialized dictionary has the object's keys, each holding its JSON element |
| Json.SetField | KeyCloak.Infrastructure/Identity/KeyCloakClient.cs:289 | `group[key] = value`: the key is added or overwritten, and every other entry is unchanged |
| Collections.Put | KeyCloak.Infrastructure/Identity/KeyCloakClients/KeycloakDealersClients/KeycloakDealerClient.cs:128-136 | `Dictionary` indexer: a new key goes to the end of the enumeration order, an existing key keeps its place; the keys stay distinct |
| Collections.Values | KeyCloak.Infrastructure/Identity/KeyCloakClients/KeycloakDealersClients/KeycloakDealerClient.cs:152 | `Values.ToList()`: one value per key, in key order |
| Directory.ToUserDtos | KeyCloak.Infrastructure/Identity/KeyCloakClient.cs:231-237 | one UserDto per member, in order, with the member's id, user name and e-mail and the given group path |
| Directory.SelfLoopUnranked | KeyCloak.Infrastructure/Identity/KeyCloakClient.cs:321-331 | a group listed among its own children admits no rank, so the unguarded recursion would never end |
| GroupRepresentations.NewGroupRepresentation | KeyCloak.Domian/AccountsGroups/GroupRepresentation.cs:16-21 | the name is kept; a null group id or parent id becomes Guid.Empty, a supplied one is kept; neither is null afterwards |
| GroupRepresentations.RebuildIsIdentity | KeyCloak.Domian/AccountsGroups/GroupRepresentation.cs:18-20 | rebuilding a record from its own properties gives the same record |
| KeycloakJsonHelpers.TryGetString | KeyCloak.Infrastructure/Helpers/KeycloakJsonHelpers.cs:12-30 | true exactly when the key is present and holds a JSON string element or a CLR string; the out value is that string, and "" whenever the result is false |
| KeycloakJsonHelpers.TryGetStringOfJson | KeyCloak.Infrastructure/Helpers/KeycloakJsonHelpers.cs:18-29 | on a deserialized dictionary it accepts exactly the JSON strings; numbers, objects, arrays, booleans and null give false |
| KeycloakJsonHelpers.TryGetStringAfterSet | KeyCloak.Infrastructure/Helpers/KeycloakJsonHelpers.cs:23-25 | a string just stored, as a CLR string or as a JSON string, is read back unchanged |
| AdminApi.EnsureSuccess | KeyCloak.Infrastructure/Identity/KeyCloakClient.cs:194-195 | `EnsureSuccessStatusCode`: the reply when the status is 2xx, otherwise a fault carrying the status |
| AdminApi.Keycloak.Send | KeyCloak.Infrastructure/Identity/KeyCloakClient.cs:194 | one request is appended to the log, and the reply is the server's answer to it |
| AdminApi.IdFromLocation | KeyCloak.Infrastructure/Identity/KeyCloakClient.cs:151-171 | a missing or blank header raises; otherwise the text after the first case-insensitive segment, or, when the segment is absent, the text from `len(segment) - 1` on (out of range when shorter) |
| AdminApi.LocationRoundTrip | KeyCloak.Infrastructure/Identity/KeyCloakClient.cs:158-159 | `{base}{segment}{id}`, with no earlier occurrence of the segment, gives back exactly `id` |
| AdminApi.LocationWithoutSegment | KeyCloak.Infrastructure/Identity/KeyCloakClient.cs:169-170 | a header without the segment yields its suffix from `len(segment) - 1`, not an error |
| AdminApi.CreateGroupOutcome | KeyCloak.Infrastructure/Identity/KeyCloakClient.cs:46-60 | exactly one POST groups with the name; a failed status is that fault, success the id from the Location header |
| AdminApi.CreateGroupAsync | KeyCloak.Infrastructure/Identity/KeyCloakClients/KeycloakGroupClients/KeycloakGroupClient.cs:28-37 | appends exactly CreateGroupOutcome's requests to the log and returns its result |
| RoleExtraction.StringsOrEmpty | KeyCloak.Infrastructure/Identity/Services/RolesExtractionService/RoleExtractionService.cs:20 | succeeds exactly when every element is a string or null; then one string per element, null read as "" |
| RoleExtraction.StringPrefix | KeyCloak.Application/Groups/GetGroupWithUsers/GetGroupsWithUsersQueryHandler.cs:16-24 | the strings (null as "") read before the first element that is neither a string nor null, which is where the prefix stops |
| RoleExtraction.ExtractRealmRoles | KeyCloak.Infrastructure/Identity/Services/RolesExtractionService/RoleExtractionService.cs:9-30 | definition: the union, over the claims whose type is exactly realm_access, of their folded non-blank roles; a claim whose parsing or reading raises adds nothing. `ExtractRealmRolesSpec` characterises its membership both ways |
| RoleExtraction.ExtractRealmRolesSpec | KeyCloak.Infrastructure/Identity/Services/RolesExtractionService/RoleExtractionService.cs:9-30 | the role set contains a name (ignoring case) exactly when some realm_access claim lists a non-blank role equal to it ignoring case |
| RoleExtraction.ExtractRealmRolesAppend | KeyCloak.Infrastructure/Identity/KeyCloakClients/KeycloakGroupClients/KeycloakGroupClient.cs:259-277 | the set is the union of what each claim contributes |
| RoleExtraction.OtherClaimIgnored | KeyCloak.Infrastructure/Identity/Services/RolesExtractionService/RoleExtractionService.cs:12 | a claim of any other type adds nothing |
| RoleExtraction.MalformedClaimIgnored | KeyCloak.Infrastructure/Identity/Services/RolesExtractionService/RoleExtractionService.cs:15-26 | a claim that does not parse, a non-object root, a missing or non-array "roles": nothing added, nothing raised |
| RoleExtraction.BadElementDiscardsClaim | KeyCloak.Infrastructure/Identity/IdentityProviderService.cs:320-341 | one element that is neither a string nor null discards the whole claim, roles read before it included |
| RoleExtraction.NoBlankRole | KeyCloak.Infrastructure/Identity/Services/RolesExtractionService/RoleExtractionService.cs:28 | no blank name is ever in the set |
| RoleExtraction.ContainsIgnoresCase | KeyCloak.Infrastructure/Identity/Services/RolesExtractionService/RoleExtractionService.cs:29 | names equal ignoring case are both in the set or both absent |
| KeyCloakClient.ProcessedNode | KeyCloak.Infrastructure/Identity/KeyCloakClient.cs:305-336 | definition of the loop body for one entry: an id that is a JSON string or a CLR string gets "subGroups" set to the processed children, or to an empty list when there are none; any other id leaves the entry alone; a failed children fetch is the error. `ProcessedNodeShape` and `ProcessedNodeChangesSubGroupsOnly` state its shape |
| KeyCloakClient.ProcessedList | KeyCloak.Infrastructure/Identity/KeyCloakClient.cs:303-338 | definition: the entries from `i` on, each rewritten by ProcessedNode, up to the first failed fetch. `ProcessedListShape` proves the length is kept and only "subGroups" changes |
| KeyCloakClient.ProcessedListPrefix | KeyCloak.Infrastructure/Identity/KeyCloakClient.cs:303-337 | the invariant of the in-place loop: entries already rewritten, followed by the rest processed, equal the whole list processed |
| KeyCloakClient.ProcessSubGroupsRecursivelyAsync | KeyCloak.Infrastructure/Identity/KeyCloakClient.cs:296-339 | the array is rewritten in place into exactly ProcessedList of its old contents, and the result is the same list |
| KeyCloakClient.AssembledList | KeyCloak.Infrastructure/Identity/KeyCloakClient.cs:275-292 | definition of the top-level loop: an entry whose id is a JSON string gets "subGroups" only when its children list is non-empty. `AssembledGroupShape` and `AssembledListShape` state its shape |
| KeyCloakClient.AllGroups | KeyCloak.Infrastructure/Identity/KeyCloakClient.cs:264-295 | definition: the failed group list, or every listed group passed through AssembledList. `AllGroupsShape` proves one entry per listed group |
| KeyCloakClient.AssembledListPrefix | KeyCloak.Infrastructure/Identity/KeyCloakClient.cs:275-292 | the invariant of GetAllGroupsAsync's loop, in the same form |
| KeyCloakClient.GetAllGroupsAsync | KeyCloak.Infrastructure/Identity/KeyCloakClient.cs:264-295 | returns AllGroups: the top-level list with each subtree attached, or the first failed fetch |
| KeyCloakClientProperties.ProcessedNodeShape | KeyCloak.Infrastructure/Identity/KeyCloakClient.cs:305-335 | a nested entry with a usable id always gets "subGroups", one processed entry per child, an empty list when childless; an entry without one is unchanged |
| KeyCloakClientProperties.ProcessedNodeChangesSubGroupsOnly | KeyCloak.Infrastructure/Identity/KeyCloakClient.cs:328-335 | processing changes no entry but "subGroups" |
| KeyCloakClientProperties.ProcessedListShape | KeyCloak.Infrastructure/Identity/KeyCloakClient.cs:303-338 | processing a list keeps its length and changes each entry in "subGroups" only |
| KeyCloakClientProperties.AssembledGroupShape | KeyCloak.Infrastructure/Identity/KeyCloakClient.cs:277-290 | a top-level entry gains "subGroups" only when its id is a JSON string and it has at least one child; nothing else changes |
| KeyCloakClientProperties.AssembledListShape | KeyCloak.Infrastructure/Identity/KeyCloakClient.cs:275-292 | one entry per top-level group, in order, each changed in "subGroups" only |
| KeyCloakClientProperties.AllGroupsShape | KeyCloak.Infrastructure/Identity/KeyCloakClient.cs:264-295 | GetAllGroupsAsync succeeds with one entry per listed group, in order, each differing only in "subGroups" |
| KeyCloakClientProperties.ChildlessTopVersusNested | KeyCloak.Infrastructure/Identity/KeyCloakClient.cs:287-290 | a childless group is untouched at the top level and gets an empty "subGroups" when nested |
| KeyCloakClientProperties.ClrStringIdOnlyNested | KeyCloak.Infrastructure/Identity/KeyCloakClient.cs:313-316 | an id stored as a CLR string is descended into when nested but not at the top level |
| KeyCloakClientProperties.UnusableNestedIdSkipped | KeyCloak.Infrastructure/Identity/KeyCloakClient.cs:317-320 | a nested entry whose id is a number is left exactly as it was |
| KeyCloakClientProperties.ChildFetchFailureAborts | KeyCloak.Infrastructure/Identity/KeyCloakClient.cs:321-322 | a failed `children` fetch aborts the walk with that fault |
| KeyCloakClient.FirstNamed | KeyCloak.Infrastructure/Identity/KeyCloakClient.cs:180 | `FirstOrDefault` by name ignoring case: none exactly when nothing matches; otherwise a match with no match before it |
| KeyCloakClient.UsersByGroup | KeyCloak.Infrastructure/Identity/KeyCloakClient.cs:214-238 | definition: trim the leading slashes, take the first group whose name matches ignoring case, and list its members with the untrimmed path. `UsersByGroupSpec`, `UsersByGroupNoMatch` and `SameTrimSameMembers` state its properties |
| KeyCloakClientProperties.UsersByGroupSpec | KeyCloak.Infrastructure/Identity/KeyCloakClient.cs:214-238 | a non-empty answer comes from the first group matching the trimmed path ignoring case, with one entry per member, in order, each carrying the path exactly as given |
| KeyCloakClientProperties.UsersByGroupNoMatch | KeyCloak.Infrastructure/Identity/KeyCloakClient.cs:224-225 | no group of that name gives an empty list |
| KeyCloakClientProperties.SameTrimSameMembers | KeyCloak.Infrastructure/Identity/KeyCloakClient.cs:222 | two paths that trim to the same name succeed or fail together and list the same member ids |
| KeyCloakClientProperties.LeadingSlashIgnored | KeyCloak.Infrastructure/Identity/KeyCloakClient.cs:222 | "/sales" and "sales" list the same members |
| KeyCloakClient.GroupByName | KeyCloak.Infrastructure/Identity/KeyCloakClient.cs:240-247 | fails exactly when the search fails; otherwise every hit, in order, rebuilt from its name and id |
| KeyCloakClient.GroupExists | KeyCloak.Infrastructure/Identity/KeyCloakClient.cs:249-262 | true when the direct lookup succeeds; otherwise false when the list fails; otherwise true exactly when some name equals the id text ignoring case |
| KeyCloakClientProperties.NameEqualToIdCountsAsExisting | KeyCloak.Infrastructure/Identity/KeyCloakClient.cs:257-261 | a group named like the id text counts as existing even when the direct lookup fails |
| KeyCloakClient.RegisterUserOutcome | KeyCloak.Infrastructure/Identity/KeyCloakClient.cs:37-44 | exactly one POST users; a failed status is that fault, success the id after "users/" in the Location header |
| KeyCloakClient.RegisterUserAsync | KeyCloak.Infrastructure/Identity/KeyCloakClient.cs:37-44 | appends exactly RegisterUserOutcome's requests and returns its result |
| KeyCloakClient.CreateIfMissingOutcome | KeyCloak.Infrastructure/Identity/KeyCloakClient.cs:172-190 | definition: a failed group list writes nothing, the first case-insensitive match reuses its id when it has one, and otherwise one POST groups is sent. `ExistingGroupReused`, `NoMatchCreates` and `FailedListWritesNothing` state its three cases, and `CreatesExactlyWithoutMatch` when it creates |
| KeyCloakClient.CreateGroupIfNotExistsAsync | KeyCloak.Infrastructure/Identity/KeyCloakClient.cs:172-190 | appends exactly CreateIfMissingOutcome's requests and returns its result |
| KeyCloakClientProperties.ExistingGroupReused | KeyCloak.Infrastructure/Identity/KeyCloakClient.cs:180-181 | when the first case-insensitive match has an id, that id is returned and nothing is sent |
| KeyCloakClientProperties.NoMatchCreates | KeyCloak.Infrastructure/Identity/KeyCloakClient.cs:180-189 | when no name matching ignoring case has an id, the outcome is exactly CreateGroupAsync's: one POST groups, and its status fault or Location id |
| KeyCloakClientProperties.CreatesExactlyWithoutMatch | KeyCloak.Infrastructure/Identity/KeyCloakClient.cs:179-189 | on records the constructor built, the group is created exactly when no listed name matches ignoring case |
| KeyCloakClientProperties.PayloadMatchReusesEmptyGuid | KeyCloak.Infrastructure/Identity/KeyCloakClient.cs:179-181 | when every listed record carries Guid.Empty, as deserializing Keycloak's payload makes them, any match gives the empty Guid's text and nothing is sent |
| KeyCloakClientProperties.FirstMatchWins | KeyCloak.Infrastructure/Identity/KeyCloakClient.cs:180-181 | only the first match counts: "Sales" listed before "sales" gives the first one's id, whatever the second's |
| KeyCloakClientProperties.FailedListWritesNothing | KeyCloak.Infrastructure/Identity/KeyCloakClient.cs:176-177 | a failed group list aborts before any write |
| KeyCloakClient.AssignUserToGroupOutcome | KeyCloak.Infrastructure/Identity/KeyCloakClient.cs:191-196 | exactly one PUT of the membership; it succeeds exactly when the status is 2xx, and otherwise carries the status |
| KeyCloakClient.AssignUserToGroupAsync | KeyCloak.Infrastructure/Identity/KeyCloakClient.cs:191-196 | appends exactly AssignUserToGroupOutcome's requests and returns its result |
| KeyCloakClient.AssignRealmRoleOutcome | KeyCloak.Infrastructure/Identity/KeyCloakClient.cs:198-212 | a failed role read or a null role aborts with nothing sent; otherwise exactly one POST of the role mapping, successful exactly on 2xx |
| KeyCloakClient.AssignRealmRoleToUserAsync | KeyCloak.Infrastructure/Identity/KeyCloakClient.cs:198-212 | appends exactly AssignRealmRoleOutcome's requests and returns its result |
| KeyCloakClient.UpdateGroupOutcome | KeyCloak.Infrastructure/Identity/KeyCloakClient.cs:61-73 | definition: one PUT groups/{id}; a failed status raises, and a success answers GroupExists of the id (Guid.Empty for a null id). `UpdateGroupSpec` states it case by case |
| KeyCloakClientProperties.UpdateGroupSpec | KeyCloak.Infrastructure/Identity/KeyCloakClient.cs:61-73 | exactly one PUT to the group's id text; a failed status is that fault; success returns GroupExists for the id (Guid.Empty when null) |
| KeyCloakClient.UpdateGroupAsync | KeyCloak.Infrastructure/Identity/KeyCloakClient.cs:61-73 | appends exactly UpdateGroupOutcome's requests and returns its result |
| KeyCloakClient.DeleteGroupOutcome | KeyCloak.Infrastructure/Identity/KeyCloakClient.cs:74-85 | exactly one DELETE; 404 raises InvalidOperation, any other failure raises with the status, success returns the id text |
| KeyCloakClient.DeleteGroupAsync | KeyCloak.Infrastructure/Identity/KeyCloakClient.cs:74-85 | appends exactly DeleteGroupOutcome's requests and returns its result |
| KeycloakGroupClient.Matches | KeyCloak.Infrastructure/Identity/KeyCloakClients/KeycloakGroupClients/KeycloakGroupClient.cs:215-217 | the children whose string name is in the role set: every match is a matching child, and every matching child is kept |
| KeycloakGroupClient.MatchesAppend | KeyCloak.Infrastructure/Identity/KeyCloakClients/KeycloakGroupClients/KeycloakGroupClient.cs:215 | the matches keep the provider's order |
| KeycloakGroupClient.FilterGroup | KeyCloak.Infrastructure/Identity/KeyCloakClients/KeycloakGroupClients/KeycloakGroupClient.cs:209-223 | definition: a group without a string id or name is dropped; otherwise it is kept, with "subGroups" set to the children whose names are roles, exactly when its own name is a role or some child matches. `FilterGroupSpec` states this both ways |
| KeycloakGroupClient.FilterGroupSpec | KeyCloak.Infrastructure/Identity/KeyCloakClients/KeycloakGroupClients/KeycloakGroupClient.cs:209-223 | a group without a string id or name is dropped; otherwise it is kept exactly when its own name or a direct child's name is in the role set, and then only "subGroups" changes, to exactly the matching children |
| KeycloakGroupClient.FilteredGroups | KeyCloak.Infrastructure/Identity/KeyCloakClients/KeycloakGroupClients/KeycloakGroupClient.cs:143-147 | definition: each group through FilterGroup, the kept ones in order, the first failed fetch being the error. `FilteredGroupsOk`, `FilteredGroupsAppend` and `FilteredGroupsMembers` state its properties |
| KeycloakGroupClient.FilteredGroupsOk | KeyCloak.Infrastructure/Identity/KeyCloakClients/KeycloakGroupClients/KeycloakGroupClient.cs:143-147 | succeeds exactly when every group's fetch succeeds; never longer than the input |
| KeycloakGroupClient.FilteredGroupsAppend | KeyCloak.Infrastructure/Identity/KeyCloakClients/KeycloakGroupClients/KeycloakGroupClient.cs:143-147 | filtering a list is filtering its parts and concatenating: an order-preserving subsequence |
| KeycloakGroupClient.FilteredSingleton | KeyCloak.Infrastructure/Identity/KeyCloakClients/KeycloakGroupClients/KeycloakGroupClient.cs:145-146 | one group gives its fault, nothing, or its filtered form |
| KeycloakGroupClient.FilteredGroupsMembers | KeyCloak.Infrastructure/Identity/KeyCloakClients/KeycloakGroupClients/KeycloakGroupClient.cs:143-147 | a group is in the result exactly when it is the filtered form of some kept input group |
| KeycloakGroupClient.UnnamedGroupDropped | KeyCloak.Infrastructure/Identity/KeyCloakClients/KeycloakGroupClients/KeycloakGroupClient.cs:211-212 | a group without a string id or name never reaches the result |
| KeycloakGroupClient.FilterPrefixStep | KeyCloak.Infrastructure/Identity/KeyCloakClients/KeycloakGroupClients/KeycloakGroupClient.cs:143-147 | one more group: a fault ends the operation with it, otherwise the kept group is appended |
| KeycloakGroupClient.FilteredGroupsFor | KeyCloak.Infrastructure/Identity/KeyCloakClients/KeycloakGroupClients/KeycloakGroupClient.cs:134-149 | definition: the caller's realm roles, then the failed group list or FilteredGroups of the listed groups. `GetFilteredGroupsByRolesAsync` is proved equal to it |
| KeycloakGroupClient.GetFilteredGroupsByRolesAsync | KeyCloak.Infrastructure/Identity/KeyCloakClients/KeycloakGroupClients/KeycloakGroupClient.cs:134-149 | returns FilteredGroupsFor: the caller's roles, then the filtered top-level list |
| KeycloakGroupClient.CollectNode | KeyCloak.Infrastructure/Identity/KeyCloakClients/KeycloakGroupClients/KeycloakGroupClient.cs:225-244 | definition: a group without a string id or name is skipped with its subtree; otherwise the group is appended, with its whole member list, when the caller is a member, and its children are walked in order. `CollectNodeSound`, `NodeEntryFirst`, `NonMemberStillDescends` and `CollectNodeComplete` state its properties |
| KeycloakGroupClient.CollectList | KeyCloak.Infrastructure/Identity/KeyCloakClients/KeycloakGroupClients/KeycloakGroupClient.cs:240-243 | definition: the children from `i` on, each walked by CollectNode, up to the first failed fetch. `CollectListSound` and `CollectListComplete` state its properties |
| KeycloakGroupClient.CollectGroupsRecursively | KeyCloak.Infrastructure/Identity/KeyCloakClients/KeycloakGroupClients/KeycloakGroupClient.cs:225-244 | returns CollectNode: the pre-order walk appending each group whose members include the caller |
| KeycloakGroupClientProperties.CollectNodeSound | KeyCloak.Infrastructure/Identity/KeyCloakClients/KeycloakGroupClients/KeycloakGroupClient.cs:230-243 | the walk only appends, and every entry it appends lists the caller among its members |
| KeycloakGroupClientProperties.CollectListSound | KeyCloak.Infrastructure/Identity/KeyCloakClients/KeycloakGroupClients/KeycloakGroupClient.cs:238-242 | the same, for the loop over a group's children |
| KeycloakGroupClientProperties.NodeEntryFirst | KeyCloak.Infrastructure/Identity/KeyCloakClients/KeycloakGroupClients/KeycloakGroupClient.cs:230-237 | a group that lists the caller is entered, with its whole member list, before anything from its subtree |
| KeycloakGroupClientProperties.NonMemberStillDescends | KeyCloak.Infrastructure/Identity/KeyCloakClients/KeycloakGroupClients/KeycloakGroupClient.cs:238-243 | a group that does not list the caller adds nothing itself, but its children are still walked |
| KeycloakGroupClient.CollectTop | KeyCloak.Infrastructure/Identity/KeyCloakClients/KeycloakGroupClients/KeycloakGroupClient.cs:167-170 | definition: the top-level groups from `i` on, each walked by CollectNode, up to the first failed fetch. `CollectTopSound` and `CollectTopComplete` state its properties |
| KeycloakGroupClientProperties.CollectTopSound | KeyCloak.Infrastructure/Identity/KeyCloakClients/KeycloakGroupClients/KeycloakGroupClient.cs:164-171 | the loop over the top-level groups only appends entries that list the caller |
| KeycloakGroupClient.CallerUserId | KeyCloak.Infrastructure/Identity/KeyCloakClients/KeycloakGroupClients/KeycloakGroupClient.cs:153-158 | none exactly when no NameIdentifier, "sub", "user_id" or "preferred_username" claim is present; otherwise the value of one of the claims |
| KeycloakGroupClientProperties.NameIdentifierFirst | KeyCloak.Infrastructure/Identity/KeyCloakClients/KeycloakGroupClients/KeycloakGroupClient.cs:153-155 | a NameIdentifier claim wins over the others, even when its value is blank |
| KeycloakGroupClientProperties.BlankCallerGetsNothing | KeyCloak.Infrastructure/Identity/KeyCloakClients/KeycloakGroupClients/KeycloakGroupClient.cs:157-158 | without a usable caller id the answer is empty on every directory |
| KeycloakGroupClient.GroupsWithUsers | KeyCloak.Infrastructure/Identity/KeyCloakClients/KeycloakGroupClients/KeycloakGroupClient.cs:151-172 | definition: a blank caller id gives the empty list; otherwise the failed group list, or the walk over every top-level group. `GroupsWithUsersSound` and `GroupsWithUsersComplete` state both directions |
| KeycloakGroupClient.GetGroupsWithUsersByRolesAsync | KeyCloak.Infrastructure/Identity/KeyCloakClients/KeycloakGroupClients/KeycloakGroupClient.cs:151-172 | returns GroupsWithUsers, the caller's groups at any depth |
| KeycloakGroupClientProperties.GroupsWithUsersComplete | KeyCloak.Infrastructure/Identity/KeyCloakClients/KeycloakGroupClients/KeycloakGroupClient.cs:151-172 | completeness: every named group reachable from a top-level group through `children` whose members include the caller is in a successful answer, with its whole member list |
| KeycloakGroupClientProperties.CollectNodeComplete | KeyCloak.Infrastructure/Identity/KeyCloakClients/KeycloakGroupClients/KeycloakGroupClient.cs:225-244 | a successful walk from the first group of a chain of children lists the last group of the chain when its members include the caller |
| KeycloakGroupClientProperties.CollectListComplete | KeyCloak.Infrastructure/Identity/KeyCloakClients/KeycloakGroupClients/KeycloakGroupClient.cs:240-243 | the loop over the children lists the last group of any chain that starts at a child not yet visited |
| KeycloakGroupClientProperties.CollectTopComplete | KeyCloak.Infrastructure/Identity/KeyCloakClients/KeycloakGroupClients/KeycloakGroupClient.cs:167-170 | the loop over the top-level groups lists the last group of any chain that starts at a top-level group not yet visited |
| KeycloakGroupClientProperties.GroupsWithUsersSound | KeyCloak.Infrastructure/Identity/KeyCloakClients/KeycloakGroupClients/KeycloakGroupClient.cs:151-172 | every group returned lists the caller among its members |
| KeycloakGroupClient.UpdateGroupOutcome | KeyCloak.Infrastructure/Identity/KeyCloakClients/KeycloakGroupClients/KeycloakGroupClient.cs:39-46 | the group client's UpdateGroupAsync: exactly one PUT groups/{id}; a failed status raises, and every success answers true, with no existence check |
| KeycloakGroupClient.UpdateGroupAsync | KeyCloak.Infrastructure/Identity/KeyCloakClients/KeycloakGroupClients/KeycloakGroupClient.cs:39-46 | log and result equal the group client's UpdateGroupOutcome |
| KeycloakGroupClientProperties.UpdateSkipsExistenceCheck | KeyCloak.Infrastructure/Identity/KeyCloakClients/KeycloakGroupClients/KeycloakGroupClient.cs:39-46 | the group client and KeyCloakClient send the same PUT and fail alike; after a successful PUT for a group GroupExists does not find, the group client answers true and KeyCloakClient false |
| KeycloakGroupClient.ExactMatches | KeyCloak.Infrastructure/Identity/KeyCloakClients/KeycloakGroupClients/KeycloakGroupClient.cs:87 | the search hits whose name equals the given name exactly: every kept hit matches and every matching hit is kept |
| KeycloakGroupClientProperties.NameLookupIsExact | KeyCloak.Infrastructure/Identity/KeyCloakClients/KeycloakGroupClients/KeycloakGroupClient.cs:80-88 | a hit "Sales" is no match for "sales" |
| KeycloakGroupClient.FirstWithId | KeyCloak.Infrastructure/Identity/KeyCloakClients/KeycloakGroupClients/KeycloakGroupClient.cs:178 | none exactly when no entry has an id; otherwise an entry with an id and none before it |
| KeycloakGroupClientProperties.FirstMatchWithId | KeyCloak.Infrastructure/Identity/KeyCloakClients/KeycloakGroupClients/KeycloakGroupClient.cs:176-178 | the first exact-name match with an id is the first such entry of the search |
| KeycloakGroupClient.CreateIfMissingOutcome | KeyCloak.Infrastructure/Identity/KeyCloakClients/KeycloakGroupClients/KeycloakGroupClient.cs:173-185 | definition: a failed search writes nothing, the first exact-name match with an id is reused, and otherwise one POST groups is sent. `ExistingGroupReused`, `MissingGroupCreated` and `FailedSearchWritesNothing` state its cases |
| KeycloakGroupClient.CreateGroupIfNotExistsAsync | KeyCloak.Infrastructure/Identity/KeyCloakClients/KeycloakGroupClients/KeycloakGroupClient.cs:173-185 | appends exactly CreateIfMissingOutcome's requests and returns its result |
| KeycloakGroupClientProperties.ExistingGroupReused | KeyCloak.Infrastructure/Identity/KeyCloakClients/KeycloakGroupClients/KeycloakGroupClient.cs:176-181 | an exact-name match with an id is reused and nothing is sent |
| KeycloakGroupClientProperties.CreatesExactlyWithoutExactMatch | KeyCloak.Infrastructure/Identity/KeyCloakClients/KeycloakGroupClients/KeycloakGroupClient.cs:176-184 | on records the constructor built, one POST groups is sent exactly when no search hit has the exact name |
| KeycloakGroupClientProperties.PayloadHitReusesEmptyGuid | KeyCloak.Infrastructure/Identity/KeyCloakClients/KeycloakGroupClients/KeycloakGroupClient.cs:176-181 | when every search hit carries Guid.Empty, as deserializing Keycloak's payload makes them, an exact hit gives the empty Guid's text and nothing is sent |
| KeycloakGroupClientProperties.MissingGroupCreated | KeyCloak.Infrastructure/Identity/KeyCloakClients/KeycloakGroupClients/KeycloakGroupClient.cs:182-184 | without such a match exactly one POST groups is sent, and its Location gives the id |
| KeycloakGroupClientProperties.FailedSearchWritesNothing | KeyCloak.Infrastructure/Identity/KeyCloakClients/KeycloakGroupClients/KeycloakGroupClient.cs:176 | a failed search aborts before any write |
| KeycloakDealerClient.AnyAdminRole | KeyCloak.Infrastructure/Identity/KeyCloakClients/KeycloakDealersClients/KeycloakDealerClient.cs:353-355 | admin-capable exactly when some realm role name equals "admin" or "super-admin" ignoring case |
| KeycloakDealerClient.TryGetNonBlank | KeyCloak.Infrastructure/Identity/KeyCloakClients/KeycloakDealersClients/KeycloakDealerClient.cs:444-480 | TryGetGroupId / TryGetGroupName: true exactly when the key holds a string that is not blank; the out value is TryGetString's |
| KeycloakDealerClient.GetAdminsInGroupAsync | KeyCloak.Infrastructure/Identity/KeyCloakClients/KeycloakDealersClients/KeycloakDealerClient.cs:401-442 | returns AdminsInGroup, the member loop's result |
| KeycloakDealerClient.AdminsFrom | KeyCloak.Infrastructure/Identity/KeyCloakClients/KeycloakDealersClients/KeycloakDealerClient.cs:410-439 | definition of the member loop: each member's realm roles are read, the first failed read is the error, and an admin-capable member is appended with the labels left blank. `AdminsFromIsFilter` proves it equal to the filter `AdminFilter` |
| KeycloakDealerClient.AdminsInGroup | KeyCloak.Infrastructure/Identity/KeyCloakClients/KeycloakDealersClients/KeycloakDealerClient.cs:401-442 | definition: the members of the group, or their failed fetch, through AdminsFrom. `AdminsInGroupSpec` states its success condition and its contents |
| DealerClientProperties.AdminsFromIsFilter | KeyCloak.Infrastructure/Identity/KeyCloakClients/KeycloakDealersClients/KeycloakDealerClient.cs:410-438 | the member loop succeeds exactly when every member's roles can be read, and appends exactly the admin-capable members in order |
| DealerClientProperties.AdminFilterMembers | KeyCloak.Infrastructure/Identity/KeyCloakClients/KeycloakDealersClients/KeycloakDealerClient.cs:419-421 | a dealer is listed exactly when it is built from some admin-capable member |
| DealerClientProperties.AdminsInGroupSpec | KeyCloak.Infrastructure/Identity/KeyCloakClients/KeycloakDealersClients/KeycloakDealerClient.cs:401-442 | succeeds exactly when the member list and every member's roles can be read; then lists exactly the admin-capable members, in member order |
| KeycloakDealerClient.Label | KeyCloak.Infrastructure/Identity/KeyCloakClients/KeycloakDealersClients/KeycloakDealerClient.cs:299-302 | definition: a top-level group labels a dealer with itself and no subgroup; a nested group labels it with its parent, and itself as the subgroup. `AdminEntryLabels` states it |
| KeycloakDealerClient.AdminEntry | KeyCloak.Infrastructure/Identity/KeyCloakClients/KeycloakDealersClients/KeycloakDealerClient.cs:295-311 | definition: the entry for a group with admins, filed under the parent when there is one, its dealers relabelled by Label. `AdminEntryLabels` states it |
| KeycloakDealerClient.RelabelDealers | KeyCloak.Infrastructure/Identity/KeyCloakClients/KeycloakDealersClients/KeycloakDealerClient.cs:297-303 | each dealer relabelled in place: same count, and entry `i` is dealer `i` with its group fields set by Label |
| DealerClientProperties.AdminEntryLabels | KeyCloak.Infrastructure/Identity/KeyCloakClients/KeycloakDealersClients/KeycloakDealerClient.cs:295-311 | a top-level entry uses its own id and name with no subgroup; a nested entry uses its parent's id and name with its own as the subgroup |
| KeycloakDealerClient.LabelWalk | KeyCloak.Infrastructure/Identity/KeyCloakClients/KeycloakDealersClients/KeycloakDealerClient.cs:283-324 | definition: a group without a usable id or name is skipped with its subtree; otherwise its entry is appended when it has admins, and each "subGroups" element is walked with it as the parent. `LabelWalkAppends`, `NodeEntryFirst` and `UnnamedGroupSkipped` state its properties |
| KeycloakDealerClient.LabelWalkList | KeyCloak.Infrastructure/Identity/KeyCloakClients/KeycloakDealersClients/KeycloakDealerClient.cs:313-323 | definition: the "subGroups" elements from `i` on, each walked by LabelWalk, up to the first failure. `LabelWalkListAppends` states it |
| DealerClientProperties.LabelWalkAppends | KeyCloak.Infrastructure/Identity/KeyCloakClients/KeycloakDealersClients/KeycloakDealerClient.cs:283-324 | the labelling walk only appends, and every entry it appends has at least one admin, each labelled with the entry's group |
| DealerClientProperties.LabelWalkListAppends | KeyCloak.Infrastructure/Identity/KeyCloakClients/KeycloakDealersClients/KeycloakDealerClient.cs:313-323 | the same, for the loop over "subGroups" |
| DealerClientProperties.NodeEntryFirst | KeyCloak.Infrastructure/Identity/KeyCloakClients/KeycloakDealersClients/KeycloakDealerClient.cs:295-320 | a group with admins is entered before anything from its subgroups (pre-order) |
| DealerClientProperties.UnnamedGroupSkipped | KeyCloak.Infrastructure/Identity/KeyCloakClients/KeycloakDealersClients/KeycloakDealerClient.cs:290-291 | a group without a usable id or name is skipped with all its subgroups, in both tree walks |
| KeycloakDealerClient.CollectGroupWithAdminsRecursively | KeyCloak.Infrastructure/Identity/KeyCloakClients/KeycloakDealersClients/KeycloakDealerClient.cs:283-324 | returns LabelWalk of the group, the appended entries in pre-order |
| KeycloakDealerClient.MapDealer | KeyCloak.Infrastructure/Identity/KeyCloakClients/KeycloakDealersClients/KeycloakDealerClient.cs:138-148 | definition of the dealer filed under one of an admin's groups: the admin's profile, the group's id and name, and the admin's role names. `SuperAdminGroupMap` proves each dealer carries its entry's group id |
| KeycloakDealerClient.FileUnderGroups | KeyCloak.Infrastructure/Identity/KeyCloakClients/KeycloakDealersClients/KeycloakDealerClient.cs:126-149 | filing an admin under its groups keeps the dictionary well-formed |
| DealerClientProperties.FileUnderGroupsSpec | KeyCloak.Infrastructure/Identity/KeyCloakClients/KeycloakDealersClients/KeycloakDealerClient.cs:126-149 | the inner loop keeps every entry filed under its own id and only adds entries and appends dealers |
| DealerClientProperties.FileUnderGroupsFiles | KeyCloak.Infrastructure/Identity/KeyCloakClients/KeycloakDealersClients/KeycloakDealerClient.cs:138-148 | the admin ends up listed under each group the loop visits |
| KeycloakDealerClient.ScanAdmins | KeyCloak.Infrastructure/Identity/KeyCloakClients/KeycloakDealersClients/KeycloakDealerClient.cs:109-150 | the super-admin scan keeps the dictionary well-formed |
| KeycloakDealerClient.ScanGroupMap | KeyCloak.Infrastructure/Identity/KeyCloakClients/KeycloakDealersClients/KeycloakDealerClient.cs:107-150 | the in-place loop building `groupMap` returns exactly ScanAdmins from the empty dictionary |
| DealerClientProperties.ScanAdminsSpec | KeyCloak.Infrastructure/Identity/KeyCloakClients/KeycloakDealersClients/KeycloakDealerClient.cs:109-150 | the scan keeps every entry keyed by its group id, with that id on each dealer, and only grows the dictionary |
| DealerClientProperties.ScanAdminsComplete | KeyCloak.Infrastructure/Identity/KeyCloakClients/KeycloakDealersClients/KeycloakDealerClient.cs:115-148 | no admin is missed: each admin-capable user is filed under each of its groups |
| KeycloakDealerClient.CallerRoles | KeyCloak.Infrastructure/Identity/KeyCloakClients/KeycloakDealersClients/KeycloakDealerClient.cs:181-193 | definition: the roles of the first realm_access claim; a missing or blank claim, or a "roles" that is not an array, gives none; nothing is caught, so a claim that does not parse or an element that is neither a string nor null is the error. `UnparsedRealmAccessAborts` and `AdminCallerReads` state it |
| KeycloakDealerClient.CallerId | KeyCloak.Infrastructure/Identity/KeyCloakClients/KeycloakDealersClients/KeycloakDealerClient.cs:195 | definition: the value of the first claim whose type is exactly NameIdentifier or "sub". `AdminCallerReads` and `DealersWithGroupsEmptyForCaller` use it |
| KeycloakDealerClient.GroupsWithAdmins | KeyCloak.Infrastructure/Identity/KeyCloakClients/KeycloakDealersClients/KeycloakDealerClient.cs:78-175 | definition: the roles are read first; a caller whose id is missing or blank gets nothing; a caller whose roles contain exactly "super-admin" gets every admin filed under each of its groups; any other caller gets the admins of its own groups and their subgroups. `SuperAdminGroupMap` and `RegularAdminGroups` state its two branches |
| KeycloakDealerClient.GetGroupsWithAdminsAsync | KeyCloak.Infrastructure/Identity/KeyCloakClients/KeycloakDealersClients/KeycloakDealerClient.cs:78-175 | returns GroupsWithAdmins: roles first, no id gives nothing, "super-admin" the scan, anyone else the labelling walk of its groups |
| KeycloakDealerClient.LabelCallerGroups | KeyCloak.Infrastructure/Identity/KeyCloakClients/KeycloakDealersClients/KeycloakDealerClient.cs:161-171 | definition: the caller's groups from `i` on, each group's details walked by LabelWalk into one shared list, the first failure being the error. `LabelGroups` is proved equal to it |
| KeycloakDealerClient.LabelGroups | KeyCloak.Infrastructure/Identity/KeyCloakClients/KeycloakDealersClients/KeycloakDealerClient.cs:161-171 | the regular-admin loop, appending to one result list across the caller's groups, returns exactly LabelCallerGroups from the empty list |
| DealerClientProperties.LabelCallerGroupsAppends | KeyCloak.Infrastructure/Identity/KeyCloakClients/KeycloakDealersClients/KeycloakDealerClient.cs:161-171 | the loop over the caller's groups only appends to the shared list, and every entry it appends has at least one admin, each labelled with the entry's group |
| DealerClientProperties.RegularAdminGroups | KeyCloak.Infrastructure/Identity/KeyCloakClients/KeycloakDealersClients/KeycloakDealerClient.cs:154-174 | for a caller without "super-admin", every entry returned has at least one admin, and each of its dealers carries the entry's group id and name. With a non-blank caller id, each entry is the AdminEntry of the directory's admins of a group in the subtree of one of the caller's groups, and an entry filed under that group itself is for the caller's group (`CallerEntry`). Conversely, every group in those subtrees that has admins gets such an entry, a top-level one for the caller's group itself (`HasEntryFor`) |
| DealerClientProperties.SuperAdminGroupMap | KeyCloak.Infrastructure/Identity/KeyCloakClients/KeycloakDealersClients/KeycloakDealerClient.cs:126-152 | the super-admin branch gives one entry per distinct group id, every dealer carries its entry's id, and every admin is filed under each of its groups. Conversely, every dealer listed under an id is the MapDealer of an admin-capable user and one of its groups with that id (`ScannedDealer`) |
| DealerClientProperties.FileUnderGroupsSound | KeyCloak.Infrastructure/Identity/KeyCloakClients/KeycloakDealersClients/KeycloakDealerClient.cs:126-149 | the inner loop over one admin's groups files only that admin, each time under one of its own groups |
| DealerClientProperties.ScanAdminsSound | KeyCloak.Infrastructure/Identity/KeyCloakClients/KeycloakDealersClients/KeycloakDealerClient.cs:109-150 | the scan files only admin-capable users, each under one of its own groups |
| DealerClientProperties.LabelWalkSound | KeyCloak.Infrastructure/Identity/KeyCloakClients/KeycloakDealersClients/KeycloakDealerClient.cs:283-324 | every entry the labelling walk appends is the AdminEntry of the directory's admins of a group the walk enters; only the root's entry, in a walk started without a parent, is filed under its own group |
| DealerClientProperties.LabelWalkListSound | KeyCloak.Infrastructure/Identity/KeyCloakClients/KeycloakDealersClients/KeycloakDealerClient.cs:313-323 | every entry the loop over "subGroups" appends is the AdminEntry of a group entered from those elements, filed under a parent |
| DealerClientProperties.LabelCallerGroupsSound | KeyCloak.Infrastructure/Identity/KeyCloakClients/KeycloakDealersClients/KeycloakDealerClient.cs:161-171 | every entry the loop over the caller's groups appends comes from the subtree of one of those groups, and an entry filed under its own group is for that caller's group |
| DealerClientProperties.LabelWalkComplete | KeyCloak.Infrastructure/Identity/KeyCloakClients/KeycloakDealersClients/KeycloakDealerClient.cs:283-324 | no group with admins that the walk enters is missed: its AdminEntry is in the result, filed under the root itself when the group is the root of a walk without a parent |
| DealerClientProperties.LabelWalkListComplete | KeyCloak.Infrastructure/Identity/KeyCloakClients/KeycloakDealersClients/KeycloakDealerClient.cs:313-323 | the same, for the groups entered from the "subGroups" elements |
| DealerClientProperties.LabelCallerGroupsComplete | KeyCloak.Infrastructure/Identity/KeyCloakClients/KeycloakDealersClients/KeycloakDealerClient.cs:161-171 | the loop over the caller's groups misses no group with admins in any caller group's subtree, and files the caller group itself as a top-level entry |
| KeycloakDealerClient.AddAdminsFrom | KeyCloak.Infrastructure/Identity/KeyCloakClients/KeycloakDealersClients/KeycloakDealerClient.cs:346-383 | the member loop keeps the `result` dictionary well-formed |
| KeycloakDealerClient.AddGroupAdmins | KeyCloak.Infrastructure/Identity/KeyCloakClients/KeycloakDealersClients/KeycloakDealerClient.cs:346-383 | the in-place member loop returns exactly AddAdminsFrom |
| DealerClientProperties.AddAdminsFromInv | KeyCloak.Infrastructure/Identity/KeyCloakClients/KeycloakDealersClients/KeycloakDealerClient.cs:361-382 | the member loop keeps `result` keyed by member id with no repeated group per admin; an admin's names, e-mail and roles come from its first encounter and are never overwritten |
| KeycloakDealerClient.AdminsWalk | KeyCloak.Infrastructure/Identity/KeyCloakClients/KeycloakDealersClients/KeycloakDealerClient.cs:326-399 | the de-duplicating walk keeps the dictionary well-formed |
| KeycloakDealerClient.AdminsWalkList | KeyCloak.Infrastructure/Identity/KeyCloakClients/KeycloakDealersClients/KeycloakDealerClient.cs:385-397 | the same, for the loop over "subGroups" |
| KeycloakDealerClient.CollectAdminsInGroupRecursively | KeyCloak.Infrastructure/Identity/KeyCloakClients/KeycloakDealersClients/KeycloakDealerClient.cs:326-399 | returns AdminsWalk of the group |
| DealerClientProperties.AdminsWalkInv | KeyCloak.Infrastructure/Identity/KeyCloakClients/KeycloakDealersClients/KeycloakDealerClient.cs:326-399 | the walk keeps `processedGroups` free of repeats, `result` keyed by member id, and no admin with a repeated group id; profiles only grow |
| DealerClientProperties.AdminsWalkListInv | KeyCloak.Infrastructure/Identity/KeyCloakClients/KeycloakDealersClients/KeycloakDealerClient.cs:385-397 | the same, for the loop over "subGroups" |
| DealerClientProperties.ProcessedGroupSkipped | KeyCloak.Infrastructure/Identity/KeyCloakClients/KeycloakDealersClients/KeycloakDealerClient.cs:335-339 | a group id already processed is skipped with its whole subtree |
| KeycloakDealerClient.WalkCallerGroups | KeyCloak.Infrastructure/Identity/KeyCloakClients/KeycloakDealersClients/KeycloakDealerClient.cs:264-277 | the walk over the caller's groups keeps the dictionary well-formed |
| DealerClientProperties.WalkCallerGroupsInv | KeyCloak.Infrastructure/Identity/KeyCloakClients/KeycloakDealersClients/KeycloakDealerClient.cs:264-277 | the same invariant across all of the caller's groups, which share one `result` and one `processedGroups` |
| DealerClientProperties.AddAdminsFromCovers | KeyCloak.Infrastructure/Identity/KeyCloakClients/KeycloakDealersClients/KeycloakDealerClient.cs:346-383 | every admin-capable member of the group, from the loop's position on, ends up in `result` with that group among its groups |
| DealerClientProperties.AdminsWalkCovers | KeyCloak.Infrastructure/Identity/KeyCloakClients/KeycloakDealersClients/KeycloakDealerClient.cs:326-399 | every processed group stays covered (each of its admins is in `result` with it); a group with a usable id and name ends up processed, and when it was not processed before, so does every usable element of its "subGroups" |
| DealerClientProperties.AdminsWalkListCovers | KeyCloak.Infrastructure/Identity/KeyCloakClients/KeycloakDealersClients/KeycloakDealerClient.cs:385-397 | the same, for the loop over "subGroups": every usable element ends up processed, and coverage is kept |
| DealerClientProperties.WalkCallerGroupsCovers | KeyCloak.Infrastructure/Identity/KeyCloakClients/KeycloakDealersClients/KeycloakDealerClient.cs:264-277 | across the caller's groups coverage is kept, and each caller group whose details give a usable id and name ends up processed |
| DealerClientProperties.WalkCallerGroupsListed | KeyCloak.Infrastructure/Identity/KeyCloakClients/KeycloakDealersClients/KeycloakDealerClient.cs:262-280 | from the empty state, every admin-capable member of each caller group whose details give an id is in the returned list with that group |
| KeycloakDealerClient.AllAdminsFrom | KeyCloak.Infrastructure/Identity/KeyCloakClients/KeycloakDealersClients/KeycloakDealerClient.cs:218-259 | definition of case 1 from user `i` on; its own contract keeps the dictionary well-formed. `AllAdminsFromOk`, `AllAdminsFromGrows` and `AllAdminsFromComplete` state when it succeeds and that it lists exactly the admins, each with all of its groups |
| KeycloakDealerClient.AdminWithGroups | KeyCloak.Infrastructure/Identity/KeyCloakClients/KeycloakDealersClients/KeycloakDealerClient.cs:238-258 | definition of one admin's step: its first encounter creates the entry, then every one of its groups is appended; the dictionary stays well-formed. `AdminWithGroupsGrows` and `AdminWithGroupsLists` state it |
| KeycloakDealerClient.GroupInfos | KeyCloak.Infrastructure/Identity/KeyCloakClients/KeycloakDealersClients/KeycloakDealerClient.cs:251-258 | one (id, name) entry per group, in order, with no duplicate check |
| KeycloakDealerClient.CollectAllAdmins | KeyCloak.Infrastructure/Identity/KeyCloakClients/KeycloakDealersClients/KeycloakDealerClient.cs:218-259 | the in-place case 1 loop returns exactly AllAdminsFrom from the empty dictionary |
| KeycloakDealerClient.AddGroupInfos | KeyCloak.Infrastructure/Identity/KeyCloakClients/KeycloakDealersClients/KeycloakDealerClient.cs:251-258 | the inner loop appends one GroupInfo per directory group, in order, after the groups already listed |
| DealerClientProperties.SuperAdminScanKeepsDuplicates | KeyCloak.Infrastructure/Identity/KeyCloakClients/KeycloakDealersClients/KeycloakDealerClient.cs:251-258 | case 1 appends every group listed for an admin, a repeated group twice |
| DealerClientProperties.AdminWithGroupsGrows | KeyCloak.Infrastructure/Identity/KeyCloakClients/KeycloakDealersClients/KeycloakDealerClient.cs:238-258 | one admin's step keeps `result` keyed by member id and every earlier profile with its groups, and adds no key but the admin's |
| DealerClientProperties.AdminWithGroupsLists | KeyCloak.Infrastructure/Identity/KeyCloakClients/KeycloakDealersClients/KeycloakDealerClient.cs:251-258 | after one admin's step, its entry holds the GroupInfo of each of its groups |
| DealerClientProperties.AllAdminsFromOk | KeyCloak.Infrastructure/Identity/KeyCloakClients/KeycloakDealersClients/KeycloakDealerClient.cs:218-259 | case 1 from user `i` on succeeds exactly when every realm-role read, and every admin's group read, succeeds |
| DealerClientProperties.AllAdminsFromGrows | KeyCloak.Infrastructure/Identity/KeyCloakClients/KeycloakDealersClients/KeycloakDealerClient.cs:218-259 | case 1 keeps `result` keyed by member id, never overwrites a profile or drops a group, and adds keys only for admin-capable users |
| DealerClientProperties.AllAdminsFromComplete | KeyCloak.Infrastructure/Identity/KeyCloakClients/KeycloakDealersClients/KeycloakDealerClient.cs:218-259 | no admin is missed: every admin-capable user from `i` on is a key, and its entry holds the GroupInfo of each of its groups |
| DealerClientProperties.ScanReturnsOnlyAdmins | KeyCloak.Infrastructure/Identity/KeyCloakClients/KeycloakDealersClients/KeycloakDealerClient.cs:218-259 | every dealer the scan returns is an admin-capable user |
| DealerClientProperties.ScanReturnsEveryAdmin | KeyCloak.Infrastructure/Identity/KeyCloakClients/KeycloakDealersClients/KeycloakDealerClient.cs:218-259 | every admin-capable user is returned with all of its groups |
| DealerClientProperties.ScanListsAdmins | KeyCloak.Infrastructure/Identity/KeyCloakClients/KeycloakDealersClients/KeycloakDealerClient.cs:218-280 | the list case 1 returns names each admin-capable user once, with all of its groups, and nobody else |
| DealerClientProperties.SuperAdminDealers | KeyCloak.Infrastructure/Identity/KeyCloakClients/KeycloakDealersClients/KeycloakDealerClient.cs:205-280 | case 1, a super-admin without groups: succeeds exactly when the user list and every read of the scan succeed, and then returns each admin-capable user once with all of its groups, and nobody else |
| KeycloakDealerClient.CollectCallerGroups | KeyCloak.Infrastructure/Identity/KeyCloakClients/KeycloakDealersClients/KeycloakDealerClient.cs:262-278 | the in-place case 2 loop, with one result dictionary and one processed-groups set shared across the caller's groups, returns exactly WalkCallerGroups from the empty state |
| KeycloakDealerClient.CollectAdminDealers | KeyCloak.Infrastructure/Identity/KeyCloakClients/KeycloakDealersClients/KeycloakDealerClient.cs:205-281 | once the caller is an admin, returns AdminDealers: case 1 for a super-admin without groups, case 2 for groups, otherwise nothing |
| KeycloakDealerClient.DealersWithGroups | KeyCloak.Infrastructure/Identity/KeyCloakClients/KeycloakDealersClients/KeycloakDealerClient.cs:177-281 | definition: the roles are read first; a missing or blank id, or no exact "admin" or "super-admin", gives the empty list; otherwise AdminDealers. `DealersWithGroupsEmptyForCaller`, `UnparsedRealmAccessAborts`, `SuperAdminDealers`, `CallerGroupsRollup`, `CallerGroupsCovered` and `CallerGroupsSound` state its cases |
| KeycloakDealerClient.AdminDealers | KeyCloak.Infrastructure/Identity/KeyCloakClients/KeycloakDealersClients/KeycloakDealerClient.cs:205-280 | definition: the caller's groups are fetched; a super-admin without groups gets every admin with all of its groups (case 1), a caller with groups gets the admins of those groups and their subgroups (case 2), and anyone else nothing. `SuperAdminDealers` states case 1; `CallerGroupsRollup`, `CallerGroupsCovered` and `CallerGroupsSound` state case 2; `SuperAdminScanKeepsDuplicates` shows that case 1 repeats a group listed twice |
| KeycloakDealerClient.GetDealersWithGroupsAsync | KeyCloak.Infrastructure/Identity/KeyCloakClients/KeycloakDealersClients/KeycloakDealerClient.cs:177-281 | returns DealersWithGroups: the caller checks, then case 1 or case 2 |
| DealerClientProperties.DealersWithGroupsEmptyForCaller | KeyCloak.Infrastructure/Identity/KeyCloakClients/KeycloakDealersClients/KeycloakDealerClient.cs:195-203 | no caller id, or neither "admin" nor "super-admin" by exact comparison, gives an empty list on every directory |
| DealerClientProperties.UnparsedRealmAccessAborts | KeyCloak.Infrastructure/Identity/KeyCloakClients/KeycloakDealersClients/KeycloakDealerClient.cs:185-194 | a realm_access claim that does not parse aborts both roll-ups |
| DealerClientProperties.AdminCallerReads | KeyCloak.Infrastructure/Identity/KeyCloakClients/KeycloakDealersClients/KeycloakDealerClient.cs:185-197 | a caller with realm roles ["Admin"] and a "sub" claim reads as those roles and that id |
| DealerClientProperties.CallerCheckIsCaseSensitive | KeyCloak.Infrastructure/Identity/KeyCloakClients/KeycloakDealersClients/KeycloakDealerClient.cs:202-203 | "Admin" makes a member admin-capable, but a caller whose only role is "Admin" gets nothing |
| DealerClientProperties.CallerGroupsRollup | KeyCloak.Infrastructure/Identity/KeyCloakClients/KeycloakDealersClients/KeycloakDealerClient.cs:262-278 | case 2: each admin appears once, and no admin lists the same group id twice |
| DealerClientProperties.CallerGroupsCovered | KeyCloak.Infrastructure/Identity/KeyCloakClients/KeycloakDealersClients/KeycloakDealerClient.cs:262-280 | case 2: for each of the caller's groups whose details give a usable id and name, every admin-capable member of that group is returned, listed with the group |
| DealerClientProperties.AddStepSound | KeyCloak.Infrastructure/Identity/KeyCloakClients/KeycloakDealersClients/KeycloakDealerClient.cs:361-382 | one step of the member loop, for an admin-capable member of a processed group, keeps every entry keyed by its dealer id, made from an admin-capable member and listing only processed groups the dealer is an admin member of |
| DealerClientProperties.NewEntrySound | KeyCloak.Infrastructure/Identity/KeyCloakClients/KeycloakDealersClients/KeycloakDealerClient.cs:361-382 | an admin met for the first time gets the profile of that member, with the group as its first group |
| DealerClientProperties.ExtendedEntrySound | KeyCloak.Infrastructure/Identity/KeyCloakClients/KeycloakDealersClients/KeycloakDealerClient.cs:375-382 | appending a processed group the dealer is an admin member of keeps its entry sound, its profile unchanged |
| DealerClientProperties.AddAdminsFromSound | KeyCloak.Infrastructure/Identity/KeyCloakClients/KeycloakDealersClients/KeycloakDealerClient.cs:346-383 | the member loop of a group lists nobody but admin-capable members of that group |
| DealerClientProperties.AdminsWalkSound | KeyCloak.Infrastructure/Identity/KeyCloakClients/KeycloakDealersClients/KeycloakDealerClient.cs:326-399 | the tree walk keeps the roll-up sound, and every group it processes is one the walk from its root enters |
| DealerClientProperties.AdminsWalkListSound | KeyCloak.Infrastructure/Identity/KeyCloakClients/KeycloakDealersClients/KeycloakDealerClient.cs:385-397 | the same, for the loop over "subGroups" |
| DealerClientProperties.WalkCallerGroupsSound | KeyCloak.Infrastructure/Identity/KeyCloakClients/KeycloakDealersClients/KeycloakDealerClient.cs:264-277 | the loop over the caller's groups keeps the roll-up sound, and every group it processes lies in the subtree of one of the caller's groups |
| DealerClientProperties.SoundValues | KeyCloak.Infrastructure/Identity/KeyCloakClients/KeycloakDealersClients/KeycloakDealerClient.cs:280 | the list read out of a sound roll-up holds only sound dealers, each group listed with them lying in a caller group's subtree |
| DealerClientProperties.CallerGroupsSound | KeyCloak.Infrastructure/Identity/KeyCloakClients/KeycloakDealersClients/KeycloakDealerClient.cs:262-280 | case 2, the converse of CallerGroupsCovered: every dealer returned was made from an admin-capable member of its first group, is an admin-capable member of each group listed with it, and each of those groups lies in the subtree of one of the caller's groups |
| IdentityProviderService.RegistrationError | KeyCloak.Infrastructure/Identity/IdentityProviderService.cs:122-131 | a 409 is EmailIsNotUnique(email); anything else is RegistrationFailed |
| IdentityProviderService.AsRegistration | KeyCloak.Infrastructure/Identity/IdentityProviderService.cs:96-132 | the requests are kept; success keeps the id; a fault is mapped by RegistrationError |
| IdentityProviderService.AdminRoleName | KeyCloak.Infrastructure/Identity/IdentityProviderService.cs:162 | "group-admin-" followed by the lower-cased group name |
| IdentityProviderProperties.AdminRoleNameLowerCased | KeyCloak.Infrastructure/Identity/IdentityProviderService.cs:162 | "Sales" gives "group-admin-sales" |
| IdentityProviderService.RegisterUser | KeyCloak.Infrastructure/Identity/IdentityProviderService.cs:96-132 | definition: register the user, ensure the group, add the membership; the first failure stops the sequence and is mapped by RegistrationError. `RegisterUserOrder` and `EmailConflictStopsRegistration` state its order and its failure mapping |
| IdentityProviderService.RegisterAdminUser | KeyCloak.Infrastructure/Identity/IdentityProviderService.cs:133-177 | definition: the steps of RegisterUser, then the realm role "group-admin-" plus the lower-cased group name. `RegisterAdminOrder` and `MissingRoleKeepsUser` state its order and what stays written on failure |
| IdentityProviderService.RegisterUserAsync | KeyCloak.Infrastructure/Identity/IdentityProviderService.cs:96-132 | appends exactly RegisterUser's requests and returns its result |
| IdentityProviderService.RegisterAdminUserAsync | KeyCloak.Infrastructure/Identity/IdentityProviderService.cs:133-177 | appends exactly RegisterAdminUser's requests and returns its result |
| IdentityProviderProperties.RegisterUserOrder | KeyCloak.Infrastructure/Identity/IdentityProviderService.cs:113-120 | a successful registration sends the new user, then the create-if-missing requests, then the membership of the new user in that group |
| IdentityProviderProperties.RegisterAdminOrder | KeyCloak.Infrastructure/Identity/IdentityProviderService.cs:152-163 | a successful admin registration sends those steps in that order, then the realm role mapping for "group-admin-" + the group name |
| IdentityProviderProperties.EmailConflictStopsRegistration | KeyCloak.Infrastructure/Identity/IdentityProviderService.cs:150-171 | a 409 on the first request is EmailIsNotUnique and nothing else is sent |
| IdentityProviderProperties.MembershipConflictReportedAsEmail | KeyCloak.Infrastructure/Identity/IdentityProviderService.cs:122-126 | a 409 on the membership is also reported as EmailIsNotUnique |
| IdentityProviderProperties.MissingRoleKeepsUser | KeyCloak.Infrastructure/Identity/IdentityProviderService.cs:152-176 | a missing admin role fails the registration, but the user, group and membership requests were already sent |
| IdentityProviderService.CreationError | KeyCloak.Infrastructure/Identity/IdentityProviderService.cs:230-239 | definition of the catch clauses: a 409 is GroupNameIsNotUnique with the name, anything else GroupCreationFailed with the parent id text. `FreshNameCreated` states the mapping |
| IdentityProviderService.CreateGroup | KeyCloak.Infrastructure/Identity/IdentityProviderService.cs:213-240 | definition: any search hit is GroupNameIsNotUnique with nothing sent; otherwise one POST groups, its failure mapped by CreationError. `DuplicateNameNotCreated` and `FreshNameCreated` state both cases |
| IdentityProviderService.CreateGroupAsync | KeyCloak.Infrastructure/Identity/IdentityProviderService.cs:213-240 | appends exactly CreateGroup's requests and returns its result |
| IdentityProviderProperties.DuplicateNameNotCreated | KeyCloak.Infrastructure/Identity/IdentityProviderService.cs:220-226 | any search hit is GroupNameIsNotUnique and nothing is sent |
| IdentityProviderProperties.FreshNameCreated | KeyCloak.Infrastructure/Identity/IdentityProviderService.cs:227-239 | without a hit exactly one POST groups; 409 is GroupNameIsNotUnique, another failure GroupCreationFailed with the parent id, success the new id |
| IdentityProviderService.UpdateGroup | KeyCloak.Infrastructure/Identity/IdentityProviderService.cs:242-264 | definition: KeyCloakClient's update of the rebuilt record; true gives the id text, false or a 409 gives GroupNameIsNotUnique, any other failure GroupUpdateFailed. `UpdateResultMapping` states the whole mapping |
| IdentityProviderService.UpdateGroupAsync | KeyCloak.Infrastructure/Identity/IdentityProviderService.cs:242-264 | appends exactly UpdateGroup's requests and returns its result |
| IdentityProviderProperties.UpdateResultMapping | KeyCloak.Infrastructure/Identity/IdentityProviderService.cs:244-263 | one PUT to the id (Guid.Empty when null); a group that does not exist afterwards, or a 409, is GroupNameIsNotUnique; another failure is GroupUpdateFailed with the parent id; otherwise the id text ("" for a null id) |
| IdentityProviderService.DeleteGroup | KeyCloak.Infrastructure/Identity/IdentityProviderService.cs:265-278 | definition: KeyCloakClient's delete; success gives the id text, and every failure is GroupUpdateFailed with the id. `DeleteFailureMapping` states it |
| IdentityProviderService.DeleteGroupAsync | KeyCloak.Infrastructure/Identity/IdentityProviderService.cs:265-278 | appends exactly DeleteGroup's requests and returns its result |
| IdentityProviderProperties.DeleteFailureMapping | KeyCloak.Infrastructure/Identity/IdentityProviderService.cs:269-277 | every failed delete, a 404 included, is GroupUpdateFailed with the id; success is the id text |
| IdentityProviderService.UsersInCallerGroup | KeyCloak.Infrastructure/Identity/IdentityProviderService.cs:280-287 | definition: the first claim of type exactly "groups"; a missing or blank one gives the empty list, any other is looked up by UsersByGroup. `BlankGroupsClaim` states the first case |
| IdentityProviderProperties.BlankGroupsClaim | KeyCloak.Infrastructure/Identity/IdentityProviderService.cs:280-287 | a missing or blank "groups" claim gives an empty list on every directory; UserGroupQueryService.cs:23-29 has the same short-circuit |
| IdentityProviderService.FilteredGroups | KeyCloak.Infrastructure/Identity/IdentityProviderService.cs:301-308 | definition: without "group-viewer" among the realm roles (ignoring case) the call is refused; otherwise the group client's role-filtered listing. `GateDecision` states both directions |
| IdentityProviderService.GroupsWithUsersByRoles | KeyCloak.Infrastructure/Identity/IdentityProviderService.cs:309-318 | definition: the same gate, then the group client's membership search. `GateDecision` and `HandleIsService` use it |
| IdentityProviderProperties.GateDecision | KeyCloak.Infrastructure/Identity/IdentityProviderService.cs:301-318 | when a realm_access claim grants "group-viewer", both reads are the group client's answer; without one, both are UnauthorizedAccess; UserGroupQueryService.cs:36-51 has the same gates |
| GetGroupsWithUsersQueryHandler.HandlerRoles | KeyCloak.Application/Groups/GetGroupWithUsers/GetGroupsWithUsersQueryHandler.cs:12-27 | definition of the handler's own role set: per realm_access claim, the strings read before the first element that raises, folded and without blanks. `ClaimRolesWithin`, `StrictWithinHandler` and `PartialRolesKept` compare it with ExtractRealmRoles |
| GetGroupsWithUsersQueryHandler.Handle | KeyCloak.Application/Groups/GetGroupWithUsers/GetGroupsWithUsersQueryHandler.cs:10-33 | definition: a missing user, or one whose role set lacks "group-viewer", is refused; otherwise the service answers. `HandleIsService` proves the answer is the service's |
| GetGroupsWithUsersQueryHandler.StringPrefixWhole | KeyCloak.Application/Groups/GetGroupWithUsers/GetGroupsWithUsersQueryHandler.cs:17-23 | when no element raises, the handler reads the same strings as the strict pipeline |
| GetGroupsWithUsersQueryHandler.ClaimRolesWithin | KeyCloak.Application/Groups/GetGroupWithUsers/GetGroupsWithUsersQueryHandler.cs:14-25 | each claim lists, for the handler, at least the roles it lists for RoleExtractionService |
| GetGroupsWithUsersQueryHandler.StrictWithinHandler | KeyCloak.Application/Groups/GetGroupWithUsers/GetGroupsWithUsersQueryHandler.cs:12-27 | the handler's role set contains the strict one |
| GetGroupsWithUsersQueryHandler.HandleIsService | KeyCloak.Application/Groups/GetGroupWithUsers/GetGroupsWithUsersQueryHandler.cs:10-33 | a missing user is UnauthorizedAccess; for a present user the answer is exactly the service's |
| GetGroupsWithUsersQueryHandler.PartialRolesKept | KeyCloak.Application/Groups/GetGroupWithUsers/GetGroupsWithUsersQueryHandler.cs:17-26 | for roles ["group-viewer", 5] the handler grants "group-viewer" and RoleExtractionService does not |
| HttpPipeline.ClaimsIdentity.AddClaim | KeyCloak/Middleware/KeycloakRoleExtractionMiddleware.cs:22 | the claim is appended, duplicates included |
| HttpPipeline.HttpContext.Next | KeyCloak/Middleware/KeycloakAuthorizationMiddleware.cs:42 | the next delegate runs once more; `Items` is unchanged |
| KeycloakAuthorizationMiddleware.NonNullStrings | KeyCloak/Middleware/KeycloakAuthorizationMiddleware.cs:25-27 | succeeds exactly when every element is a string or null; then holds exactly the strings of the array |
| KeycloakAuthorizationMiddleware.NonNullStringsAppend | KeyCloak/Middleware/KeycloakAuthorizationMiddleware.cs:26 | reading two arrays in a row gives the first's strings followed by the second's, so order and repetitions are kept |
| KeycloakAuthorizationMiddleware.NonNullStringsAppendOk | KeyCloak/Middleware/KeycloakAuthorizationMiddleware.cs:26 | reading two arrays in a row succeeds exactly when reading each one does |
| KeycloakAuthorizationMiddleware.NonNullStringsCons | KeyCloak/Middleware/KeycloakAuthorizationMiddleware.cs:26 | one element in front: a string goes in front of the rest's strings, a null adds nothing, anything else raises |
| KeycloakAuthorizationMiddleware.PermissionOf | KeyCloak/Middleware/KeycloakAuthorizationMiddleware.cs:22-29 | succeeds exactly when "rsname" is present and a string or null, and an array "scopes" reads; the resource is "rsname" ("" for null); the scopes are the non-null strings, empty without an array |
| KeycloakAuthorizationMiddleware.Entries | KeyCloak/Middleware/KeycloakAuthorizationMiddleware.cs:19-37 | one entry per element, in order, up to the first element whose body raises |
| KeycloakAuthorizationMiddleware.AppendEntries | KeyCloak/Middleware/KeycloakAuthorizationMiddleware.cs:22-31 | the `foreach` appends exactly Entries |
| KeycloakAuthorizationMiddleware.Permissions | KeyCloak/Middleware/KeycloakAuthorizationMiddleware.cs:11-38 | definition: no non-blank "authorization" claim, a parse failure, a missing "permissions" or a non-array gives the empty list; otherwise the Entries of the array. `NoAuthorizationClaim` and `DealerViewFromToken` state its cases |
| KeycloakAuthorizationMiddleware.InvokeAsync | KeyCloak/Middleware/KeycloakAuthorizationMiddleware.cs:11-42 | `Items["KeycloakPermissions"]` is always set, to the parsed list, with no other item changed; the next delegate runs exactly once |
| KeycloakAuthorizationMiddleware.NoAuthorizationClaim | KeyCloak/Middleware/KeycloakAuthorizationMiddleware.cs:14-15 | without a non-blank "authorization" claim the list is empty |
| KeycloakAuthorizationMiddleware.MissingNameStopsParsing | KeyCloak/Middleware/KeycloakAuthorizationMiddleware.cs:34-37 | a missing "rsname" stops parsing: the entry before it is kept, with its null scope dropped, and the one after it is lost |
| KeycloakRoleExtractionMiddleware.NonEmpty | KeyCloak/Middleware/KeycloakRoleExtractionMiddleware.cs:21 | exactly the non-empty strings of the list |
| KeycloakRoleExtractionMiddleware.NonEmptyAppend | KeyCloak/Middleware/KeycloakRoleExtractionMiddleware.cs:21 | the names kept from two lists in a row are those of the first, then those of the second, and a single name is kept exactly when it is not empty |
| KeycloakRoleExtractionMiddleware.RoleNamesOf | KeyCloak/Middleware/KeycloakRoleExtractionMiddleware.cs:18-23 | raises (InvalidOperation) exactly when some element is neither a string nor null |
| KeycloakRoleExtractionMiddleware.RoleNamesOfSpec | KeyCloak/Middleware/KeycloakRoleExtractionMiddleware.cs:18-23 | the names added are the non-empty strings read before the first element that raises, in order |
| KeycloakRoleExtractionMiddleware.RoleClaims | KeyCloak/Middleware/KeycloakRoleExtractionMiddleware.cs:21-22 | one Role claim per name, in order |
| KeycloakRoleExtractionMiddleware.AddRoles | KeyCloak/Middleware/KeycloakRoleExtractionMiddleware.cs:18-23 | the loop appends exactly those Role claims to the identity (none for a null identity) and fails exactly when RoleNamesOf does |
| KeycloakRoleExtractionMiddleware.Expand | KeyCloak/Middleware/KeycloakRoleExtractionMiddleware.cs:10-25 | definition: no realm_access claim, an empty one or one without "roles" adds nothing; a parse failure, a non-object root or a non-array "roles" is the exception; otherwise RoleNamesOf the array. `NothingToExpand`, `MalformedJsonRaises` and `RoleNamesOfSpec` state its cases |
| KeycloakRoleExtractionMiddleware.InvokeAsync | KeyCloak/Middleware/KeycloakRoleExtractionMiddleware.cs:8-27 | the identity gains exactly the expanded Role claims; the request fails exactly when the expansion raises; the next delegate runs exactly once on success and never on failure |
| KeycloakRoleExtractionMiddleware.NothingToExpand | KeyCloak/Middleware/KeycloakRoleExtractionMiddleware.cs:13-16 | a missing or empty realm_access, or one without "roles", adds nothing and raises nothing |
| KeycloakRoleExtractionMiddleware.MalformedJsonRaises | KeyCloak/Middleware/KeycloakRoleExtractionMiddleware.cs:15 | malformed JSON is not caught |
| KeycloakRoleExtractionMiddleware.DuplicatesKept | KeyCloak/Middleware/KeycloakRoleExtractionMiddleware.cs:18-23 | ["admin", "", null, "admin"] adds "admin" twice and skips the empty and null names |
| KeycloakRoleExtractionMiddleware.PartialAdditionKept | KeyCloak/Middleware/KeycloakRoleExtractionMiddleware.cs:18-23 | ["admin", 5, "viewer"] adds "admin", then raises |
| KeycloakAuthorizationPolicies.CanViewDealers | KeyCloak/Extensions/KeycloakAuthorizationExtensions.cs:50-52 | definition: the resource is exactly "dealer-management" and the scopes contain exactly "view". `DealerViewIsCaseSensitive` shows the comparisons are exact |
| KeycloakAuthorizationPolicies.ViewDealerManagement | KeyCloak/Extensions/KeycloakAuthorizationExtensions.cs:43-56 | definition of the assertion: the resource is an HttpContext whose Items hold, under "KeycloakPermissions", a permission list with an entry that CanViewDealers. `DealerViewFromToken` and `DealerViewDenied` state when it holds |
| KeycloakAuthorizationPolicies.DealerViewFromToken | KeyCloak/Extensions/KeycloakAuthorizationExtensions.cs:43-56 | after the middleware ran, the assertion holds exactly when an element parsed before the first failure names "dealer-management" with the scope "view" |
| KeycloakAuthorizationPolicies.DealerViewDenied | KeyCloak/Extensions/KeycloakAuthorizationExtensions.cs:46-55 | no HttpContext, no entry, an entry of another type and an empty list are all denied |
| KeycloakAuthorizationPolicies.DealerViewIsCaseSensitive | KeyCloak/Extensions/KeycloakAuthorizationExtensions.cs:51-52 | "Dealer-Management" and "View" do not match |
| KeycloakAuthorizationPolicies.IsInRole | KeyCloak/Extensions/KeycloakAuthorizationExtensions.cs:40-41 | definition of `ClaimsPrincipal.IsInRole` with ClaimTypes.Role as the role claim type: the claim type ignoring case, the role name exactly. `PolicyStricterThanServiceGate` shows the exact name comparison |
| KeycloakAuthorizationPolicies.GroupViewerPolicy | KeyCloak/Extensions/KeycloakAuthorizationExtensions.cs:40-41 | definition: an authenticated user in the role "group-viewer". `ExpandedRoleAdmits` and `PolicyStricterThanServiceGate` state when it holds |
| KeycloakAuthorizationPolicies.ExpandedRoleAdmits | KeyCloak/Extensions/KeycloakAuthorizationExtensions.cs:40-41 | a "group-viewer" Role claim added by the role middleware admits an authenticated user |
| KeycloakAuthorizationPolicies.PolicyStricterThanServiceGate | KeyCloak/Extensions/KeycloakAuthorizationExtensions.cs:40-41 | a realm role "Group-Viewer" passes the service's gate, but once expanded into a Role claim fails the policy |
| KeycloakAuthorizationPolicies.MixedCaseServiceGate | KeyCloak.Infrastructure/Identity/IdentityProviderService.cs:301-305 | a realm_access claim whose only role is "Group-Viewer" passes the service's gate, which compares role names ignoring case |
| KeycloakAuthorizationPolicies.MixedCaseExpansion | KeyCloak/Middleware/KeycloakRoleExtractionMiddleware.cs:10-25 | the role middleware expands that claim into the single role name "Group-Viewer", unchanged |
| KeycloakAuthorizationPolicies.MixedCasePolicy | KeyCloak/Extensions/KeycloakAuthorizationExtensions.cs:40-41 | a principal holding that claim and a Role claim "Group-Viewer" fails the policy, which compares the role name exactly |

## Left out

- HTTP transport, bearer tokens, auth headers, async, cancellation and logging are not modelled. Each read endpoint is a lookup in the snapshot, and each write goes through a fixed reply function.
- System.Text.Json parsing and deserialization are not modelled. Claims and responses hold parsed values, and a parse failure is an explicit case.
- GroupRepresentation ids are `Option` values, the declared `Guid?` type, so the snapshot's `groupList` and `search` records may hold `None`. That is wider than the program: every record it holds comes from the record's one constructor, which fills both ids. `Directory.RecordsConstructed` names the directories the program produces, and the lemmas that depend on it require it. In practice every deserialized record carries `Guid.Empty`, because Keycloak's payload names the id "id". So the existing-match branch of CreateGroupIfNotExistsAsync returns `Guid.Empty.ToString()`: `PayloadMatchReusesEmptyGuid` and `PayloadHitReusesEmptyGuid` state this for the two clients.
- The directory is one immutable snapshot, so a read after a write does not see the write.
- Case-insensitive comparison (OrdinalIgnoreCase, InvariantCultureIgnoreCase, `ToLower`) folds only ASCII letters, because Unicode case tables are out of scope.
- `char.IsWhiteSpace` is the fixed list in `Text.IsWhiteSpace`.
- Null strings inside directory records (names, ids) are not modelled. Every record field holds a string.
- The `groups!` dereference on a null group list is not modelled.
- Paging and search semantics of the admin API are not modelled. The `search` endpoint is one lookup per term.
- The generated credentials of a registration are not modelled. Only user name, e-mail and names reach the request.
- RegisterDemoUserAsync, the token, login, refresh and e-mail flows, and the single-call dealer mutations are not modelled. Each is a single proxied call.
- The thin wrapper services, the controllers, the MediatR handlers other than GetGroupsWithUsersQueryHandler, Program.cs (including its `OnTokenValidated` copy of the role expansion) and the DTO records are not modelled, apart from their shapes.
- KeycloakGroupClient's own copies of GetAllGroups, ProcessSubGroups, GetUsersByGroup, Delete and the two Assign calls are not modelled: on deserialized input they send the same requests and fail the same way as the KeyCloakClient versions modelled here, except that GetUsersByGroupAsync answers an empty list where KeyCloakClient's would dereference a null group list. Its UpdateGroupAsync differs and is modelled (`KeycloakGroupClient.UpdateGroupAsync`): it answers true on every success, with no existence check.
- UserGroupQueryService has no module of its own. Its three methods have the same bodies as IdentityProviderService's `GetUsersInCallerGroupAsync`, `GetFilteredGroupsAsync` and `GetGroupsWithUsersByRolesAsync`, and are modelled by them.
- Several call sites do not match the method signatures they call: IdentityProviderService's calls of GetFilteredGroupsByRolesAsync and GetGroupsWithUsersByRolesAsync, and the arity of some KeyCloakClient calls. The model gives each call the behaviour of the one method that fits, the KeycloakGroupClient one for those two.
- IdentityProviderService.CreateGroupAsync builds a record that passes ParentId as the group id. Only the name reaches the server, so the model sends only the name.
- The recursions over `children` require `Directory.Ranked`, an acyclic `children` endpoint. On a cyclic directory the code does not terminate, and the model does not describe that case.
- The principal's claims and the ClaimsIdentity's claims are kept as separate values. A claim the role middleware adds is seen by a later reader of the principal only through `ExpandedRoleAdmits` and `PolicyStricterThanServiceGate`, which state the principal explicitly.
- CallerGroupsCovered: states coverage for the caller's own groups only. Below them, coverage is stated one walk step at a time by `AdminsWalkCovers`: a group processed for the first time has each usable "subGroups" element processed, and every processed group is covered. No single lemma closes this over the whole embedded tree, because a repeated id skips its subtree.
- The rest of the pipeline behind `next` is not modelled: the context only counts the calls.
- The logging in the authorization middleware's `catch` is not modelled.
