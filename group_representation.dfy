/** The GroupRepresentation record: its constructor turns a missing group or
  parent id into `Guid.Empty`. It is the record's only constructor, and
  `ReadFromJsonAsync` builds records through it as well, binding JSON
  properties to its parameters, so no record the program holds has a null id.
 */
module GroupRepresentations {
  import opened Wrappers

  /** A Guid, kept as the text `Guid.ToString()` gives. */
  datatype Guid = Guid(text: string)

  const EmptyGuid := Guid("00000000-0000-0000-0000-000000000000")

  /** The init-only properties of the record, with the declared types: both ids
      are `Guid?`, though only `Constructed` records ever occur. */
  datatype GroupRepresentation = GroupRepresentation(name: string, groupId: Option<Guid>, parentId: Option<Guid>)

  /** `new GroupRepresentation(name, groupId, parentId)`. */
  function NewGroupRepresentation(name: string, groupId: Option<Guid>, parentId: Option<Guid>): (g: GroupRepresentation)
    ensures g.name == name
    ensures g.groupId.Some? && g.parentId.Some?
    ensures groupId.Some? ==> g.groupId == groupId
    ensures groupId.None? ==> g.groupId == Some(EmptyGuid)
    ensures parentId.Some? ==> g.parentId == parentId
    ensures parentId.None? ==> g.parentId == Some(EmptyGuid)
  {
    GroupRepresentation(
      name,
      Some(if groupId.Some? then groupId.value else EmptyGuid),
      Some(if parentId.Some? then parentId.value else EmptyGuid))
  }

  /** Both ids are present, as the constructor always leaves them. */
  predicate Constructed(g: GroupRepresentation) {
    g.groupId.Some? && g.parentId.Some?
  }

  /** A record the constructor built is rebuilt unchanged from its own
      properties, as IdentityProviderService.UpdateGroupAsync does. */
  lemma RebuildIsIdentity(name: string, groupId: Option<Guid>, parentId: Option<Guid>)
    ensures var g := NewGroupRepresentation(name, groupId, parentId);
      NewGroupRepresentation(g.name, g.groupId, g.parentId) == g
  {
  }

  /** String interpolation of a `Guid?`: its text, or "" for null. */
  function GuidText(id: Option<Guid>): string {
    if id.Some? then id.value.text else ""
  }
}
