/** What KeyCloakClient's tree assembly, path lookup and create-if-missing
  step guarantee.
 */
module KeyCloakClientProperties {
  import opened Wrappers
  import opened Json
  import opened Text
  import opened KeycloakJsonHelpers
  import opened GroupRepresentations
  import opened Directory
  import opened AdminApi
  import opened KeyCloakClient

  // ------------------------------------------------------------ group tree

  /** A processed nested entry differs from the original in "subGroups" only;
      one with a usable id always carries "subGroups", with one entry per
      child; one without is returned unchanged. */
  lemma ProcessedNodeShape(d: Snapshot, rank: string -> nat, g: Group)
    requires Ranked(d, rank)
    ensures var r := ProcessedNode(d, rank, g);
      r.Ok? ==> SameExcept(g, r.value, "subGroups")
    ensures var r := ProcessedNode(d, rank, g);
      r.Ok? && !TryGetString(g, "id").0 ==> r.value == g
    ensures var r := ProcessedNode(d, rank, g);
      var (ok, id) := TryGetString(g, "id");
      r.Ok? && ok ==>
        && Children(d, id).Ok?
        && "subGroups" in r.value.fields && r.value.fields["subGroups"].ClrList?
        && |r.value.fields["subGroups"].groups| == |Children(d, id).value|
  {
    ProcessedNodeChangesSubGroupsOnly(d, rank, g);
    var (ok, id) := TryGetString(g, "id");
    var r := ProcessedNode(d, rank, g);
    if ok && r.Ok? && |Children(d, id).value| > 0 {
      ProcessedListShape(d, rank, id, Children(d, id).value, 0);
    }
  }

  /** The first half of ProcessedNodeShape on its own: the cheaper fact that
      ProcessedListShape needs at each entry of its induction. */
  lemma ProcessedNodeChangesSubGroupsOnly(d: Snapshot, rank: string -> nat, g: Group)
    requires Ranked(d, rank)
    ensures var r := ProcessedNode(d, rank, g);
      r.Ok? ==> SameExcept(g, r.value, "subGroups")
  {
  }

  /** Processing a list keeps its length and changes each entry in
      "subGroups" only. */
  lemma {:induction false} ProcessedListShape(d: Snapshot, rank: string -> nat, parent: string, groups: seq<Group>, i: nat)
    requires Ranked(d, rank) && i <= |groups|
    requires forall c | c in groups :: Measure(rank, c) <= rank(parent)
    ensures var r := ProcessedList(d, rank, parent, groups, i);
      r.Ok? ==> |r.value| == |groups| - i && forall k | 0 <= k < |r.value| :: SameExcept(groups[i + k], r.value[k], "subGroups")
    decreases |groups| - i
  {
    if i < |groups| {
      ProcessedNodeChangesSubGroupsOnly(d, rank, groups[i]);
      if ProcessedNode(d, rank, groups[i]).Ok? {
        ProcessedListShape(d, rank, parent, groups, i + 1);
      }
    }
  }

  /** A top-level entry changes in "subGroups" only, and gains it only when it
      has a JSON-string id and at least one child. */
  lemma AssembledGroupShape(d: Snapshot, rank: string -> nat, g: Group)
    requires Ranked(d, rank)
    ensures var r := AssembledGroup(d, rank, g);
      r.Ok? ==> SameExcept(g, r.value, "subGroups")
    ensures var r := AssembledGroup(d, rank, g);
      r.Ok? && r.value != g ==>
        && HasJsonStringId(g)
        && Children(d, g.fields["id"].json.s).Ok? && |Children(d, g.fields["id"].json.s).value| > 0
        && "subGroups" in r.value.fields && r.value.fields["subGroups"].ClrList?
        && |r.value.fields["subGroups"].groups| == |Children(d, g.fields["id"].json.s).value|
  {
    var r := AssembledGroup(d, rank, g);
    if r.Ok? && HasJsonStringId(g) {
      var id := g.fields["id"].json.s;
      if Children(d, id).Ok? && |Children(d, id).value| > 0 {
        ProcessedListShape(d, rank, id, Children(d, id).value, 0);
      }
    }
  }

  /** GetAllGroupsAsync returns one entry per top-level group, in order, each
      changed in "subGroups" only. */
  lemma {:induction false} AssembledListShape(d: Snapshot, rank: string -> nat, groups: seq<Group>, i: nat)
    requires Ranked(d, rank) && i <= |groups|
    ensures var r := AssembledList(d, rank, groups, i);
      r.Ok? ==> |r.value| == |groups| - i && forall k | 0 <= k < |r.value| :: SameExcept(groups[i + k], r.value[k], "subGroups")
    decreases |groups| - i
  {
    if i < |groups| {
      AssembledGroupShape(d, rank, groups[i]);
      if AssembledGroup(d, rank, groups[i]).Ok? {
        AssembledListShape(d, rank, groups, i + 1);
      }
    }
  }

  lemma AllGroupsShape(d: Snapshot, rank: string -> nat)
    requires Ranked(d, rank)
    ensures var r := AllGroups(d, rank);
      r.Ok? ==> (
        && d.groups.Ok? && |r.value| == |d.groups.value|
        && forall k | 0 <= k < |r.value| :: SameExcept(d.groups.value[k], r.value[k], "subGroups"))
  {
    if d.groups.Ok? {
      AssembledListShape(d, rank, d.groups.value, 0);
    }
  }

  /** A childless group: at the top level it is returned untouched, nested it
      gets an empty "subGroups". */
  lemma ChildlessTopVersusNested(d: Snapshot, rank: string -> nat, g: Group, id: string)
    requires Ranked(d, rank)
    requires "id" in g.fields && g.fields["id"] == Element(JString(id))
    requires Children(d, id) == Ok([])
    ensures AssembledGroup(d, rank, g) == Ok(g)
    ensures ProcessedNode(d, rank, g) == Ok(SetField(g, "subGroups", ClrList([])))
  {
  }

  /** An id stored as a CLR string is descended into when nested, but not at
      the top level. */
  lemma ClrStringIdOnlyNested(d: Snapshot, rank: string -> nat, g: Group, id: string)
    requires Ranked(d, rank)
    requires "id" in g.fields && g.fields["id"] == ClrString(id)
    requires Children(d, id).Ok?
    ensures AssembledGroup(d, rank, g) == Ok(g)
    ensures ProcessedNode(d, rank, g).Ok? ==> "subGroups" in ProcessedNode(d, rank, g).value.fields
  {
  }

  /** A nested entry with a number for its id is left exactly as it was. */
  lemma UnusableNestedIdSkipped(d: Snapshot, rank: string -> nat, g: Group, n: int)
    requires Ranked(d, rank)
    requires "id" in g.fields && g.fields["id"] == Element(JNumber(n))
    ensures ProcessedNode(d, rank, g) == Ok(g)
  {
  }

  /** A failed `children` fetch anywhere aborts the whole assembly. */
  lemma ChildFetchFailureAborts(d: Snapshot, rank: string -> nat, g: Group)
    requires Ranked(d, rank) && TryGetString(g, "id").0
    requires Children(d, TryGetString(g, "id").1).Err?
    ensures ProcessedNode(d, rank, g) == Err(Children(d, TryGetString(g, "id").1).fault)
  {
  }

  // ------------------------------------------------------------- by path

  /** Every member returned carries the path exactly as the caller gave it, and
      the members are those of the first group matching the trimmed path. */
  lemma UsersByGroupSpec(d: Snapshot, groupPath: string)
    ensures var r := UsersByGroup(d, groupPath);
      r.Ok? ==> forall k | 0 <= k < |r.value| :: r.value[k].groupPath == Some(groupPath)
    ensures var r := UsersByGroup(d, groupPath);
      r.Ok? && |r.value| > 0 ==>
        var target := FirstNamed(d.groupList.value, TrimStart(groupPath, '/'));
        && target.Some?
        && EqualsIgnoreCase(target.value.name, TrimStart(groupPath, '/'))
        && Members(d, GuidText(target.value.groupId)).Ok?
        && |r.value| == |Members(d, GuidText(target.value.groupId)).value|
        && forall k | 0 <= k < |r.value| :: r.value[k].id == Members(d, GuidText(target.value.groupId)).value[k].id
  {
    UsersOfGroupNamedSpec(d, TrimStart(groupPath, '/'), groupPath);
  }

  lemma UsersOfGroupNamedSpec(d: Snapshot, name: string, groupPath: string)
    ensures var r := UsersOfGroupNamed(d, name, groupPath);
      r.Ok? ==> forall k | 0 <= k < |r.value| :: r.value[k].groupPath == Some(groupPath)
    ensures var r := UsersOfGroupNamed(d, name, groupPath);
      r.Ok? && |r.value| > 0 ==>
        var target := FirstNamed(d.groupList.value, name);
        && target.Some?
        && EqualsIgnoreCase(target.value.name, name)
        && Members(d, GuidText(target.value.groupId)).Ok?
        && |r.value| == |Members(d, GuidText(target.value.groupId)).value|
        && forall k | 0 <= k < |r.value| :: r.value[k].id == Members(d, GuidText(target.value.groupId)).value[k].id
  {
  }

  /** No group of that name (ignoring case and leading '/') gives an empty list
      and no members call. */
  lemma UsersByGroupNoMatch(d: Snapshot, groupPath: string)
    requires d.groupList.Ok?
    requires forall k | 0 <= k < |d.groupList.value| :: !EqualsIgnoreCase(d.groupList.value[k].name, TrimStart(groupPath, '/'))
    ensures UsersByGroup(d, groupPath) == Ok([])
  {
  }

  /** Two paths that trim to the same name read the same group: the results
      agree on success and list the same members, differing only in the path
      they report. */
  lemma SameTrimSameMembers(d: Snapshot, p: string, q: string)
    requires TrimStart(p, '/') == TrimStart(q, '/')
    ensures var a := UsersByGroup(d, p);
      var b := UsersByGroup(d, q);
      && (a.Ok? <==> b.Ok?)
      && (a.Ok? ==> |a.value| == |b.value| && forall k | 0 <= k < |a.value| :: a.value[k].id == b.value[k].id)
  {
    PathOnlyLabels(d, TrimStart(p, '/'), p, q);
  }

  /** The path given only labels the members found under a name. */
  lemma PathOnlyLabels(d: Snapshot, name: string, p: string, q: string)
    ensures var a := UsersOfGroupNamed(d, name, p);
      var b := UsersOfGroupNamed(d, name, q);
      && (a.Ok? <==> b.Ok?)
      && (a.Ok? ==> |a.value| == |b.value| && forall k | 0 <= k < |a.value| :: a.value[k].id == b.value[k].id)
  {
  }

  /** "/sales" and "sales" list the same members. */
  lemma LeadingSlashIgnored(d: Snapshot, p: string)
    ensures var a := UsersByGroup(d, "/" + p);
      var b := UsersByGroup(d, p);
      && (a.Ok? <==> b.Ok?)
      && (a.Ok? ==> |a.value| == |b.value| && forall k | 0 <= k < |a.value| :: a.value[k].id == b.value[k].id)
  {
    SlashTrimmed(p);
    SameTrimSameMembers(d, "/" + p, p);
  }

  lemma SlashTrimmed(p: string)
    ensures TrimStart("/" + p, '/') == TrimStart(p, '/')
  {
    assert ("/" + p)[1..] == p;
  }

  // ---------------------------------------------------- create if missing

  /** The first group matching the name ignoring case is reused when it has an
      id, and nothing is written. */
  lemma ExistingGroupReused(d: Snapshot, answer: Request -> Reply, name: string, k: nat)
    requires d.groupList.Ok? && k < |d.groupList.value|
    requires var gs := d.groupList.value;
      && EqualsIgnoreCase(gs[k].name, name) && gs[k].groupId.Some?
      && forall j | 0 <= j < k :: !EqualsIgnoreCase(gs[j].name, name)
    ensures CreateIfMissingOutcome(d, answer, name) == Outcome(Ok(d.groupList.value[k].groupId.value.text), [])
  {
    var gs := d.groupList.value;
    var r := FirstNamed(gs, name);
    var m :| 0 <= m < |gs| && gs[m] == r.value && EqualsIgnoreCase(r.value.name, name)
      && forall j | 0 <= j < m :: !EqualsIgnoreCase(gs[j].name, name);
    assert m == k;
  }

  /** Without a match that has an id, the group is created: exactly the one
      POST of CreateGroupAsync is sent and its outcome is the answer. */
  lemma NoMatchCreates(d: Snapshot, answer: Request -> Reply, name: string)
    requires d.groupList.Ok?
    requires var gs := d.groupList.value;
      forall k | 0 <= k < |gs| :: !EqualsIgnoreCase(gs[k].name, name) || gs[k].groupId.None?
    ensures CreateIfMissingOutcome(d, answer, name) == CreateGroupOutcome(answer, name)
  {
  }

  /** On records the constructor built, the group is created exactly when no
      listed name matches ignoring case. */
  lemma CreatesExactlyWithoutMatch(d: Snapshot, answer: Request -> Reply, name: string)
    requires RecordsConstructed(d) && d.groupList.Ok?
    ensures var gs := d.groupList.value;
      CreateIfMissingOutcome(d, answer, name) == CreateGroupOutcome(answer, name)
      <==> forall k | 0 <= k < |gs| :: !EqualsIgnoreCase(gs[k].name, name)
  {
    var gs := d.groupList.value;
    var existing := FirstNamed(gs, name);
    if existing.Some? {
      var m :| 0 <= m < |gs| && gs[m] == existing.value && EqualsIgnoreCase(existing.value.name, name)
        && forall j | 0 <= j < m :: !EqualsIgnoreCase(gs[j].name, name);
      assert Constructed(gs[m]);
      assert CreateIfMissingOutcome(d, answer, name).sent == [];
      assert CreateGroupOutcome(answer, name).sent != [];
    }
  }

  /** Keycloak names a group's id "id", not "groupId", so every record the
      deserializer builds from its payload carries `Guid.Empty`: a listed
      match then reuses the text of the empty Guid. */
  lemma PayloadMatchReusesEmptyGuid(d: Snapshot, answer: Request -> Reply, name: string)
    requires d.groupList.Ok?
    requires forall k | 0 <= k < |d.groupList.value| :: d.groupList.value[k].groupId == Some(EmptyGuid)
    requires exists k | 0 <= k < |d.groupList.value| :: EqualsIgnoreCase(d.groupList.value[k].name, name)
    ensures CreateIfMissingOutcome(d, answer, name) == Outcome(Ok(EmptyGuid.text), [])
  {
    var gs := d.groupList.value;
    var r := FirstNamed(gs, name);
    var m :| 0 <= m < |gs| && gs[m] == r.value && EqualsIgnoreCase(r.value.name, name)
      && forall j | 0 <= j < m :: !EqualsIgnoreCase(gs[j].name, name);
    assert r.value.groupId == Some(EmptyGuid);
  }

  /** Only the first match is looked at: its id wins over a later match's. */
  lemma FirstMatchWins(d: Snapshot, answer: Request -> Reply, a: Guid, b: Guid)
    requires d.groupList == Ok([GroupRepresentation("Sales", Some(a), Some(EmptyGuid)), GroupRepresentation("sales", Some(b), Some(EmptyGuid))])
    ensures CreateIfMissingOutcome(d, answer, "sales") == Outcome(Ok(a.text), [])
  {
    assert EqualsIgnoreCase("Sales", "sales") by {
      assert Fold("Sales") == "sales";
    }
  }

  /** A failed group list aborts before any write. */
  lemma FailedListWritesNothing(d: Snapshot, answer: Request -> Reply, name: string)
    requires d.groupList.Err?
    ensures CreateIfMissingOutcome(d, answer, name) == Outcome(Err(d.groupList.fault), [])
  {
  }

  // ------------------------------------------------------- update, delete

  /** UpdateGroupAsync sends one PUT, and reports whether the group exists only
      when that PUT succeeded; a null id is sent as "" and checked as
      Guid.Empty. */
  lemma UpdateGroupSpec(d: Snapshot, answer: Request -> Reply, group: GroupRepresentation)
    ensures var o := UpdateGroupOutcome(d, answer, group);
      var req := PutGroup(GuidText(group.groupId), group.name);
      && o.sent == [req]
      && (!IsSuccess(answer(req).status) ==> o.result == Err(HttpStatus(answer(req).status)))
      && (IsSuccess(answer(req).status) && group.groupId.Some? ==> o.result == Ok(GroupExists(d, group.groupId.value)))
      && (IsSuccess(answer(req).status) && group.groupId.None? ==> o.result == Ok(GroupExists(d, EmptyGuid)))
  {
  }

  /** A group whose name is its own id text counts as existing even when the
      direct lookup fails. */
  lemma NameEqualToIdCountsAsExisting(d: Snapshot, groupId: Guid, k: nat)
    requires !DetailsFound(d, groupId.text) && d.groupList.Ok? && k < |d.groupList.value|
    requires EqualsIgnoreCase(d.groupList.value[k].name, groupId.text)
    ensures GroupExists(d, groupId)
  {
  }
}
