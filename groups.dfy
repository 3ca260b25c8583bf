/** User groups: name-or-id resolution within a domain, the loaders, the
    legacy resource fields, and the create / modify / delete mutations over
    the `groups` table and the `(user_id, group_id)` membership table.

    The database is the class `GroupDb`: the two tables it changes and the
    key sets of the tables their foreign keys point to. A row insert or
    update is refused with an integrity error exactly when the resulting
    tables break a key, unique or foreign-key constraint; the transaction
    then rolls back. */
module Groups {
  import opened Common
  import opened Slug
  import opened OrderedDict
  import opened ResourcePolicy

  datatype GroupRow = GroupRow(
    id: string, name: string, description: Option<string>, isActive: bool,
    integrationId: Option<string>, domainName: string, resourcePolicy: Option<string>)

  datatype Membership = Membership(userId: string, groupId: string)

  /** What `resolve_group_name_or_id` may be handed. */
  datatype GroupRef = NameRef(name: string) | UuidRef(id: string) | OtherRef

  /** `SELECT id ... WHERE name = n AND domain_name = d` as a scalar. */
  function IdByName(groups: seq<GroupRow>, name: string, domainName: string): (r: Option<string>)
    ensures r.Some? ==> exists i :: 0 <= i < |groups| && groups[i].id == r.value && groups[i].name == name && groups[i].domainName == domainName
    ensures r.None? ==> forall i :: 0 <= i < |groups| ==> !(groups[i].name == name && groups[i].domainName == domainName)
  {
    if groups == [] then None
    else if groups[0].name == name && groups[0].domainName == domainName then Some(groups[0].id)
    else
      var r := IdByName(groups[1..], name, domainName);
      assert forall i :: 1 <= i < |groups| ==> groups[i] == groups[1..][i - 1];
      r
  }

  /** `SELECT id ... WHERE id = x AND domain_name = d` as a scalar. */
  function IdById(groups: seq<GroupRow>, id: string, domainName: string): (r: Option<string>)
    ensures r.Some? ==> r.value == id && exists i :: 0 <= i < |groups| && groups[i].id == id && groups[i].domainName == domainName
    ensures r.None? ==> forall i :: 0 <= i < |groups| ==> !(groups[i].id == id && groups[i].domainName == domainName)
  {
    if groups == [] then None
    else if groups[0].id == id && groups[0].domainName == domainName then Some(groups[0].id)
    else
      var r := IdById(groups[1..], id, domainName);
      assert forall i :: 1 <= i < |groups| ==> groups[i] == groups[1..][i - 1];
      r
  }

  /** `resolve_group_name_or_id`: a string is looked up by name and a UUID by
      id, both within the domain; anything else is a TypeError. */
  function ResolveGroupNameOrId(groups: seq<GroupRow>, domainName: string, value: GroupRef): (r: Result<Option<string>, string>)
    ensures r.Err? <==> value.OtherRef?
  {
    match value
    case NameRef(n) => Ok(IdByName(groups, n, domainName))
    case UuidRef(id) => Ok(IdById(groups, id, domainName))
    case OtherRef => Err("TypeError")
  }

  /** A name resolved to an id resolves back to that id by UUID; a group of
      another domain is never found. */
  lemma ResolveByNameThenById(groups: seq<GroupRow>, domainName: string, name: string)
    requires ResolveGroupNameOrId(groups, domainName, NameRef(name)).value.Some?
    ensures var id := ResolveGroupNameOrId(groups, domainName, NameRef(name)).value.value;
      ResolveGroupNameOrId(groups, domainName, UuidRef(id)) == Ok(Some(id))
  {
  }

  lemma ResolveStaysInDomain(groups: seq<GroupRow>, domainName: string, value: GroupRef)
    requires forall i :: 0 <= i < |groups| ==> groups[i].domainName != domainName
    ensures value.NameRef? || value.UuidRef? ==> ResolveGroupNameOrId(groups, domainName, value) == Ok(None)
  {
  }

  // ---------------------------------------------------------------------
  // Loaders

  predicate Passes(g: GroupRow, domainName: Option<string>, isActive: Option<bool>)
  {
    (domainName.None? || g.domainName == domainName.value) && (isActive.None? || g.isActive == isActive.value)
  }

  /** The rows the `load_all` query returns, in table order. */
  function Filtered(groups: seq<GroupRow>, domainName: Option<string>, isActive: Option<bool>): seq<GroupRow>
  {
    if groups == [] then []
    else
      var n := |groups| - 1;
      Filtered(groups[..n], domainName, isActive) + (if Passes(groups[n], domainName, isActive) then [groups[n]] else [])
  }

  lemma {:induction false} FilteredMembers(groups: seq<GroupRow>, domainName: Option<string>, isActive: Option<bool>)
    ensures forall g :: g in Filtered(groups, domainName, isActive) <==> g in groups && Passes(g, domainName, isActive)
  {
    if groups != [] {
      var n := |groups| - 1;
      FilteredMembers(groups[..n], domainName, isActive);
      assert groups == groups[..n] + [groups[n]];
    }
  }

  /** `Group.load_all`: the domain and active filters apply only when given. */
  method LoadAll(groups: seq<GroupRow>, domainName: Option<string>, isActive: Option<bool>) returns (objs: seq<GroupRow>)
    ensures objs == Filtered(groups, domainName, isActive)
    ensures forall g :: g in objs <==> g in groups && Passes(g, domainName, isActive)
  {
    objs := [];
    var i := 0;
    while i < |groups|
      invariant 0 <= i <= |groups|
      invariant objs == Filtered(groups[..i], domainName, isActive)
    {
      assert groups[..i + 1][..i] == groups[..i];
      if Passes(groups[i], domainName, isActive) {
        objs := objs + [groups[i]];
      }
      i := i + 1;
    }
    assert groups[..i] == groups;
    FilteredMembers(groups, domainName, isActive);
  }

  function GroupKey(g: GroupRow): string { g.id }

  /** `Group.batch_load_by_id`: one slot per requested id, None where no group
      with that id (in the domain, if given) exists. Ids are the canonical
      strings that `str(row.id)` produces. */
  method BatchLoadById(groups: seq<GroupRow>, ids: seq<string>, domainName: Option<string>)
    returns (r: seq<Option<GroupRow>>)
    ensures |r| == |Dedup(ids)|
    ensures forall i :: 0 <= i < |r| ==>
      (r[i].Some? ==> r[i].value in groups && r[i].value.id == Dedup(ids)[i] && Passes(r[i].value, domainName, None)) &&
      (r[i].None? ==> forall g :: g in groups && Passes(g, domainName, None) ==> g.id != Dedup(ids)[i])
  {
    var selected := (g: GroupRow) => g.id in ids && Passes(g, domainName, None);
    r := Collect(ids, groups, GroupKey, selected);
    BatchShape(ids, groups, GroupKey, selected);
  }

  /** With distinct requested ids the result lines up with the request. */
  lemma BatchLoadByIdInRequestOrder(groups: seq<GroupRow>, ids: seq<string>, domainName: Option<string>)
    requires Distinct(ids)
    ensures var selected := (g: GroupRow) => g.id in ids && Passes(g, domainName, None);
      var r := Collected(ids, groups, GroupKey, selected);
      |r| == |ids| && forall i :: 0 <= i < |r| ==> r[i] == LastWith(groups, GroupKey, selected, ids[i])
  {
    var selected := (g: GroupRow) => g.id in ids && Passes(g, domainName, None);
    BatchShapeDistinct(ids, groups, GroupKey, selected);
  }

  // ---------------------------------------------------------------------
  // Legacy resource fields, answered from the group's policy

  function TotalResourceSlots(g: GroupRow, table: seq<KeyPairResourcePolicy>): Result<LegacyValue, string>
  {
    ResolveLegacy(g.resourcePolicy, table, SlotsField, Names([]), Slots(map[]))
  }

  function AllowedVfolderHosts(g: GroupRow, table: seq<KeyPairResourcePolicy>): Result<LegacyValue, string>
  {
    ResolveLegacy(g.resourcePolicy, table, HostsField, Names([]), Names([]))
  }

  function AllowedDockerRegistries(g: GroupRow, table: seq<KeyPairResourcePolicy>): Result<LegacyValue, string>
  {
    ResolveLegacy(g.resourcePolicy, table, RegistriesField, Names([]), Names([]))
  }

  /** Without a policy all three legacy fields are the empty list (slots
      included); with an existing policy they are that policy's fields. */
  lemma GroupLegacyFields(g: GroupRow, table: seq<KeyPairResourcePolicy>)
    ensures g.resourcePolicy.None? ==>
      TotalResourceSlots(g, table) == Ok(Names([])) && AllowedVfolderHosts(g, table) == Ok(Names([])) &&
      AllowedDockerRegistries(g, table) == Ok(Names([]))
    ensures g.resourcePolicy.Some? && FindPolicy(table, g.resourcePolicy.value).Some? ==>
      var p := FindPolicy(table, g.resourcePolicy.value).value;
      TotalResourceSlots(g, table) == Ok(Slots(p.totalResourceSlots)) &&
      AllowedVfolderHosts(g, table) == Ok(Names(p.allowedVfolderHosts)) &&
      AllowedDockerRegistries(g, table) == Ok(Names(p.allowedDockerRegistries))
  {
    ResolveLegacyCases(g.resourcePolicy, table, SlotsField, Names([]), Slots(map[]));
    ResolveLegacyCases(g.resourcePolicy, table, HostsField, Names([]), Names([]));
    ResolveLegacyCases(g.resourcePolicy, table, RegistriesField, Names([]), Names([]));
  }

  // ---------------------------------------------------------------------
  // Constraints

  predicate UniqueIds(groups: seq<GroupRow>)
  {
    forall i, j :: 0 <= i < j < |groups| ==> groups[i].id != groups[j].id
  }

  /** `uq_groups_name_domain_name` */
  predicate UniqueNameInDomain(groups: seq<GroupRow>)
  {
    forall i, j :: 0 <= i < j < |groups| ==> !(groups[i].name == groups[j].name && groups[i].domainName == groups[j].domainName)
  }

  predicate ForeignKeysHold(groups: seq<GroupRow>, domainNames: set<string>, policyNames: set<string>)
  {
    forall i :: 0 <= i < |groups| ==>
      groups[i].domainName in domainNames &&
      (groups[i].resourcePolicy.None? || groups[i].resourcePolicy.value in policyNames)
  }

  predicate GroupConstraints(groups: seq<GroupRow>, domainNames: set<string>, policyNames: set<string>)
  {
    UniqueIds(groups) && UniqueNameInDomain(groups) && ForeignKeysHold(groups, domainNames, policyNames)
  }

  /** A second group with the same name in the same domain, or with an id
      already in use, is refused. */
  lemma DuplicateGroupRefused(groups: seq<GroupRow>, row: GroupRow, domainNames: set<string>, policyNames: set<string>)
    requires exists i :: 0 <= i < |groups| && ((groups[i].name == row.name && groups[i].domainName == row.domainName) || groups[i].id == row.id)
    ensures !GroupConstraints(groups + [row], domainNames, policyNames)
  {
    var i :| 0 <= i < |groups| && ((groups[i].name == row.name && groups[i].domainName == row.domainName) || groups[i].id == row.id);
    assert (groups + [row])[i] == groups[i] && (groups + [row])[|groups|] == row;
  }

  function GroupIds(groups: seq<GroupRow>): set<string>
  {
    set g | g in groups :: g.id
  }

  predicate MembershipConstraints(members: set<Membership>, userIds: set<string>, groups: seq<GroupRow>)
  {
    forall m :: m in members ==> m.userId in userIds && m.groupId in GroupIds(groups)
  }

  // ---------------------------------------------------------------------
  // Patches and membership updates

  /** `GroupInput` of `CreateGroup`. */
  datatype GroupInput = GroupInput(
    description: Option<string>, isActive: bool, domainName: string,
    resourcePolicy: Option<string>, integrationId: Option<string>)

  /** `ModifyGroupInput`; `allowedVfolderHosts` is accepted but never read.
      `userUpdateMode` is the `user_update_mode` that the mutation reads but
      the source's input type does not declare: `ModifyGroup` below assumes
      the declaration, `ModifyGroupAsWritten` follows the source as written. */
  datatype ModifyGroupInput = ModifyGroupInput(
    name: Option<string>, description: Option<string>, isActive: Option<bool>,
    domainName: Option<string>, resourcePolicy: Option<string>,
    userUuids: Option<seq<string>>, allowedVfolderHosts: Option<seq<string>>,
    integrationId: Option<string>, userUpdateMode: Option<string>)

  /** The `data` dict that `set_if_set` builds: a field is present iff the
      input carries a value for it. */
  predicate PatchEmpty(p: ModifyGroupInput)
  {
    p.name.None? && p.description.None? && p.isActive.None? && p.domainName.None? &&
    p.resourcePolicy.None? && p.integrationId.None?
  }

  function Patched(g: GroupRow, p: ModifyGroupInput): GroupRow
  {
    g.(name := if p.name.Some? then p.name.value else g.name,
       description := if p.description.Some? then p.description else g.description,
       isActive := if p.isActive.Some? then p.isActive.value else g.isActive,
       domainName := if p.domainName.Some? then p.domainName.value else g.domainName,
       resourcePolicy := if p.resourcePolicy.Some? then p.resourcePolicy else g.resourcePolicy,
       integrationId := if p.integrationId.Some? then p.integrationId else g.integrationId)
  }

  /** Fields the patch carries take its values, the others and the id keep
      theirs; an empty patch changes nothing; patching twice is patching once. */
  lemma PatchedFieldwise(g: GroupRow, p: ModifyGroupInput)
    ensures Patched(g, p).id == g.id
    ensures p.name.Some? ==> Patched(g, p).name == p.name.value
    ensures p.name.None? ==> Patched(g, p).name == g.name
    ensures p.domainName.Some? ==> Patched(g, p).domainName == p.domainName.value
    ensures p.domainName.None? ==> Patched(g, p).domainName == g.domainName
    ensures p.resourcePolicy.None? ==> Patched(g, p).resourcePolicy == g.resourcePolicy
    ensures PatchEmpty(p) ==> Patched(g, p) == g
    ensures Patched(Patched(g, p), p) == Patched(g, p)
  {
  }

  /** `UPDATE groups SET data WHERE id = gid` */
  function UpdateWhereId(groups: seq<GroupRow>, gid: string, p: ModifyGroupInput): seq<GroupRow>
  {
    seq(|groups|, i requires 0 <= i < |groups| => if groups[i].id == gid then Patched(groups[i], p) else groups[i])
  }

  /** The soft delete `UPDATE groups SET is_active = false, integration_id = NULL WHERE id = gid`. */
  function SoftDeleteWhereId(groups: seq<GroupRow>, gid: string): seq<GroupRow>
  {
    seq(|groups|, i requires 0 <= i < |groups| =>
      if groups[i].id == gid then groups[i].(isActive := false, integrationId := None) else groups[i])
  }

  function FirstById(groups: seq<GroupRow>, gid: string): (r: Option<GroupRow>)
    ensures r.Some? ==> r.value in groups && r.value.id == gid
    ensures r.None? <==> forall i :: 0 <= i < |groups| ==> groups[i].id != gid
  {
    if groups == [] then None
    else if groups[0].id == gid then Some(groups[0])
    else
      assert forall i :: 1 <= i < |groups| ==> groups[i] == groups[1..][i - 1];
      FirstById(groups[1..], gid)
  }

  /** The soft delete keeps every row, deactivates exactly the rows of that
      id, and is idempotent. */
  lemma SoftDeleteKeepsRows(groups: seq<GroupRow>, gid: string)
    ensures var r := SoftDeleteWhereId(groups, gid);
      && GroupIds(r) == GroupIds(groups)
      && (forall i :: 0 <= i < |r| ==> r[i].id == groups[i].id && r[i].name == groups[i].name && r[i].domainName == groups[i].domainName)
      && (forall i :: 0 <= i < |r| && r[i].id == gid ==> !r[i].isActive && r[i].integrationId.None?)
      && SoftDeleteWhereId(r, gid) == r
  {
    var r := SoftDeleteWhereId(groups, gid);
    assert forall g :: g in r ==> exists i :: 0 <= i < |r| && r[i] == g;
    assert forall g :: g in groups ==> exists i :: 0 <= i < |groups| && groups[i] == g;
    assert GroupIds(r) == GroupIds(groups) by {
      forall x | x in GroupIds(r) ensures x in GroupIds(groups) {
        var g :| g in r && g.id == x;
        var i :| 0 <= i < |r| && r[i] == g;
        assert groups[i] in groups;
      }
      forall x | x in GroupIds(groups) ensures x in GroupIds(r) {
        var g :| g in groups && g.id == x;
        var i :| 0 <= i < |groups| && groups[i] == g;
        assert r[i] in r;
      }
    }
  }

  /** The rows `add` inserts. */
  function PairsFor(uuids: seq<string>, gid: string): set<Membership>
  {
    set u | u in uuids :: Membership(u, gid)
  }

  /** The insert of the `add` pairs fails when a pair exists already, when the
      list names a user twice, or when a user or the group does not exist. */
  predicate AddViolates(members: set<Membership>, uuids: seq<string>, gid: string, userIds: set<string>, groups: seq<GroupRow>)
  {
    !Distinct(uuids) || gid !in GroupIds(groups) ||
    exists i :: 0 <= i < |uuids| && (Membership(uuids[i], gid) in members || uuids[i] !in userIds)
  }

  function AddPairs(members: set<Membership>, uuids: seq<string>, gid: string): set<Membership>
  {
    members + PairsFor(uuids, gid)
  }

  /** The `remove` delete: pairs of a listed user with this group. */
  function RemovePairs(members: set<Membership>, uuids: seq<string>, gid: string): set<Membership>
  {
    set m | m in members && !(m.userId in uuids && m.groupId == gid)
  }

  /** `add` inserts one pair per listed user and nothing else; `remove`
      deletes exactly the listed users' pairs with this group and keeps every
      other pair. */
  lemma MembershipUpdates(members: set<Membership>, uuids: seq<string>, gid: string)
    ensures forall m :: m in AddPairs(members, uuids, gid) <==> m in members || (m.groupId == gid && m.userId in uuids)
    ensures forall m :: m in RemovePairs(members, uuids, gid) <==> m in members && !(m.groupId == gid && m.userId in uuids)
  {
    forall m: Membership | m.groupId == gid && m.userId in uuids ensures m in PairsFor(uuids, gid) {
      assert m == Membership(m.userId, gid);
    }
  }

  /** Removing what an accepted `add` inserted restores the membership table. */
  lemma AddThenRemoveRestores(members: set<Membership>, uuids: seq<string>, gid: string, userIds: set<string>, groups: seq<GroupRow>)
    requires !AddViolates(members, uuids, gid, userIds, groups)
    ensures RemovePairs(AddPairs(members, uuids, gid), uuids, gid) == members
  {
    MembershipUpdates(members, uuids, gid);
    MembershipUpdates(AddPairs(members, uuids, gid), uuids, gid);
    assert forall i :: 0 <= i < |uuids| ==> Membership(uuids[i], gid) !in members;
    assert forall m :: m in members ==> m == Membership(m.userId, m.groupId);
  }

  /** An accepted `add` keeps the membership table's foreign keys. */
  lemma AddKeepsMembershipConstraints(members: set<Membership>, uuids: seq<string>, gid: string, userIds: set<string>, groups: seq<GroupRow>)
    requires MembershipConstraints(members, userIds, groups)
    requires !AddViolates(members, uuids, gid, userIds, groups)
    ensures MembershipConstraints(AddPairs(members, uuids, gid), userIds, groups)
  {
    MembershipUpdates(members, uuids, gid);
    forall m | m in AddPairs(members, uuids, gid) ensures m.userId in userIds && m.groupId in GroupIds(groups) {
      if m !in members {
        var i :| 0 <= i < |uuids| && uuids[i] == m.userId;
      }
    }
  }

  // ---------------------------------------------------------------------
  // Mutations

  datatype MutationMsg = Success | NothingToUpdate | NoSuchGroup | IntegrityError

  datatype GroupMutation = GroupMutation(ok: bool, msg: MutationMsg, group: Option<GroupRow>)

  const SlugAssertion := "invalid name format. slug format required."
  const ModeAssertion := "invalid user_update_mode"

  /** The update mode after `if not props.user_uuids: mode = None`. */
  function EffectiveMode(props: ModifyGroupInput): Option<string>
  {
    if props.userUuids.None? || props.userUuids.value == [] then None else props.userUpdateMode
  }

  const AttributeError := "AttributeError"

  /** The attributes a `ModifyGroupInput` object carries: exactly the fields
      its class declares. */
  const ModifyGroupInputFields: set<string> :=
    {"name", "description", "is_active", "domain_name", "resource_policy",
     "user_uuids", "allowed_vfolder_hosts", "integration_id"}

  /** Reading an attribute of an input object. */
  function InputAttribute(declared: set<string>, attr: string): (r: Result<(), string>)
    ensures r.Ok? <==> attr in declared
    ensures r.Err? ==> r.error == AttributeError
  {
    if attr in declared then Ok(()) else Err(AttributeError)
  }

  /** Every attribute the mutation copies into `data` or reads as the user
      list is declared; the update mode is not. */
  lemma UserUpdateModeUndeclared()
    ensures InputAttribute(ModifyGroupInputFields, "user_update_mode") == Err(AttributeError)
    ensures forall a :: a in {"name", "description", "is_active", "domain_name", "resource_policy", "integration_id", "user_uuids"} ==>
      InputAttribute(ModifyGroupInputFields, a).Ok?
  {
  }

  /** `ModifyGroup.mutate` as written: after the slug assertion the read of
      `props.user_update_mode` raises AttributeError, before any statement
      touches a table, so every call that passes the slug check fails and the
      transaction rolls back. */
  function ModifyGroupAsWritten(props: ModifyGroupInput): (r: Result<GroupMutation, string>)
    ensures r.Err?
    ensures props.name.Some? && !SearchSlug(props.name.value) <==> r == Err(SlugAssertion)
    ensures (props.name.None? || SearchSlug(props.name.value)) <==> r == Err(AttributeError)
  {
    if props.name.Some? && !SearchSlug(props.name.value) then Err(SlugAssertion)
    else
      var mode := InputAttribute(ModifyGroupInputFields, "user_update_mode");
      assert mode.Err?;
      Err(mode.error)
  }

  /** So even a plain rename with a valid slug, which the corrected mutation
      carries out, fails as written. */
  lemma RenameFailsAsWritten()
    ensures ModifyGroupAsWritten(ModifyGroupInput(Some("team"), None, None, None, None, None, None, None, None))
            == Err(AttributeError)
  {
    ShapeIsAccepted("team");
  }

  class GroupDb {
    var groups: seq<GroupRow>
    var members: set<Membership>
    /** Keys of the tables the foreign keys point to. */
    const domainNames: set<string>
    const policyNames: set<string>
    const userIds: set<string>

    ghost predicate Valid()
      reads this
    {
      GroupConstraints(groups, domainNames, policyNames) && MembershipConstraints(members, userIds, groups)
    }

    constructor (domains: set<string>, policies: set<string>, users: set<string>)
      ensures groups == [] && members == {}
      ensures domainNames == domains && policyNames == policies && userIds == users
      ensures Valid()
    {
      groups, members := [], {};
      domainNames, policyNames, userIds := domains, policies, users;
    }

    /** `CreateGroup.mutate`; `newId` stands for the generated UUID. A
        non-slug name fails the assertion, which is not caught. */
    method CreateGroup(name: string, props: GroupInput, newId: string) returns (r: Result<GroupMutation, string>)
      requires Valid()
      modifies this`groups
      ensures Valid()
      ensures var row := GroupRow(newId, name, props.description, props.isActive, props.integrationId,
                                  props.domainName, props.resourcePolicy);
        if !SearchSlug(name) then r == Err(SlugAssertion) && groups == old(groups)
        else if !GroupConstraints(old(groups) + [row], domainNames, policyNames) then
          r == Ok(GroupMutation(false, IntegrityError, None)) && groups == old(groups)
        else r == Ok(GroupMutation(true, Success, Some(row))) && groups == old(groups) + [row]
    {
      if !SearchSlug(name) {
        return Err(SlugAssertion);
      }
      var row := GroupRow(newId, name, props.description, props.isActive, props.integrationId,
                          props.domainName, props.resourcePolicy);
      var inserted := groups + [row];
      if !GroupConstraints(inserted, domainNames, policyNames) {
        return Ok(GroupMutation(false, IntegrityError, None));
      }
      MembershipConstraintsGrow(members, userIds, groups, row);
      groups := inserted;
      // the re-read by (name, domain) finds the new row, the only one with that pair
      var found := ByNameInDomain(groups, name, props.domainName);
      assert groups[|groups| - 1] == row;
      return Ok(GroupMutation(true, Success, found));
    }

    /** `ModifyGroup.mutate`. Membership changes come first, then the row
        update; an integrity error anywhere rolls both back. A missing row
        with a non-empty patch reports 'no such group' and keeps the
        membership change. */
    method ModifyGroup(gid: string, props: ModifyGroupInput) returns (r: Result<GroupMutation, string>)
      requires Valid()
      modifies this`groups, this`members
      ensures Valid()
      ensures props.name.Some? && !SearchSlug(props.name.value) ==>
        r == Err(SlugAssertion) && groups == old(groups) && members == old(members)
      ensures (props.name.None? || SearchSlug(props.name.value)) &&
              props.userUpdateMode !in {None, Some("add"), Some("remove")} ==>
        r == Err(ModeAssertion) && groups == old(groups) && members == old(members)
      ensures (props.name.None? || SearchSlug(props.name.value)) &&
              props.userUpdateMode in {None, Some("add"), Some("remove")} ==>
        var mode := EffectiveMode(props);
        var members1 :=
          if mode == Some("add") then AddPairs(old(members), props.userUuids.value, gid)
          else if mode == Some("remove") then RemovePairs(old(members), props.userUuids.value, gid)
          else old(members);
        var post := UpdateWhereId(old(groups), gid, props);
        if PatchEmpty(props) && mode.None? then
          r == Ok(GroupMutation(false, NothingToUpdate, None)) && groups == old(groups) && members == old(members)
        else if mode == Some("add") && AddViolates(old(members), props.userUuids.value, gid, userIds, old(groups)) then
          r == Ok(GroupMutation(false, IntegrityError, None)) && groups == old(groups) && members == old(members)
        else if PatchEmpty(props) then
          r == Ok(GroupMutation(true, Success, None)) && groups == old(groups) && members == members1
        else if !GroupConstraints(post, domainNames, policyNames) then
          r == Ok(GroupMutation(false, IntegrityError, None)) && groups == old(groups) && members == old(members)
        else if FirstById(old(groups), gid).None? then
          r == Ok(GroupMutation(false, NoSuchGroup, None)) && groups == old(groups) && members == members1
        else
          r == Ok(GroupMutation(true, Success, FirstById(post, gid))) && groups == post && members == members1
    {
      if props.name.Some? && !SearchSlug(props.name.value) {
        return Err(SlugAssertion);
      }
      if props.userUpdateMode !in {None, Some("add"), Some("remove")} {
        return Err(ModeAssertion);
      }
      var mode := EffectiveMode(props);
      if PatchEmpty(props) && mode.None? {
        return Ok(GroupMutation(false, NothingToUpdate, None));
      }
      var savedMembers := members;
      if mode == Some("add") {
        var uuids := props.userUuids.value;
        if AddViolates(members, uuids, gid, userIds, groups) {
          return Ok(GroupMutation(false, IntegrityError, None));
        }
        AddKeepsMembershipConstraints(members, uuids, gid, userIds, groups);
        members := AddPairs(members, uuids, gid);
      } else if mode == Some("remove") {
        members := RemovePairs(members, props.userUuids.value, gid);
      }
      if PatchEmpty(props) {
        return Ok(GroupMutation(true, Success, None));
      }
      var post := UpdateWhereId(groups, gid, props);
      if !GroupConstraints(post, domainNames, policyNames) {
        members := savedMembers;
        return Ok(GroupMutation(false, IntegrityError, None));
      }
      if FirstById(groups, gid).None? {
        return Ok(GroupMutation(false, NoSuchGroup, None));
      }
      UpdateKeepsGroupIds(groups, gid, props);
      groups := post;
      return Ok(GroupMutation(true, Success, FirstById(groups, gid)));
    }

    /** `DeleteGroup.mutate`: a soft delete. */
    method DeleteGroup(gid: string) returns (r: GroupMutation)
      requires Valid()
      modifies this`groups
      ensures Valid()
      ensures groups == SoftDeleteWhereId(old(groups), gid)
      ensures r == if FirstById(old(groups), gid).Some? then GroupMutation(true, Success, None)
                   else GroupMutation(false, NoSuchGroup, None)
    {
      var rowcount := if FirstById(groups, gid).Some? then 1 else 0;
      SoftDeleteKeepsRows(groups, gid);
      SoftDeleteKeepsConstraints(groups, gid, domainNames, policyNames);
      groups := SoftDeleteWhereId(groups, gid);
      if rowcount > 0 {
        return GroupMutation(true, Success, None);
      }
      return GroupMutation(false, NoSuchGroup, None);
    }
  }

  /** The row a `(name, domain)` lookup finds. */
  function ByNameInDomain(groups: seq<GroupRow>, name: string, domainName: string): (r: Option<GroupRow>)
    ensures r.Some? ==> r.value in groups && r.value.name == name && r.value.domainName == domainName
    ensures (UniqueNameInDomain(groups) && |groups| > 0 && groups[|groups| - 1].name == name &&
             groups[|groups| - 1].domainName == domainName) ==> r == Some(groups[|groups| - 1])
  {
    if groups == [] then None
    else if groups[0].name == name && groups[0].domainName == domainName then Some(groups[0])
    else
      assert forall i, j :: 0 <= i < j < |groups[1..]| ==> groups[1..][i] == groups[i + 1] && groups[1..][j] == groups[j + 1];
      ByNameInDomain(groups[1..], name, domainName)
  }

  lemma MembershipConstraintsGrow(members: set<Membership>, userIds: set<string>, groups: seq<GroupRow>, row: GroupRow)
    requires MembershipConstraints(members, userIds, groups)
    ensures MembershipConstraints(members, userIds, groups + [row])
  {
    forall m | m in members ensures m.groupId in GroupIds(groups + [row]) {
      var g :| g in groups && g.id == m.groupId;
      assert g in groups + [row];
    }
  }

  lemma UpdateKeepsGroupIds(groups: seq<GroupRow>, gid: string, p: ModifyGroupInput)
    ensures GroupIds(UpdateWhereId(groups, gid, p)) == GroupIds(groups)
  {
    var r := UpdateWhereId(groups, gid, p);
    forall x | x in GroupIds(r) ensures x in GroupIds(groups) {
      var g :| g in r && g.id == x;
      var i :| 0 <= i < |r| && r[i] == g;
      assert groups[i] in groups;
    }
    forall x | x in GroupIds(groups) ensures x in GroupIds(r) {
      var g :| g in groups && g.id == x;
      var i :| 0 <= i < |groups| && groups[i] == g;
      assert r[i] in r;
    }
  }

  lemma SoftDeleteKeepsConstraints(groups: seq<GroupRow>, gid: string, domainNames: set<string>, policyNames: set<string>)
    requires GroupConstraints(groups, domainNames, policyNames)
    ensures GroupConstraints(SoftDeleteWhereId(groups, gid), domainNames, policyNames)
  {
  }
}
