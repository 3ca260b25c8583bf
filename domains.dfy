/** Domains: the loaders, the legacy resource fields, and the create /
    modify / delete mutations over the `domains` table, whose primary key is
    the name. The mutations report what the shared mutation helpers report:
    success with the re-read row, 'no matching record' when the statement
    touched no row, or an integrity error, after which nothing changes. */
module Domains {
  import opened Common
  import opened Slug
  import opened OrderedDict
  import opened ResourcePolicy
  import Groups

  datatype DomainRow = DomainRow(
    name: string, description: Option<string>, isActive: bool,
    resourcePolicy: Option<string>, integrationId: Option<string>)

  function DomainName(d: DomainRow): string { d.name }

  /** `SELECT ... WHERE name = n` followed by `first()`. */
  function FindDomain(domains: seq<DomainRow>, name: string): (r: Option<DomainRow>)
    ensures r.Some? ==> r.value in domains && r.value.name == name
    ensures r.None? <==> forall i :: 0 <= i < |domains| ==> domains[i].name != name
  {
    if domains == [] then None
    else if domains[0].name == name then Some(domains[0])
    else
      assert forall i :: 1 <= i < |domains| ==> domains[i] == domains[1..][i - 1];
      FindDomain(domains[1..], name)
  }

  // ---------------------------------------------------------------------
  // Loaders

  predicate ActiveFilter(d: DomainRow, isActive: Option<bool>)
  {
    isActive.None? || d.isActive == isActive.value
  }

  /** `Domain.load_all`: the rows are collected in a dictionary keyed by
      name, one object per distinct name, each from a row that passes the
      filter. */
  method LoadAll(domains: seq<DomainRow>, isActive: Option<bool>) returns (objs: seq<DomainRow>)
    ensures var ks := Dedup(KeysOf(domains, DomainName, d => ActiveFilter(d, isActive)));
      |objs| == |ks| &&
      forall i :: 0 <= i < |objs| ==> objs[i].name == ks[i] && objs[i] in domains && ActiveFilter(objs[i], isActive)
  {
    var selected := (d: DomainRow) => ActiveFilter(d, isActive);
    var values := Collect([], domains, DomainName, selected);
    RowsOnlyShape(domains, DomainName, selected);
    objs := [];
    var i := 0;
    while i < |values|
      invariant 0 <= i <= |values|
      invariant |objs| == i
      invariant forall j :: 0 <= j < i ==> Some(objs[j]) == values[j]
    {
      objs := objs + [values[i].value];
      i := i + 1;
    }
  }

  /** In a table whose names are unique no key is listed twice, whatever
      the filter, so `load_all` returns one object per passing row. */
  lemma {:induction false} UniqueNamesListedOnce(domains: seq<DomainRow>, selected: DomainRow -> bool)
    requires UniqueNames(domains)
    ensures Distinct(KeysOf(domains, DomainName, selected))
  {
    if domains != [] {
      var n := |domains| - 1;
      var p := domains[..n];
      assert forall i :: 0 <= i < n ==> p[i] == domains[i];
      UniqueNamesListedOnce(p, selected);
      KeysOfMembers(p, DomainName, selected);
      assert forall d :: d in p ==> d.name != domains[n].name;
      var ks := KeysOf(p, DomainName, selected);
      assert domains[..n] == p;
      if selected(domains[n]) {
        assert domains[n].name !in ks;
        assert KeysOf(domains, DomainName, selected) == ks + [domains[n].name];
      } else {
        assert KeysOf(domains, DomainName, selected) == ks;
      }
    }
  }

  /** `Domain.batch_load_by_name`: one slot per distinct requested name, in
      request order, None where no domain has that name. */
  method BatchLoadByName(domains: seq<DomainRow>, names: seq<string>) returns (r: seq<Option<DomainRow>>)
    ensures |r| == |Dedup(names)|
    ensures forall i :: 0 <= i < |r| ==>
      (r[i].Some? ==> r[i].value in domains && r[i].value.name == Dedup(names)[i]) &&
      (r[i].None? ==> forall d :: d in domains ==> d.name != Dedup(names)[i])
  {
    var selected := (d: DomainRow) => d.name in names;
    r := Collect(names, domains, DomainName, selected);
    BatchShape(names, domains, DomainName, selected);
  }

  // ---------------------------------------------------------------------
  // Legacy resource fields

  function TotalResourceSlots(d: DomainRow, table: seq<KeyPairResourcePolicy>): Result<LegacyValue, string>
  {
    ResolveLegacy(d.resourcePolicy, table, SlotsField, Slots(map[]), Slots(map[]))
  }

  function AllowedVfolderHosts(d: DomainRow, table: seq<KeyPairResourcePolicy>): Result<LegacyValue, string>
  {
    ResolveLegacy(d.resourcePolicy, table, HostsField, Names([]), Names([]))
  }

  function AllowedDockerRegistries(d: DomainRow, table: seq<KeyPairResourcePolicy>): Result<LegacyValue, string>
  {
    ResolveLegacy(d.resourcePolicy, table, RegistriesField, Names([]), Names([]))
  }

  /** Without a policy: `{}`, `[]`, `[]`; with an existing policy, its fields;
      with a dangling policy name, an AttributeError. */
  lemma DomainLegacyFields(d: DomainRow, table: seq<KeyPairResourcePolicy>)
    ensures d.resourcePolicy.None? ==>
      TotalResourceSlots(d, table) == Ok(Slots(map[])) && AllowedVfolderHosts(d, table) == Ok(Names([])) &&
      AllowedDockerRegistries(d, table) == Ok(Names([]))
    ensures d.resourcePolicy.Some? && FindPolicy(table, d.resourcePolicy.value).Some? ==>
      var p := FindPolicy(table, d.resourcePolicy.value).value;
      TotalResourceSlots(d, table) == Ok(Slots(p.totalResourceSlots)) &&
      AllowedVfolderHosts(d, table) == Ok(Names(p.allowedVfolderHosts)) &&
      AllowedDockerRegistries(d, table) == Ok(Names(p.allowedDockerRegistries))
    ensures d.resourcePolicy.Some? && FindPolicy(table, d.resourcePolicy.value).None? ==>
      TotalResourceSlots(d, table).Err? && AllowedVfolderHosts(d, table).Err? && AllowedDockerRegistries(d, table).Err?
  {
    ResolveLegacyCases(d.resourcePolicy, table, SlotsField, Slots(map[]), Slots(map[]));
    ResolveLegacyCases(d.resourcePolicy, table, HostsField, Names([]), Names([]));
    ResolveLegacyCases(d.resourcePolicy, table, RegistriesField, Names([]), Names([]));
  }

  // ---------------------------------------------------------------------
  // Constraints and row updates

  predicate UniqueNames(domains: seq<DomainRow>)
  {
    forall i, j :: 0 <= i < j < |domains| ==> domains[i].name != domains[j].name
  }

  predicate DomainConstraints(domains: seq<DomainRow>, policyNames: set<string>)
  {
    UniqueNames(domains) &&
    forall i :: 0 <= i < |domains| ==> domains[i].resourcePolicy.None? || domains[i].resourcePolicy.value in policyNames
  }

  /** A name already taken cannot be inserted again. */
  lemma DuplicateNameRefused(domains: seq<DomainRow>, row: DomainRow, policyNames: set<string>)
    requires FindDomain(domains, row.name).Some?
    ensures !DomainConstraints(domains + [row], policyNames)
  {
    var d := FindDomain(domains, row.name).value;
    var i :| 0 <= i < |domains| && domains[i] == d;
    assert (domains + [row])[i].name == (domains + [row])[|domains|].name;
  }

  /** `DomainInput`; `is_active` defaults to true in the schema. */
  datatype DomainInput = DomainInput(
    description: Option<string>, isActive: bool, resourcePolicy: Option<string>, integrationId: Option<string>)

  datatype ModifyDomainInput = ModifyDomainInput(
    name: Option<string>, description: Option<string>, isActive: Option<bool>,
    resourcePolicy: Option<string>, integrationId: Option<string>)

  /** The row after `UPDATE ... SET data`, `data` holding the given fields. */
  function PatchedDomain(d: DomainRow, p: ModifyDomainInput): DomainRow
  {
    d.(name := if p.name.Some? then p.name.value else d.name,
       description := if p.description.Some? then p.description else d.description,
       isActive := if p.isActive.Some? then p.isActive.value else d.isActive,
       resourcePolicy := if p.resourcePolicy.Some? then p.resourcePolicy else d.resourcePolicy,
       integrationId := if p.integrationId.Some? then p.integrationId else d.integrationId)
  }

  /** The name the result is re-read under. */
  function ReReadName(name: string, p: ModifyDomainInput): string
  {
    if p.name.Some? then p.name.value else name
  }

  /** Only the given fields change, and patching twice is patching once. */
  lemma PatchedDomainFieldwise(d: DomainRow, p: ModifyDomainInput)
    ensures PatchedDomain(d, p).name == ReReadName(d.name, p)
    ensures p.description.None? ==> PatchedDomain(d, p).description == d.description
    ensures p.isActive.None? ==> PatchedDomain(d, p).isActive == d.isActive
    ensures p.isActive.Some? ==> PatchedDomain(d, p).isActive == p.isActive.value
    ensures p.resourcePolicy.None? ==> PatchedDomain(d, p).resourcePolicy == d.resourcePolicy
    ensures p.integrationId.None? ==> PatchedDomain(d, p).integrationId == d.integrationId
    ensures p == ModifyDomainInput(None, None, None, None, None) ==> PatchedDomain(d, p) == d
    ensures PatchedDomain(PatchedDomain(d, p), p) == PatchedDomain(d, p)
  {
  }

  function UpdateWhereName(domains: seq<DomainRow>, name: string, p: ModifyDomainInput): seq<DomainRow>
  {
    seq(|domains|, i requires 0 <= i < |domains| => if domains[i].name == name then PatchedDomain(domains[i], p) else domains[i])
  }

  function DeactivateWhereName(domains: seq<DomainRow>, name: string): seq<DomainRow>
  {
    seq(|domains|, i requires 0 <= i < |domains| => if domains[i].name == name then domains[i].(isActive := false) else domains[i])
  }

  /** An accepted update is re-read under the new name and finds the patched
      row. */
  lemma ModifiedRowReRead(domains: seq<DomainRow>, name: string, p: ModifyDomainInput, policyNames: set<string>)
    requires UniqueNames(domains)
    requires FindDomain(domains, name).Some?
    requires DomainConstraints(UpdateWhereName(domains, name, p), policyNames)
    ensures FindDomain(UpdateWhereName(domains, name, p), ReReadName(name, p)) == Some(PatchedDomain(FindDomain(domains, name).value, p))
  {
    var post := UpdateWhereName(domains, name, p);
    var d := FindDomain(domains, name).value;
    var i :| 0 <= i < |domains| && domains[i] == d;
    assert post[i] == PatchedDomain(d, p);
    FindUnique(post, i);
  }

  lemma FindUnique(domains: seq<DomainRow>, i: nat)
    requires UniqueNames(domains)
    requires i < |domains|
    ensures FindDomain(domains, domains[i].name) == Some(domains[i])
  {
    if i > 0 {
      assert forall a, b :: 0 <= a < b < |domains[1..]| ==> domains[1..][a] == domains[a + 1] && domains[1..][b] == domains[b + 1];
      FindUnique(domains[1..], i - 1);
    }
  }

  /** Deactivation keeps every row and every name, touches only the named
      row, and is idempotent. */
  lemma DeactivateKeepsRows(domains: seq<DomainRow>, name: string)
    ensures var r := DeactivateWhereName(domains, name);
      && (forall i :: 0 <= i < |r| ==> r[i].name == domains[i].name && r[i].resourcePolicy == domains[i].resourcePolicy)
      && (forall i :: 0 <= i < |r| && r[i].name == name ==> !r[i].isActive)
      && DeactivateWhereName(r, name) == r
  {
  }

  /** `domain_name` of groups follows a rename (`onupdate='CASCADE'`). */
  function CascadeRename(groups: seq<Groups.GroupRow>, from: string, to: string): seq<Groups.GroupRow>
  {
    seq(|groups|, i requires 0 <= i < |groups| => if groups[i].domainName == from then groups[i].(domainName := to) else groups[i])
  }

  /** Renaming to a domain no group belongs to keeps group names unique
      within their domain. */
  lemma CascadeKeepsGroupNamesUnique(groups: seq<Groups.GroupRow>, from: string, to: string)
    requires Groups.UniqueNameInDomain(groups)
    requires forall i :: 0 <= i < |groups| ==> groups[i].domainName != to
    ensures Groups.UniqueNameInDomain(CascadeRename(groups, from, to))
  {
  }

  // ---------------------------------------------------------------------
  // Mutations

  datatype MutationMsg = Success | InvalidNameFormat | NoMatchingRecord | IntegrityError

  datatype DomainMutation = DomainMutation(ok: bool, msg: MutationMsg, domain: Option<DomainRow>)

  const SlugAssertion := "invalid name format. slug format required."

  class DomainDb {
    var domains: seq<DomainRow>
    /** Keys of `keypair_resource_policies`. */
    const policyNames: set<string>

    ghost predicate Valid()
      reads this
    {
      DomainConstraints(domains, policyNames)
    }

    constructor (policies: set<string>)
      ensures domains == [] && policyNames == policies && Valid()
    {
      domains := [];
      policyNames := policies;
    }

    /** `CreateDomain.mutate`: a non-slug name is answered without touching
        the table. */
    method CreateDomain(name: string, props: DomainInput) returns (r: DomainMutation)
      requires Valid()
      modifies this`domains
      ensures Valid()
      ensures var row := DomainRow(name, props.description, props.isActive, props.resourcePolicy, props.integrationId);
        if !SearchSlug(name) then r == DomainMutation(false, InvalidNameFormat, None) && domains == old(domains)
        else if !DomainConstraints(old(domains) + [row], policyNames) then
          r == DomainMutation(false, IntegrityError, None) && domains == old(domains)
        else r == DomainMutation(true, Success, Some(row)) && domains == old(domains) + [row]
    {
      if !SearchSlug(name) {
        return DomainMutation(false, InvalidNameFormat, None);
      }
      var row := DomainRow(name, props.description, props.isActive, props.resourcePolicy, props.integrationId);
      var post := domains + [row];
      if !DomainConstraints(post, policyNames) {
        return DomainMutation(false, IntegrityError, None);
      }
      domains := post;
      FindUnique(domains, |domains| - 1);
      return DomainMutation(true, Success, FindDomain(domains, name));
    }

    /** `ModifyDomain.mutate`. A non-slug new name fails the assertion, which
        is not caught. */
    method ModifyDomain(name: string, props: ModifyDomainInput) returns (r: Result<DomainMutation, string>)
      requires Valid()
      modifies this`domains
      ensures Valid()
      ensures var post := UpdateWhereName(old(domains), name, props);
        if props.name.Some? && !SearchSlug(props.name.value) then r == Err(SlugAssertion) && domains == old(domains)
        else if !DomainConstraints(post, policyNames) then
          r == Ok(DomainMutation(false, IntegrityError, None)) && domains == old(domains)
        else if FindDomain(old(domains), name).None? then
          r == Ok(DomainMutation(false, NoMatchingRecord, None)) && domains == old(domains)
        else
          r == Ok(DomainMutation(true, Success, Some(PatchedDomain(FindDomain(old(domains), name).value, props)))) &&
          domains == post
    {
      if props.name.Some? && !SearchSlug(props.name.value) {
        return Err(SlugAssertion);
      }
      var post := UpdateWhereName(domains, name, props);
      if !DomainConstraints(post, policyNames) {
        return Ok(DomainMutation(false, IntegrityError, None));
      }
      if FindDomain(domains, name).None? {
        return Ok(DomainMutation(false, NoMatchingRecord, None));
      }
      ModifiedRowReRead(domains, name, props, policyNames);
      var newName := ReReadName(name, props);
      domains := post;
      return Ok(DomainMutation(true, Success, FindDomain(domains, newName)));
    }

    /** `DeleteDomain.mutate`: deactivates the named row. */
    method DeleteDomain(name: string) returns (r: DomainMutation)
      requires Valid()
      modifies this`domains
      ensures Valid()
      ensures domains == DeactivateWhereName(old(domains), name)
      ensures r == if FindDomain(old(domains), name).Some? then DomainMutation(true, Success, None)
                   else DomainMutation(false, NoMatchingRecord, None)
    {
      var rowcount := if FindDomain(domains, name).Some? then 1 else 0;
      domains := DeactivateWhereName(domains, name);
      if rowcount > 0 {
        return DomainMutation(true, Success, None);
      }
      return DomainMutation(false, NoMatchingRecord, None);
    }
  }
}
