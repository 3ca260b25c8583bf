/** The data migration of revision d858d54c361c, which moves the resource
    fields of domains and groups into keypair resource policies.

    Upgrade gives every existing policy the default docker registry, then
    creates one auto-named policy per domain and per group that carries
    resource data and points the row at it. Downgrade copies the fields
    back from the policy with the conventional name and deletes the
    auto-generated policies by `LIKE` pattern. Only the columns the
    migration reads or writes are modelled; the DDL steps (adding and
    dropping columns and foreign keys) are what turn one row type into the
    other. A failing statement aborts the migration: the model returns
    `Err`, and the transaction leaves the database as it was. */
module Migration {
  import opened Common
  import opened ResourcePolicy

  // ---------------------------------------------------------------------
  // Schemas

  /** Domain, group and policy rows before the upgrade (and after the
      downgrade). */
  datatype LegacyDomain = LegacyDomain(
    name: string, totalResourceSlots: map<string, string>,
    allowedVfolderHosts: seq<string>, allowedDockerRegistries: seq<string>)

  datatype LegacyGroup = LegacyGroup(
    id: string, name: string, totalResourceSlots: map<string, string>, allowedVfolderHosts: seq<string>)

  /** A policy row without the `allowed_docker_registries` column. */
  datatype LegacyPolicy = LegacyPolicy(
    name: string, defaultForUnspecified: DefaultForUnspecified, totalResourceSlots: map<string, string>,
    maxConcurrentSessions: int, maxContainersPerSession: int, maxVfolderCount: int,
    maxVfolderSize: int, idleTimeout: int, allowedVfolderHosts: seq<string>)

  datatype LegacyDb = LegacyDb(domains: seq<LegacyDomain>, groups: seq<LegacyGroup>, policies: seq<LegacyPolicy>)

  /** Domain and group rows after the upgrade: the legacy fields are gone
      and `resource_policy` names a policy. */
  datatype DomainRef = DomainRef(name: string, resourcePolicy: Option<string>)

  datatype GroupRef = GroupRef(id: string, name: string, resourcePolicy: Option<string>)

  datatype GeneralDb = GeneralDb(domains: seq<DomainRef>, groups: seq<GroupRef>, policies: seq<KeyPairResourcePolicy>)

  const IntegrityError := "IntegrityError"
  const AttributeError := "AttributeError"

  const DefaultRegistry := "index.docker.io"
  const DomainPolicyPrefix := "_auto_generated_domain_policy_"
  const GroupPolicyPrefix := "_auto_generated_group_policy_"
  const DomainPattern := DomainPolicyPrefix + "%"
  const GroupPattern := GroupPolicyPrefix + "%"

  function DomainPolicyName(name: string): string { DomainPolicyPrefix + name }

  function GroupPolicyName(name: string, id: string): string { GroupPolicyPrefix + name + "_" + id }

  function WithRegistries(p: LegacyPolicy, registries: seq<string>): KeyPairResourcePolicy
  {
    KeyPairResourcePolicy(p.name, p.defaultForUnspecified, p.totalResourceSlots, p.maxConcurrentSessions,
      p.maxContainersPerSession, p.maxVfolderCount, p.maxVfolderSize, p.idleTimeout,
      p.allowedVfolderHosts, registries)
  }

  function WithoutRegistries(p: KeyPairResourcePolicy): LegacyPolicy
  {
    LegacyPolicy(p.name, p.defaultForUnspecified, p.totalResourceSlots, p.maxConcurrentSessions,
      p.maxContainersPerSession, p.maxVfolderCount, p.maxVfolderSize, p.idleTimeout, p.allowedVfolderHosts)
  }

  /** Python truthiness of the legacy fields: a row carries data when one of
      them is non-empty. Groups have no registries field. */
  predicate HasDomainData(d: LegacyDomain)
  {
    d.totalResourceSlots != map[] || d.allowedVfolderHosts != [] || d.allowedDockerRegistries != []
  }

  predicate HasGroupData(g: LegacyGroup)
  {
    g.totalResourceSlots != map[] || g.allowedVfolderHosts != []
  }

  /** The fixed limits of every auto-generated policy. */
  function AutoPolicy(name: string, slots: map<string, string>, hosts: seq<string>, registries: seq<string>): KeyPairResourcePolicy
  {
    KeyPairResourcePolicy(name, Unlimited, slots, 30, 1, 10, 0, 0, hosts, registries)
  }

  function AutoDomainPolicy(d: LegacyDomain): KeyPairResourcePolicy
  {
    AutoPolicy(DomainPolicyName(d.name), d.totalResourceSlots, d.allowedVfolderHosts, d.allowedDockerRegistries)
  }

  /** A group policy is inserted with `''` as its registries, which the
      array column stores as the empty list. */
  function AutoGroupPolicy(g: LegacyGroup): KeyPairResourcePolicy
  {
    AutoPolicy(GroupPolicyName(g.name, g.id), g.totalResourceSlots, g.allowedVfolderHosts, [])
  }

  /** The auto policies copy the legacy fields and use the fixed defaults. */
  lemma AutoPoliciesCopyFields(d: LegacyDomain, g: LegacyGroup)
    ensures var p := AutoDomainPolicy(d);
      && DomainPolicyPrefix <= p.name
      && p.totalResourceSlots == d.totalResourceSlots && p.allowedVfolderHosts == d.allowedVfolderHosts
      && p.allowedDockerRegistries == d.allowedDockerRegistries
      && p.defaultForUnspecified == Unlimited && p.maxConcurrentSessions == 30 && p.maxContainersPerSession == 1
      && p.maxVfolderCount == 10 && p.maxVfolderSize == 0 && p.idleTimeout == 0
    ensures var q := AutoGroupPolicy(g);
      && GroupPolicyPrefix <= q.name
      && q.totalResourceSlots == g.totalResourceSlots && q.allowedVfolderHosts == g.allowedVfolderHosts
      && q.allowedDockerRegistries == []
      && q.defaultForUnspecified == Unlimited && q.maxConcurrentSessions == 30 && q.maxContainersPerSession == 1
      && q.maxVfolderCount == 10 && q.maxVfolderSize == 0 && q.idleTimeout == 0
  {
    assert DomainPolicyName(d.name)[..|DomainPolicyPrefix|] == DomainPolicyPrefix;
    assert GroupPolicyName(g.name, g.id)[..|GroupPolicyPrefix|] == GroupPolicyPrefix;
  }

  // ---------------------------------------------------------------------
  // LIKE

  /** SQL `LIKE` without an escape character: `_` matches any one
      character and `%` any run of characters. */
  function Like(s: string, p: string): bool
    decreases |s| + |p|
  {
    if p == [] then s == []
    else if p[0] == '%' then Like(s, p[1..]) || (s != [] && Like(s[1..], p))
    else s != [] && (p[0] == '_' || p[0] == s[0]) && Like(s[1..], p[1..])
  }

  lemma {:induction false} PercentMatchesAll(s: string)
    ensures Like(s, "%")
    decreases |s|
  {
    if s != [] {
      PercentMatchesAll(s[1..]);
    }
  }

  /** A pattern of literal characters and `_` followed by one `%` matches
      exactly the strings that start with a match of the literal part. */
  lemma {:induction false} LikePrefix(s: string, q: string)
    requires '%' !in q
    ensures Like(s, q + "%") <==> |q| <= |s| && forall i :: 0 <= i < |q| ==> q[i] == '_' || q[i] == s[i]
    decreases |q|
  {
    if q == [] {
      assert q + "%" == "%";
      PercentMatchesAll(s);
    } else {
      assert (q + "%")[0] == q[0];
      assert (q + "%")[1..] == q[1..] + "%";
      if s != [] {
        LikePrefix(s[1..], q[1..]);
        assert forall i :: 1 <= i < |q| && i < |s| ==> q[1..][i - 1] == q[i] && s[1..][i - 1] == s[i];
      }
    }
  }

  /** Domain auto names match the domain pattern and never the group one;
      group auto names the other way round (they differ at index 16). */
  lemma DomainNameLike(s: string)
    requires DomainPolicyPrefix <= s
    ensures Like(s, DomainPattern) && !Like(s, GroupPattern)
  {
    LikePrefix(s, DomainPolicyPrefix);
    LikePrefix(s, GroupPolicyPrefix);
    assert s[16] == DomainPolicyPrefix[16] == 'd';
    assert GroupPolicyPrefix[16] == 'g';
  }

  lemma GroupNameLike(s: string)
    requires GroupPolicyPrefix <= s
    ensures Like(s, GroupPattern) && !Like(s, DomainPattern)
  {
    LikePrefix(s, DomainPolicyPrefix);
    LikePrefix(s, GroupPolicyPrefix);
    assert s[16] == GroupPolicyPrefix[16] == 'g';
    assert DomainPolicyPrefix[16] == 'd';
  }

  /** Every `_` of the patterns is a wildcard: the leading one matches any
      character, so the downgrade also deletes a policy that was never
      generated, such as `Xauto_generated_group_policy_mine`. */
  lemma LeadingUnderscoreIsWildcard(c: char, rest: string)
    ensures Like([c] + GroupPolicyPrefix[1..] + rest, GroupPattern)
    ensures Like([c] + DomainPolicyPrefix[1..] + rest, DomainPattern)
  {
    FirstWildcard(c, GroupPolicyPrefix, rest);
    FirstWildcard(c, DomainPolicyPrefix, rest);
  }

  /** A literal part that starts with `_` accepts any first character. */
  lemma FirstWildcard(c: char, q: string, rest: string)
    requires '%' !in q && |q| > 0 && q[0] == '_'
    ensures Like([c] + q[1..] + rest, q + "%")
  {
    var s := [c] + q[1..] + rest;
    assert forall i :: 1 <= i < |q| ==> s[i] == q[i];
    LikePrefix(s, q);
  }

  /** `DELETE FROM keypair_resource_policies WHERE name LIKE pattern` */
  function DeleteLike(ps: seq<KeyPairResourcePolicy>, pattern: string): seq<KeyPairResourcePolicy>
  {
    if ps == [] then []
    else
      var n := |ps| - 1;
      DeleteLike(ps[..n], pattern) + (if Like(ps[n].name, pattern) then [] else [ps[n]])
  }

  /** The delete keeps exactly the policies whose name does not match. */
  lemma {:induction false} DeleteLikeMembers(ps: seq<KeyPairResourcePolicy>, pattern: string)
    ensures forall p :: p in DeleteLike(ps, pattern) <==> p in ps && !Like(p.name, pattern)
  {
    if ps != [] {
      var n := |ps| - 1;
      DeleteLikeMembers(ps[..n], pattern);
      assert ps == ps[..n] + [ps[n]];
    }
  }

  lemma {:induction false} DeleteLikeConcat(a: seq<KeyPairResourcePolicy>, b: seq<KeyPairResourcePolicy>, pattern: string)
    ensures DeleteLike(a + b, pattern) == DeleteLike(a, pattern) + DeleteLike(b, pattern)
    decreases |b|
  {
    if b == [] {
      assert a + b == a;
    } else {
      var n := |b| - 1;
      assert (a + b)[..|a + b| - 1] == a + b[..n];
      DeleteLikeConcat(a, b[..n], pattern);
    }
  }

  lemma {:induction false} DeleteLikeKeepsAll(ps: seq<KeyPairResourcePolicy>, pattern: string)
    requires forall i :: 0 <= i < |ps| ==> !Like(ps[i].name, pattern)
    ensures DeleteLike(ps, pattern) == ps
  {
    if ps != [] {
      var n := |ps| - 1;
      DeleteLikeKeepsAll(ps[..n], pattern);
      assert ps == ps[..n] + [ps[n]];
    }
  }

  lemma {:induction false} DeleteLikeDropsAll(ps: seq<KeyPairResourcePolicy>, pattern: string)
    requires forall i :: 0 <= i < |ps| ==> Like(ps[i].name, pattern)
    ensures DeleteLike(ps, pattern) == []
  {
    if ps != [] {
      DeleteLikeDropsAll(ps[..|ps| - 1], pattern);
    }
  }

  // ---------------------------------------------------------------------
  // Upgrade

  /** `INSERT INTO keypair_resource_policies`; the name is the primary key. */
  function InsertPolicy(ps: seq<KeyPairResourcePolicy>, p: KeyPairResourcePolicy): Result<seq<KeyPairResourcePolicy>, string>
  {
    if FindPolicy(ps, p.name).Some? then Err(IntegrityError) else Ok(ps + [p])
  }

  /** `UPDATE domains SET resource_policy = pn WHERE name = name` */
  function SetDomainPolicy(ds: seq<DomainRef>, name: string, pn: string): seq<DomainRef>
  {
    seq(|ds|, i requires 0 <= i < |ds| => if ds[i].name == name then ds[i].(resourcePolicy := Some(pn)) else ds[i])
  }

  /** `UPDATE groups SET resource_policy = pn WHERE id = id` */
  function SetGroupPolicy(gs: seq<GroupRef>, id: string, pn: string): seq<GroupRef>
  {
    seq(|gs|, i requires 0 <= i < |gs| => if gs[i].id == id then gs[i].(resourcePolicy := Some(pn)) else gs[i])
  }

  /** One iteration of the domain loop. */
  function UpgradeDomainStep(db: GeneralDb, d: LegacyDomain): Result<GeneralDb, string>
  {
    if !HasDomainData(d) then Ok(db)
    else
      var p := AutoDomainPolicy(d);
      match InsertPolicy(db.policies, p)
      case Err(e) => Err(e)
      case Ok(ps) => Ok(db.(policies := ps, domains := SetDomainPolicy(db.domains, d.name, p.name)))
  }

  function UpgradeDomainsUpTo(ds: seq<LegacyDomain>, k: nat, init: GeneralDb): Result<GeneralDb, string>
    requires k <= |ds|
  {
    if k == 0 then Ok(init)
    else
      match UpgradeDomainsUpTo(ds, k - 1, init)
      case Err(e) => Err(e)
      case Ok(db) => UpgradeDomainStep(db, ds[k - 1])
  }

  /** One iteration of the group loop. */
  function UpgradeGroupStep(db: GeneralDb, g: LegacyGroup): Result<GeneralDb, string>
  {
    if !HasGroupData(g) then Ok(db)
    else
      var p := AutoGroupPolicy(g);
      match InsertPolicy(db.policies, p)
      case Err(e) => Err(e)
      case Ok(ps) => Ok(db.(policies := ps, groups := SetGroupPolicy(db.groups, g.id, p.name)))
  }

  function UpgradeGroupsUpTo(gs: seq<LegacyGroup>, k: nat, init: GeneralDb): Result<GeneralDb, string>
    requires k <= |gs|
  {
    if k == 0 then Ok(init)
    else
      match UpgradeGroupsUpTo(gs, k - 1, init)
      case Err(e) => Err(e)
      case Ok(db) => UpgradeGroupStep(db, gs[k - 1])
  }

  /** The tables once the new columns exist: every policy lists the default
      registry and every `resource_policy` is NULL. */
  function UpgradeStart(db: LegacyDb): GeneralDb
  {
    GeneralDb(
      seq(|db.domains|, i requires 0 <= i < |db.domains| => DomainRef(db.domains[i].name, None)),
      seq(|db.groups|, i requires 0 <= i < |db.groups| => GroupRef(db.groups[i].id, db.groups[i].name, None)),
      seq(|db.policies|, i requires 0 <= i < |db.policies| => WithRegistries(db.policies[i], [DefaultRegistry])))
  }

  function UpgradeSpec(db: LegacyDb): Result<GeneralDb, string>
  {
    match UpgradeDomainsUpTo(db.domains, |db.domains|, UpgradeStart(db))
    case Err(e) => Err(e)
    case Ok(mid) => UpgradeGroupsUpTo(db.groups, |db.groups|, mid)
  }

  lemma {:induction false} UpgradeDomainsErrStays(ds: seq<LegacyDomain>, k: nat, n: nat, init: GeneralDb)
    requires k <= n <= |ds|
    requires UpgradeDomainsUpTo(ds, k, init).Err?
    ensures UpgradeDomainsUpTo(ds, n, init) == UpgradeDomainsUpTo(ds, k, init)
    decreases n
  {
    if n > k {
      UpgradeDomainsErrStays(ds, k, n - 1, init);
    }
  }

  lemma {:induction false} UpgradeGroupsErrStays(gs: seq<LegacyGroup>, k: nat, n: nat, init: GeneralDb)
    requires k <= n <= |gs|
    requires UpgradeGroupsUpTo(gs, k, init).Err?
    ensures UpgradeGroupsUpTo(gs, n, init) == UpgradeGroupsUpTo(gs, k, init)
    decreases n
  {
    if n > k {
      UpgradeGroupsErrStays(gs, k, n - 1, init);
    }
  }

  /** `upgrade()` */
  method Upgrade(db: LegacyDb) returns (r: Result<GeneralDb, string>)
    ensures r == UpgradeSpec(db)
  {
    // UPDATE keypair_resource_policies SET allowed_docker_registries = '{index.docker.io}'
    var policies: seq<KeyPairResourcePolicy> := [];
    var i := 0;
    while i < |db.policies|
      invariant 0 <= i <= |db.policies|
      invariant |policies| == i
      invariant forall j :: 0 <= j < i ==> policies[j] == WithRegistries(db.policies[j], [DefaultRegistry])
    {
      policies := policies + [WithRegistries(db.policies[i], [DefaultRegistry])];
      i := i + 1;
    }
    var start := UpgradeStart(db);
    var cur := start.(policies := policies);
    assert cur == start;
    r := UpgradeDomains(db.domains, cur);
    if r.Err? {
      return;
    }
    r := UpgradeGroups(db.groups, r.value);
  }

  /** The domain loop: auto policy and `resource_policy` for every domain
      with data. */
  method UpgradeDomains(ds: seq<LegacyDomain>, start: GeneralDb) returns (r: Result<GeneralDb, string>)
    ensures r == UpgradeDomainsUpTo(ds, |ds|, start)
  {
    var cur := start;
    var i := 0;
    while i < |ds|
      invariant 0 <= i <= |ds|
      invariant UpgradeDomainsUpTo(ds, i, start) == Ok(cur)
    {
      var d := ds[i];
      if HasDomainData(d) {
        var policyName := DomainPolicyName(d.name);
        if FindPolicy(cur.policies, policyName).Some? {
          UpgradeDomainsErrStays(ds, i + 1, |ds|, start);
          return Err(IntegrityError);
        }
        cur := cur.(policies := cur.policies + [AutoDomainPolicy(d)]);
        cur := cur.(domains := SetDomainPolicy(cur.domains, d.name, policyName));
      }
      i := i + 1;
    }
    return Ok(cur);
  }

  /** The group loop: auto policy and `resource_policy` for every group
      with data. */
  method UpgradeGroups(gs: seq<LegacyGroup>, start: GeneralDb) returns (r: Result<GeneralDb, string>)
    ensures r == UpgradeGroupsUpTo(gs, |gs|, start)
  {
    var cur := start;
    var i := 0;
    while i < |gs|
      invariant 0 <= i <= |gs|
      invariant UpgradeGroupsUpTo(gs, i, start) == Ok(cur)
    {
      var g := gs[i];
      if HasGroupData(g) {
        var policyName := GroupPolicyName(g.name, g.id);
        if FindPolicy(cur.policies, policyName).Some? {
          UpgradeGroupsErrStays(gs, i + 1, |gs|, start);
          return Err(IntegrityError);
        }
        cur := cur.(policies := cur.policies + [AutoGroupPolicy(g)]);
        cur := cur.(groups := SetGroupPolicy(cur.groups, g.id, policyName));
      }
      i := i + 1;
    }
    return Ok(cur);
  }

  // ---------------------------------------------------------------------
  // Downgrade

  /** `not row.resource_policy`: NULL and the empty string. */
  predicate NoPolicy(rp: Option<string>)
  {
    rp.None? || rp.value == ""
  }

  datatype GroupFields = GroupFields(slots: map<string, string>, hosts: seq<string>)

  datatype DomainFields = DomainFields(slots: map<string, string>, hosts: seq<string>, registries: seq<string>)

  /** The values the downgrade writes for one group: empty without a policy,
      otherwise those of the policy with the conventional name; a missing
      policy leaves `rp` None and reading its fields is an AttributeError. */
  function GroupLookup(g: GroupRef, ps: seq<KeyPairResourcePolicy>): Result<GroupFields, string>
  {
    if NoPolicy(g.resourcePolicy) then Ok(GroupFields(map[], []))
    else
      match FindPolicy(ps, GroupPolicyName(g.name, g.id))
      case None => Err(AttributeError)
      case Some(p) => Ok(GroupFields(p.totalResourceSlots, p.allowedVfolderHosts))
  }

  function DomainLookup(d: DomainRef, ps: seq<KeyPairResourcePolicy>): Result<DomainFields, string>
  {
    if NoPolicy(d.resourcePolicy) then Ok(DomainFields(map[], [], []))
    else
      match FindPolicy(ps, DomainPolicyName(d.name))
      case None => Err(AttributeError)
      case Some(p) => Ok(DomainFields(p.totalResourceSlots, p.allowedVfolderHosts, p.allowedDockerRegistries))
  }

  function RestoreGroup(g: LegacyGroup, v: GroupFields): LegacyGroup
  {
    g.(totalResourceSlots := v.slots, allowedVfolderHosts := v.hosts)
  }

  function RestoreDomain(d: LegacyDomain, v: DomainFields): LegacyDomain
  {
    d.(totalResourceSlots := v.slots, allowedVfolderHosts := v.hosts, allowedDockerRegistries := v.registries)
  }

  /** `UPDATE groups SET ... WHERE name = name`: by name, not by id. */
  function SetGroupFieldsByName(gs: seq<LegacyGroup>, name: string, v: GroupFields): seq<LegacyGroup>
  {
    seq(|gs|, i requires 0 <= i < |gs| => if gs[i].name == name then RestoreGroup(gs[i], v) else gs[i])
  }

  /** `UPDATE domains SET ... WHERE name = name` */
  function SetDomainFieldsByName(ds: seq<LegacyDomain>, name: string, v: DomainFields): seq<LegacyDomain>
  {
    seq(|ds|, i requires 0 <= i < |ds| => if ds[i].name == name then RestoreDomain(ds[i], v) else ds[i])
  }

  /** The group loop over the fetched snapshot, up to row `k`. */
  function GroupsBackUpTo(snap: seq<GroupRef>, k: nat, init: seq<LegacyGroup>, ps: seq<KeyPairResourcePolicy>): Result<seq<LegacyGroup>, string>
    requires k <= |snap|
  {
    if k == 0 then Ok(init)
    else
      match GroupsBackUpTo(snap, k - 1, init, ps)
      case Err(e) => Err(e)
      case Ok(gs) =>
        match GroupLookup(snap[k - 1], ps)
        case Err(e) => Err(e)
        case Ok(v) => Ok(SetGroupFieldsByName(gs, snap[k - 1].name, v))
  }

  function DomainsBackUpTo(snap: seq<DomainRef>, k: nat, init: seq<LegacyDomain>, ps: seq<KeyPairResourcePolicy>): Result<seq<LegacyDomain>, string>
    requires k <= |snap|
  {
    if k == 0 then Ok(init)
    else
      match DomainsBackUpTo(snap, k - 1, init, ps)
      case Err(e) => Err(e)
      case Ok(ds) =>
        match DomainLookup(snap[k - 1], ps)
        case Err(e) => Err(e)
        case Ok(v) => Ok(SetDomainFieldsByName(ds, snap[k - 1].name, v))
  }

  /** The re-added legacy columns, before the loops fill them (every row is
      visited, so these placeholders never survive a successful run). */
  function GroupsReAdded(gs: seq<GroupRef>): seq<LegacyGroup>
  {
    seq(|gs|, i requires 0 <= i < |gs| => LegacyGroup(gs[i].id, gs[i].name, map[], []))
  }

  function DomainsReAdded(ds: seq<DomainRef>): seq<LegacyDomain>
  {
    seq(|ds|, i requires 0 <= i < |ds| => LegacyDomain(ds[i].name, map[], [], []))
  }

  /** Deleting a policy that a domain still references breaks
      `fk_domains_resource_policy_keypair_resource_policies`. */
  predicate DomainReferencesLike(ds: seq<DomainRef>, pattern: string)
  {
    exists i :: 0 <= i < |ds| && ds[i].resourcePolicy.Some? && Like(ds[i].resourcePolicy.value, pattern)
  }

  function DropRegistries(ps: seq<KeyPairResourcePolicy>): seq<LegacyPolicy>
  {
    seq(|ps|, i requires 0 <= i < |ps| => WithoutRegistries(ps[i]))
  }

  function DowngradeSpec(db: GeneralDb): Result<LegacyDb, string>
  {
    match GroupsBackUpTo(db.groups, |db.groups|, GroupsReAdded(db.groups), db.policies)
    case Err(e) => Err(e)
    case Ok(gs) =>
      if DomainReferencesLike(db.domains, GroupPattern) then Err(IntegrityError)
      else
        var ps1 := DeleteLike(db.policies, GroupPattern);
        match DomainsBackUpTo(db.domains, |db.domains|, DomainsReAdded(db.domains), ps1)
        case Err(e) => Err(e)
        case Ok(ds) => Ok(LegacyDb(ds, gs, DropRegistries(DeleteLike(ps1, DomainPattern))))
  }

  lemma {:induction false} GroupsBackErrStays(snap: seq<GroupRef>, k: nat, n: nat, init: seq<LegacyGroup>, ps: seq<KeyPairResourcePolicy>)
    requires k <= n <= |snap|
    requires GroupsBackUpTo(snap, k, init, ps).Err?
    ensures GroupsBackUpTo(snap, n, init, ps) == GroupsBackUpTo(snap, k, init, ps)
    decreases n
  {
    if n > k {
      GroupsBackErrStays(snap, k, n - 1, init, ps);
    }
  }

  lemma {:induction false} DomainsBackErrStays(snap: seq<DomainRef>, k: nat, n: nat, init: seq<LegacyDomain>, ps: seq<KeyPairResourcePolicy>)
    requires k <= n <= |snap|
    requires DomainsBackUpTo(snap, k, init, ps).Err?
    ensures DomainsBackUpTo(snap, n, init, ps) == DomainsBackUpTo(snap, k, init, ps)
    decreases n
  {
    if n > k {
      DomainsBackErrStays(snap, k, n - 1, init, ps);
    }
  }

  /** The only error the group loop raises is the AttributeError of a missing policy. */
  lemma {:induction false} GroupsBackErrIsAttribute(snap: seq<GroupRef>, k: nat, init: seq<LegacyGroup>, ps: seq<KeyPairResourcePolicy>)
    requires k <= |snap|
    ensures GroupsBackUpTo(snap, k, init, ps).Err? ==> GroupsBackUpTo(snap, k, init, ps).error == AttributeError
  {
    if k > 0 {
      GroupsBackErrIsAttribute(snap, k - 1, init, ps);
    }
  }

  lemma {:induction false} DomainsBackErrIsAttribute(snap: seq<DomainRef>, k: nat, init: seq<LegacyDomain>, ps: seq<KeyPairResourcePolicy>)
    requires k <= |snap|
    ensures DomainsBackUpTo(snap, k, init, ps).Err? ==> DomainsBackUpTo(snap, k, init, ps).error == AttributeError
  {
    if k > 0 {
      DomainsBackErrIsAttribute(snap, k - 1, init, ps);
    }
  }

  /** A group with a policy whose conventional auto-generated policy
      `_auto_generated_group_policy_{name}_{id}` is absent makes the group
      loop fail with AttributeError. The policy the row itself names is never
      read, so this holds even when that policy exists. */
  lemma GroupMissingAutoPolicyFails(snap: seq<GroupRef>, i: nat, init: seq<LegacyGroup>, ps: seq<KeyPairResourcePolicy>)
    requires i < |snap|
    requires !NoPolicy(snap[i].resourcePolicy)
    requires FindPolicy(ps, GroupPolicyName(snap[i].name, snap[i].id)).None?
    ensures GroupsBackUpTo(snap, |snap|, init, ps) == Err(AttributeError)
  {
    GroupsBackErrIsAttribute(snap, i, init, ps);
    assert GroupsBackUpTo(snap, i + 1, init, ps) == Err(AttributeError);
    GroupsBackErrStays(snap, i + 1, |snap|, init, ps);
  }

  /** The domain counterpart: `_auto_generated_domain_policy_{name}` absent. */
  lemma DomainMissingAutoPolicyFails(snap: seq<DomainRef>, i: nat, init: seq<LegacyDomain>, ps: seq<KeyPairResourcePolicy>)
    requires i < |snap|
    requires !NoPolicy(snap[i].resourcePolicy)
    requires FindPolicy(ps, DomainPolicyName(snap[i].name)).None?
    ensures DomainsBackUpTo(snap, |snap|, init, ps) == Err(AttributeError)
  {
    DomainsBackErrIsAttribute(snap, i, init, ps);
    assert DomainsBackUpTo(snap, i + 1, init, ps) == Err(AttributeError);
    DomainsBackErrStays(snap, i + 1, |snap|, init, ps);
  }

  /** A group re-pointed at an existing policy "gold", and a domain at an
      existing policy "default": both loops fail, although the named policy exists. */
  lemma RepointedRowsFailDowngrade(gold: KeyPairResourcePolicy, dflt: KeyPairResourcePolicy)
    requires gold.name == "gold" && dflt.name == "default"
    ensures FindPolicy([gold, dflt], "gold") == Some(gold)
    ensures FindPolicy([gold, dflt], "default") == Some(dflt)
    ensures var snap := [GroupRef("g1", "team", Some("gold"))];
      GroupsBackUpTo(snap, 1, GroupsReAdded(snap), [gold, dflt]) == Err(AttributeError)
    ensures var snap := [DomainRef("default", Some("default"))];
      DomainsBackUpTo(snap, 1, DomainsReAdded(snap), [gold, dflt]) == Err(AttributeError)
  {
    assert GroupPolicyName("team", "g1") != "gold" && GroupPolicyName("team", "g1") != "default" by {
      assert GroupPolicyName("team", "g1")[0] == '_';
    }
    assert DomainPolicyName("default") != "gold" && DomainPolicyName("default") != "default" by {
      assert DomainPolicyName("default")[0] == '_';
    }
    var gs := [GroupRef("g1", "team", Some("gold"))];
    GroupMissingAutoPolicyFails(gs, 0, GroupsReAdded(gs), [gold, dflt]);
    var ds := [DomainRef("default", Some("default"))];
    DomainMissingAutoPolicyFails(ds, 0, DomainsReAdded(ds), [gold, dflt]);
  }

  /** `downgrade()` */
  method Downgrade(db: GeneralDb) returns (r: Result<LegacyDb, string>)
    ensures r == DowngradeSpec(db)
  {
    var gr := GroupsBack(db.groups, db.policies);
    if gr.Err? {
      return Err(gr.error);
    }
    if DomainReferencesLike(db.domains, GroupPattern) {
      return Err(IntegrityError);
    }
    var policies := DeleteLike(db.policies, GroupPattern);
    var dr := DomainsBack(db.domains, policies);
    if dr.Err? {
      return Err(dr.error);
    }
    policies := DeleteLike(policies, DomainPattern);
    var legacy: seq<LegacyPolicy> := [];
    var i := 0;
    while i < |policies|
      invariant 0 <= i <= |policies|
      invariant |legacy| == i
      invariant forall j :: 0 <= j < i ==> legacy[j] == WithoutRegistries(policies[j])
    {
      legacy := legacy + [WithoutRegistries(policies[i])];
      i := i + 1;
    }
    assert legacy == DropRegistries(policies);
    return Ok(LegacyDb(dr.value, gr.value, legacy));
  }

  /** The group loop of the downgrade over the fetched rows. */
  method GroupsBack(snap: seq<GroupRef>, ps: seq<KeyPairResourcePolicy>) returns (r: Result<seq<LegacyGroup>, string>)
    ensures r == GroupsBackUpTo(snap, |snap|, GroupsReAdded(snap), ps)
  {
    var init := GroupsReAdded(snap);
    var gs := init;
    var i := 0;
    while i < |snap|
      invariant 0 <= i <= |snap|
      invariant GroupsBackUpTo(snap, i, init, ps) == Ok(gs)
    {
      var g := snap[i];
      var v: GroupFields;
      if NoPolicy(g.resourcePolicy) {
        v := GroupFields(map[], []);
      } else {
        var rp := FindPolicy(ps, GroupPolicyName(g.name, g.id));
        if rp.None? {
          GroupsBackErrStays(snap, i + 1, |snap|, init, ps);
          return Err(AttributeError);
        }
        v := GroupFields(rp.value.totalResourceSlots, rp.value.allowedVfolderHosts);
      }
      gs := SetGroupFieldsByName(gs, g.name, v);
      i := i + 1;
    }
    return Ok(gs);
  }

  /** The domain loop of the downgrade over the fetched rows. */
  method DomainsBack(snap: seq<DomainRef>, ps: seq<KeyPairResourcePolicy>) returns (r: Result<seq<LegacyDomain>, string>)
    ensures r == DomainsBackUpTo(snap, |snap|, DomainsReAdded(snap), ps)
  {
    var init := DomainsReAdded(snap);
    var ds := init;
    var i := 0;
    while i < |snap|
      invariant 0 <= i <= |snap|
      invariant DomainsBackUpTo(snap, i, init, ps) == Ok(ds)
    {
      var d := snap[i];
      var v: DomainFields;
      if NoPolicy(d.resourcePolicy) {
        v := DomainFields(map[], [], []);
      } else {
        var rp := FindPolicy(ps, DomainPolicyName(d.name));
        if rp.None? {
          DomainsBackErrStays(snap, i + 1, |snap|, init, ps);
          return Err(AttributeError);
        }
        v := DomainFields(rp.value.totalResourceSlots, rp.value.allowedVfolderHosts, rp.value.allowedDockerRegistries);
      }
      ds := SetDomainFieldsByName(ds, d.name, v);
      i := i + 1;
    }
    return Ok(ds);
  }

  // ---------------------------------------------------------------------
  // What the upgrade produces

  predicate UniqueDomainNames(ds: seq<LegacyDomain>)
  {
    forall i, j :: 0 <= i < j < |ds| ==> ds[i].name != ds[j].name
  }

  predicate UniqueGroupIds(gs: seq<LegacyGroup>)
  {
    forall i, j :: 0 <= i < j < |gs| ==> gs[i].id != gs[j].id
  }

  predicate UniqueGroupNames(gs: seq<LegacyGroup>)
  {
    forall i, j :: 0 <= i < j < |gs| ==> gs[i].name != gs[j].name
  }

  predicate UniquePolicyNames(ps: seq<KeyPairResourcePolicy>)
  {
    forall i, j :: 0 <= i < j < |ps| ==> ps[i].name != ps[j].name
  }

  predicate UniqueLegacyPolicyNames(ps: seq<LegacyPolicy>)
  {
    forall i, j :: 0 <= i < j < |ps| ==> ps[i].name != ps[j].name
  }

  /** The auto policies of the domains with data, in domain order. */
  function DomainAutos(ds: seq<LegacyDomain>): seq<KeyPairResourcePolicy>
  {
    if ds == [] then []
    else
      var n := |ds| - 1;
      DomainAutos(ds[..n]) + (if HasDomainData(ds[n]) then [AutoDomainPolicy(ds[n])] else [])
  }

  function GroupAutos(gs: seq<LegacyGroup>): seq<KeyPairResourcePolicy>
  {
    if gs == [] then []
    else
      var n := |gs| - 1;
      GroupAutos(gs[..n]) + (if HasGroupData(gs[n]) then [AutoGroupPolicy(gs[n])] else [])
  }

  /** The domain rows once the first `k` domains are processed. */
  function DomainRefsUpTo(ds: seq<LegacyDomain>, k: nat): seq<DomainRef>
  {
    seq(|ds|, i requires 0 <= i < |ds| =>
      DomainRef(ds[i].name, if i < k && HasDomainData(ds[i]) then Some(DomainPolicyName(ds[i].name)) else None))
  }

  function GroupRefsUpTo(gs: seq<LegacyGroup>, k: nat): seq<GroupRef>
  {
    seq(|gs|, i requires 0 <= i < |gs| =>
      GroupRef(gs[i].id, gs[i].name, if i < k && HasGroupData(gs[i]) then Some(GroupPolicyName(gs[i].name, gs[i].id)) else None))
  }

  lemma {:induction false} UpgradeDomainsExact(ds: seq<LegacyDomain>, k: nat, init: GeneralDb)
    requires k <= |ds|
    requires UniqueDomainNames(ds)
    requires init.domains == DomainRefsUpTo(ds, 0)
    requires UpgradeDomainsUpTo(ds, k, init).Ok?
    ensures UpgradeDomainsUpTo(ds, k, init) ==
      Ok(init.(domains := DomainRefsUpTo(ds, k), policies := init.policies + DomainAutos(ds[..k])))
  {
    if k == 0 {
      assert ds[..0] == [];
      assert init.policies + DomainAutos(ds[..0]) == init.policies;
    } else {
      UpgradeDomainsExact(ds, k - 1, init);
      DomainRefsStep(ds, k);
      DomainAutosStep(ds, k);
      var d := ds[k - 1];
      if HasDomainData(d) {
        assert init.policies + DomainAutos(ds[..k - 1]) + [AutoDomainPolicy(d)] == init.policies + DomainAutos(ds[..k]);
      } else {
        assert DomainAutos(ds[..k - 1]) + [] == DomainAutos(ds[..k - 1]);
      }
    }
  }

  /** Processing domain `k - 1` sets the policy of its row only. */
  lemma DomainRefsStep(ds: seq<LegacyDomain>, k: nat)
    requires 0 < k <= |ds|
    requires UniqueDomainNames(ds)
    ensures DomainRefsUpTo(ds, k) ==
      if HasDomainData(ds[k - 1]) then SetDomainPolicy(DomainRefsUpTo(ds, k - 1), ds[k - 1].name, DomainPolicyName(ds[k - 1].name))
      else DomainRefsUpTo(ds, k - 1)
  {
  }

  lemma DomainAutosStep(ds: seq<LegacyDomain>, k: nat)
    requires 0 < k <= |ds|
    ensures DomainAutos(ds[..k]) ==
      DomainAutos(ds[..k - 1]) + (if HasDomainData(ds[k - 1]) then [AutoDomainPolicy(ds[k - 1])] else [])
  {
    assert ds[..k][..k - 1] == ds[..k - 1];
  }

  lemma {:induction false} UpgradeGroupsExact(gs: seq<LegacyGroup>, k: nat, init: GeneralDb)
    requires k <= |gs|
    requires UniqueGroupIds(gs)
    requires init.groups == GroupRefsUpTo(gs, 0)
    requires UpgradeGroupsUpTo(gs, k, init).Ok?
    ensures UpgradeGroupsUpTo(gs, k, init) ==
      Ok(init.(groups := GroupRefsUpTo(gs, k), policies := init.policies + GroupAutos(gs[..k])))
  {
    if k == 0 {
      assert gs[..0] == [];
      assert init.policies + GroupAutos(gs[..0]) == init.policies;
    } else {
      UpgradeGroupsExact(gs, k - 1, init);
      GroupRefsStep(gs, k);
      GroupAutosStep(gs, k);
      var g := gs[k - 1];
      if HasGroupData(g) {
        assert init.policies + GroupAutos(gs[..k - 1]) + [AutoGroupPolicy(g)] == init.policies + GroupAutos(gs[..k]);
      } else {
        assert GroupAutos(gs[..k - 1]) + [] == GroupAutos(gs[..k - 1]);
      }
    }
  }

  /** Processing group `k - 1` sets the policy of its row only. */
  lemma GroupRefsStep(gs: seq<LegacyGroup>, k: nat)
    requires 0 < k <= |gs|
    requires UniqueGroupIds(gs)
    ensures GroupRefsUpTo(gs, k) ==
      if HasGroupData(gs[k - 1]) then SetGroupPolicy(GroupRefsUpTo(gs, k - 1), gs[k - 1].id, GroupPolicyName(gs[k - 1].name, gs[k - 1].id))
      else GroupRefsUpTo(gs, k - 1)
  {
  }

  lemma GroupAutosStep(gs: seq<LegacyGroup>, k: nat)
    requires 0 < k <= |gs|
    ensures GroupAutos(gs[..k]) ==
      GroupAutos(gs[..k - 1]) + (if HasGroupData(gs[k - 1]) then [AutoGroupPolicy(gs[k - 1])] else [])
  {
    assert gs[..k][..k - 1] == gs[..k - 1];
  }

  /** An insert that succeeded kept the policy names unique. */
  lemma InsertKeepsUnique(ps: seq<KeyPairResourcePolicy>, p: KeyPairResourcePolicy)
    requires UniquePolicyNames(ps)
    requires InsertPolicy(ps, p).Ok?
    ensures UniquePolicyNames(InsertPolicy(ps, p).value)
  {
    assert forall i :: 0 <= i < |ps| ==> ps[i] in ps;
  }

  lemma {:induction false} UpgradeDomainsKeepUnique(ds: seq<LegacyDomain>, k: nat, init: GeneralDb)
    requires k <= |ds|
    requires UniquePolicyNames(init.policies)
    requires UpgradeDomainsUpTo(ds, k, init).Ok?
    ensures UniquePolicyNames(UpgradeDomainsUpTo(ds, k, init).value.policies)
  {
    if k > 0 {
      UpgradeDomainsKeepUnique(ds, k - 1, init);
      if HasDomainData(ds[k - 1]) {
        InsertKeepsUnique(UpgradeDomainsUpTo(ds, k - 1, init).value.policies, AutoDomainPolicy(ds[k - 1]));
      }
    }
  }

  lemma {:induction false} UpgradeGroupsKeepUnique(gs: seq<LegacyGroup>, k: nat, init: GeneralDb)
    requires k <= |gs|
    requires UniquePolicyNames(init.policies)
    requires UpgradeGroupsUpTo(gs, k, init).Ok?
    ensures UniquePolicyNames(UpgradeGroupsUpTo(gs, k, init).value.policies)
  {
    if k > 0 {
      UpgradeGroupsKeepUnique(gs, k - 1, init);
      if HasGroupData(gs[k - 1]) {
        InsertKeepsUnique(UpgradeGroupsUpTo(gs, k - 1, init).value.policies, AutoGroupPolicy(gs[k - 1]));
      }
    }
  }

  /** A successful upgrade points exactly the rows with data at their auto
      policies, appends those policies after the existing ones (domains
      first, then groups, each in table order), gives every existing policy
      the default registry, and leaves the policy names unique. */
  lemma UpgradeShape(db: LegacyDb)
    requires UniqueDomainNames(db.domains) && UniqueGroupIds(db.groups) && UniqueLegacyPolicyNames(db.policies)
    requires UpgradeSpec(db).Ok?
    ensures UpgradeSpec(db).value ==
      GeneralDb(DomainRefsUpTo(db.domains, |db.domains|), GroupRefsUpTo(db.groups, |db.groups|),
                UpgradeStart(db).policies + DomainAutos(db.domains) + GroupAutos(db.groups))
    ensures UniquePolicyNames(UpgradeSpec(db).value.policies)
  {
    var start := UpgradeStart(db);
    assert start.domains == DomainRefsUpTo(db.domains, 0);
    assert start.groups == GroupRefsUpTo(db.groups, 0);
    assert UniquePolicyNames(start.policies);
    var n := |db.domains|;
    UpgradeDomainsExact(db.domains, n, start);
    UpgradeDomainsKeepUnique(db.domains, n, start);
    assert db.domains[..n] == db.domains;
    var mid := UpgradeDomainsUpTo(db.domains, n, start).value;
    var m := |db.groups|;
    UpgradeGroupsExact(db.groups, m, mid);
    UpgradeGroupsKeepUnique(db.groups, m, mid);
    assert db.groups[..m] == db.groups;
  }

  /** Row by row: a domain (group) gets its auto policy iff it carries data,
      and every existing policy keeps its fields and gains the default
      registry. */
  lemma UpgradeRowFacts(db: LegacyDb)
    requires UniqueDomainNames(db.domains) && UniqueGroupIds(db.groups) && UniqueLegacyPolicyNames(db.policies)
    requires UpgradeSpec(db).Ok?
    ensures var m := UpgradeSpec(db).value;
      && |m.domains| == |db.domains| && |m.groups| == |db.groups| && |db.policies| <= |m.policies|
      && (forall i :: 0 <= i < |db.domains| ==>
            m.domains[i].name == db.domains[i].name &&
            (m.domains[i].resourcePolicy.Some? <==> HasDomainData(db.domains[i])) &&
            (HasDomainData(db.domains[i]) ==> m.domains[i].resourcePolicy == Some(DomainPolicyName(db.domains[i].name)) &&
                                              AutoDomainPolicy(db.domains[i]) in m.policies))
      && (forall i :: 0 <= i < |db.groups| ==>
            m.groups[i].id == db.groups[i].id &&
            (m.groups[i].resourcePolicy.Some? <==> HasGroupData(db.groups[i])) &&
            (HasGroupData(db.groups[i]) ==> m.groups[i].resourcePolicy == Some(GroupPolicyName(db.groups[i].name, db.groups[i].id)) &&
                                            AutoGroupPolicy(db.groups[i]) in m.policies))
      && (forall i :: 0 <= i < |db.policies| ==>
            m.policies[i] == WithRegistries(db.policies[i], [DefaultRegistry]) &&
            WithoutRegistries(m.policies[i]) == db.policies[i] &&
            m.policies[i].allowedDockerRegistries == [DefaultRegistry])
  {
    UpgradeShape(db);
    DomainAutosFacts(db.domains);
    GroupAutosFacts(db.groups);
  }

  // ---------------------------------------------------------------------
  // What the downgrade restores

  lemma {:induction false} DomainAutosFacts(ds: seq<LegacyDomain>)
    ensures forall i :: 0 <= i < |ds| && HasDomainData(ds[i]) ==> AutoDomainPolicy(ds[i]) in DomainAutos(ds)
    ensures forall i :: 0 <= i < |DomainAutos(ds)| ==> DomainPolicyPrefix <= DomainAutos(ds)[i].name
  {
    if ds != [] {
      var n := |ds| - 1;
      DomainAutosFacts(ds[..n]);
      assert forall i :: 0 <= i < n ==> ds[..n][i] == ds[i];
      AutoPoliciesCopyFields(ds[n], LegacyGroup("", "", map[], []));
    }
  }

  lemma {:induction false} GroupAutosFacts(gs: seq<LegacyGroup>)
    ensures forall i :: 0 <= i < |gs| && HasGroupData(gs[i]) ==> AutoGroupPolicy(gs[i]) in GroupAutos(gs)
    ensures forall i :: 0 <= i < |GroupAutos(gs)| ==> GroupPolicyPrefix <= GroupAutos(gs)[i].name
  {
    if gs != [] {
      var n := |gs| - 1;
      GroupAutosFacts(gs[..n]);
      assert forall i :: 0 <= i < n ==> gs[..n][i] == gs[i];
      AutoPoliciesCopyFields(LegacyDomain("", map[], [], []), gs[n]);
    }
  }

  /** With unique names the lookup by name finds the one policy of that name. */
  lemma {:induction false} FindUniquePolicy(ps: seq<KeyPairResourcePolicy>, p: KeyPairResourcePolicy)
    requires UniquePolicyNames(ps)
    requires p in ps
    ensures FindPolicy(ps, p.name) == Some(p)
  {
    if ps[0] != p {
      assert p in ps[1..];
      assert forall i, j :: 0 <= i < j < |ps[1..]| ==> ps[1..][i] == ps[i + 1] && ps[1..][j] == ps[j + 1];
      FindUniquePolicy(ps[1..], p);
    }
  }

  function GroupsRestored(snap: seq<GroupRef>, k: nat, init: seq<LegacyGroup>, ps: seq<KeyPairResourcePolicy>): seq<LegacyGroup>
  {
    seq(|init|, i requires 0 <= i < |init| =>
      if i < k && i < |snap| && GroupLookup(snap[i], ps).Ok? then RestoreGroup(init[i], GroupLookup(snap[i], ps).value) else init[i])
  }

  function DomainsRestored(snap: seq<DomainRef>, k: nat, init: seq<LegacyDomain>, ps: seq<KeyPairResourcePolicy>): seq<LegacyDomain>
  {
    seq(|init|, i requires 0 <= i < |init| =>
      if i < k && i < |snap| && DomainLookup(snap[i], ps).Ok? then RestoreDomain(init[i], DomainLookup(snap[i], ps).value) else init[i])
  }

  /** When the snapshot's names are unique, every row gets its own lookup. */
  lemma {:induction false} GroupsBackExact(snap: seq<GroupRef>, k: nat, init: seq<LegacyGroup>, ps: seq<KeyPairResourcePolicy>)
    requires k <= |snap| == |init|
    requires forall i, j :: 0 <= i < j < |snap| ==> snap[i].name != snap[j].name
    requires forall i :: 0 <= i < |snap| ==> init[i].name == snap[i].name
    requires forall i :: 0 <= i < k ==> GroupLookup(snap[i], ps).Ok?
    ensures GroupsBackUpTo(snap, k, init, ps) == Ok(GroupsRestored(snap, k, init, ps))
  {
    if k == 0 {
      assert GroupsRestored(snap, k, init, ps) == init;
    } else {
      GroupsBackExact(snap, k - 1, init, ps);
      var cur := GroupsRestored(snap, k - 1, init, ps);
      var v := GroupLookup(snap[k - 1], ps).value;
      assert SetGroupFieldsByName(cur, snap[k - 1].name, v) == GroupsRestored(snap, k, init, ps);
    }
  }

  lemma {:induction false} DomainsBackExact(snap: seq<DomainRef>, k: nat, init: seq<LegacyDomain>, ps: seq<KeyPairResourcePolicy>)
    requires k <= |snap| == |init|
    requires forall i, j :: 0 <= i < j < |snap| ==> snap[i].name != snap[j].name
    requires forall i :: 0 <= i < |snap| ==> init[i].name == snap[i].name
    requires forall i :: 0 <= i < k ==> DomainLookup(snap[i], ps).Ok?
    ensures DomainsBackUpTo(snap, k, init, ps) == Ok(DomainsRestored(snap, k, init, ps))
  {
    if k == 0 {
      assert DomainsRestored(snap, k, init, ps) == init;
    } else {
      DomainsBackExact(snap, k - 1, init, ps);
      var cur := DomainsRestored(snap, k - 1, init, ps);
      var v := DomainLookup(snap[k - 1], ps).value;
      assert SetDomainFieldsByName(cur, snap[k - 1].name, v) == DomainsRestored(snap, k, init, ps);
    }
  }

  /** The group loop of the downgrade gives back the legacy groups when
      every group with data finds its auto policy. */
  lemma GroupsRoundTrip(gs: seq<LegacyGroup>, ps: seq<KeyPairResourcePolicy>)
    requires UniqueGroupNames(gs) && UniquePolicyNames(ps)
    requires forall i :: 0 <= i < |gs| && HasGroupData(gs[i]) ==> AutoGroupPolicy(gs[i]) in ps
    ensures var snap := GroupRefsUpTo(gs, |gs|);
      GroupsBackUpTo(snap, |snap|, GroupsReAdded(snap), ps) == Ok(gs)
  {
    var snap := GroupRefsUpTo(gs, |gs|);
    forall i | 0 <= i < |gs|
      ensures GroupLookup(snap[i], ps) == Ok(GroupFields(gs[i].totalResourceSlots, gs[i].allowedVfolderHosts))
    {
      if HasGroupData(gs[i]) {
        FindUniquePolicy(ps, AutoGroupPolicy(gs[i]));
      }
    }
    GroupsBackExact(snap, |snap|, GroupsReAdded(snap), ps);
    assert GroupsRestored(snap, |snap|, GroupsReAdded(snap), ps) == gs;
  }

  lemma DomainsRoundTrip(ds: seq<LegacyDomain>, ps: seq<KeyPairResourcePolicy>)
    requires UniqueDomainNames(ds) && UniquePolicyNames(ps)
    requires forall i :: 0 <= i < |ds| && HasDomainData(ds[i]) ==> AutoDomainPolicy(ds[i]) in ps
    ensures var snap := DomainRefsUpTo(ds, |ds|);
      DomainsBackUpTo(snap, |snap|, DomainsReAdded(snap), ps) == Ok(ds)
  {
    var snap := DomainRefsUpTo(ds, |ds|);
    forall i | 0 <= i < |ds|
      ensures DomainLookup(snap[i], ps) == Ok(DomainFields(ds[i].totalResourceSlots, ds[i].allowedVfolderHosts, ds[i].allowedDockerRegistries))
    {
      if HasDomainData(ds[i]) {
        FindUniquePolicy(ps, AutoDomainPolicy(ds[i]));
      }
    }
    DomainsBackExact(snap, |snap|, DomainsReAdded(snap), ps);
    assert DomainsRestored(snap, |snap|, DomainsReAdded(snap), ps) == ds;
  }

  /** Deleting by a pattern that every name of `drop` matches and no name
      of `keep` matches leaves exactly `keep`. */
  lemma DeleteLikeSplit(keep: seq<KeyPairResourcePolicy>, drop: seq<KeyPairResourcePolicy>, pattern: string)
    requires forall i :: 0 <= i < |keep| ==> !Like(keep[i].name, pattern)
    requires forall i :: 0 <= i < |drop| ==> Like(drop[i].name, pattern)
    ensures DeleteLike(keep + drop, pattern) == keep
  {
    DeleteLikeConcat(keep, drop, pattern);
    DeleteLikeKeepsAll(keep, pattern);
    DeleteLikeDropsAll(drop, pattern);
    assert keep + [] == keep;
  }

  /** The auto domain policies match the domain pattern only. */
  lemma DomainAutosLike(ds: seq<LegacyDomain>)
    ensures forall i :: 0 <= i < |DomainAutos(ds)| ==>
      Like(DomainAutos(ds)[i].name, DomainPattern) && !Like(DomainAutos(ds)[i].name, GroupPattern)
  {
    var da := DomainAutos(ds);
    DomainAutosFacts(ds);
    forall i | 0 <= i < |da| ensures Like(da[i].name, DomainPattern) && !Like(da[i].name, GroupPattern) {
      DomainNameLike(da[i].name);
    }
  }

  /** The auto group policies match the group pattern. */
  lemma GroupAutosLike(gs: seq<LegacyGroup>)
    ensures forall i :: 0 <= i < |GroupAutos(gs)| ==> Like(GroupAutos(gs)[i].name, GroupPattern)
  {
    var ga := GroupAutos(gs);
    GroupAutosFacts(gs);
    forall i | 0 <= i < |ga| ensures Like(ga[i].name, GroupPattern) {
      GroupNameLike(ga[i].name);
    }
  }

  /** The two deletes remove exactly the auto policies, provided no other
      policy matches a pattern, and dropping the registries column gives
      back the legacy policies. */
  lemma PoliciesRoundTrip(db: LegacyDb)
    requires forall i :: 0 <= i < |db.policies| ==> !Like(db.policies[i].name, GroupPattern) && !Like(db.policies[i].name, DomainPattern)
    ensures var p0 := UpgradeStart(db).policies;
      var ps1 := DeleteLike(p0 + DomainAutos(db.domains) + GroupAutos(db.groups), GroupPattern);
      ps1 == p0 + DomainAutos(db.domains) && DropRegistries(DeleteLike(ps1, DomainPattern)) == db.policies
  {
    var p0 := UpgradeStart(db).policies;
    var da := DomainAutos(db.domains);
    var ga := GroupAutos(db.groups);
    assert forall i :: 0 <= i < |p0| ==> p0[i].name == db.policies[i].name;
    DomainAutosLike(db.domains);
    GroupAutosLike(db.groups);
    var keep := p0 + da;
    assert forall i :: 0 <= i < |keep| ==> !Like(keep[i].name, GroupPattern) by {
      forall i | 0 <= i < |keep| ensures !Like(keep[i].name, GroupPattern) {
        if i < |p0| {
          assert keep[i] == p0[i] && p0[i].name == db.policies[i].name;
          assert !Like(db.policies[i].name, GroupPattern);
        } else {
          assert keep[i] == da[i - |p0|];
          assert !Like(da[i - |p0|].name, GroupPattern);
        }
      }
    }
    DeleteLikeSplit(keep, ga, GroupPattern);
    assert forall i :: 0 <= i < |p0| ==> !Like(p0[i].name, DomainPattern) by {
      forall i | 0 <= i < |p0| ensures !Like(p0[i].name, DomainPattern) {
        assert p0[i].name == db.policies[i].name;
        assert !Like(db.policies[i].name, DomainPattern);
      }
    }
    DeleteLikeSplit(p0, da, DomainPattern);
    assert DropRegistries(p0) == db.policies;
  }

  /** Upgrade followed by downgrade restores the legacy database, when domain
      names, group ids and group names are unique and no existing policy name
      matches an auto-policy pattern. */
  lemma RoundTrip(db: LegacyDb)
    requires UniqueDomainNames(db.domains) && UniqueGroupIds(db.groups) && UniqueGroupNames(db.groups)
    requires UniqueLegacyPolicyNames(db.policies)
    requires forall i :: 0 <= i < |db.policies| ==> !Like(db.policies[i].name, GroupPattern) && !Like(db.policies[i].name, DomainPattern)
    requires UpgradeSpec(db).Ok?
    ensures DowngradeSpec(UpgradeSpec(db).value) == Ok(db)
  {
    UpgradeShape(db);
    UpgradedGroupsBack(db);
    UpgradedDomainsMissGroupPattern(db);
    UpgradedDomainsBack(db);
    PoliciesRoundTrip(db);
  }

  /** The group loop of the downgrade restores the legacy groups. */
  lemma UpgradedGroupsBack(db: LegacyDb)
    requires UniqueDomainNames(db.domains) && UniqueGroupIds(db.groups) && UniqueGroupNames(db.groups)
    requires UniqueLegacyPolicyNames(db.policies)
    requires UpgradeSpec(db).Ok?
    ensures var m := UpgradeSpec(db).value;
      GroupsBackUpTo(m.groups, |m.groups|, GroupsReAdded(m.groups), m.policies) == Ok(db.groups)
  {
    UpgradeShape(db);
    var m := UpgradeSpec(db).value;
    GroupAutosFacts(db.groups);
    assert forall p :: p in GroupAutos(db.groups) ==> p in m.policies;
    GroupsRoundTrip(db.groups, m.policies);
  }

  /** No upgraded domain refers to a policy the group delete would remove,
      so the downgrade's foreign key holds. */
  lemma UpgradedDomainsMissGroupPattern(db: LegacyDb)
    requires UniqueDomainNames(db.domains) && UniqueGroupIds(db.groups)
    requires UniqueLegacyPolicyNames(db.policies)
    requires UpgradeSpec(db).Ok?
    ensures !DomainReferencesLike(UpgradeSpec(db).value.domains, GroupPattern)
  {
    UpgradeShape(db);
    var m := UpgradeSpec(db).value;
    forall i | 0 <= i < |m.domains| && m.domains[i].resourcePolicy.Some?
      ensures !Like(m.domains[i].resourcePolicy.value, GroupPattern)
    {
      AutoPoliciesCopyFields(db.domains[i], LegacyGroup("", "", map[], []));
      DomainNameLike(m.domains[i].resourcePolicy.value);
    }
  }

  /** The domain loop of the downgrade, over the policies left by the group
      delete, restores the legacy domains. */
  lemma UpgradedDomainsBack(db: LegacyDb)
    requires UniqueDomainNames(db.domains) && UniqueGroupIds(db.groups)
    requires UniqueLegacyPolicyNames(db.policies)
    requires forall i :: 0 <= i < |db.policies| ==> !Like(db.policies[i].name, GroupPattern) && !Like(db.policies[i].name, DomainPattern)
    requires UpgradeSpec(db).Ok?
    ensures var m := UpgradeSpec(db).value;
      DomainsBackUpTo(m.domains, |m.domains|, DomainsReAdded(m.domains), DeleteLike(m.policies, GroupPattern)) == Ok(db.domains)
  {
    UpgradeShape(db);
    var m := UpgradeSpec(db).value;
    var da := DomainAutos(db.domains);
    DomainAutosFacts(db.domains);
    PoliciesRoundTrip(db);
    var ps1 := UpgradeStart(db).policies + da;
    assert m.policies == ps1 + GroupAutos(db.groups);
    assert forall i :: 0 <= i < |ps1| ==> ps1[i] == m.policies[i];
    assert UniquePolicyNames(ps1);
    assert forall p :: p in da ==> p in ps1;
    DomainsRoundTrip(db.domains, ps1);
  }

  /** The last of the first `k` snapshot rows with this name. */
  function LastNamed(snap: seq<GroupRef>, k: nat, name: string): (r: Option<nat>)
    requires k <= |snap|
    ensures r.Some? ==> (r.value < k && snap[r.value].name == name && forall j :: r.value < j < k ==> snap[j].name != name)
    ensures r.None? ==> forall j :: 0 <= j < k ==> snap[j].name != name
  {
    if k == 0 then None
    else if snap[k - 1].name == name then Some(k - 1)
    else LastNamed(snap, k - 1, name)
  }

  /** One group after the first `k` snapshot rows: the values of the last
      row with its name, if that row found its policy. */
  function LastWinsRow(snap: seq<GroupRef>, k: nat, g: LegacyGroup, ps: seq<KeyPairResourcePolicy>): LegacyGroup
    requires k <= |snap|
  {
    match LastNamed(snap, k, g.name)
    case None => g
    case Some(j) => if GroupLookup(snap[j], ps).Ok? then RestoreGroup(g, GroupLookup(snap[j], ps).value) else g
  }

  function LastWinsRestored(snap: seq<GroupRef>, k: nat, init: seq<LegacyGroup>, ps: seq<KeyPairResourcePolicy>): seq<LegacyGroup>
    requires k <= |snap|
  {
    seq(|init|, i requires 0 <= i < |init| => LastWinsRow(snap, k, init[i], ps))
  }

  /** One more processed row overwrites exactly the groups of its name. */
  lemma LastWinsRowStep(snap: seq<GroupRef>, k: nat, g: LegacyGroup, ps: seq<KeyPairResourcePolicy>)
    requires 0 < k <= |snap|
    requires GroupLookup(snap[k - 1], ps).Ok?
    ensures var cur := LastWinsRow(snap, k - 1, g, ps);
      cur.name == g.name &&
      LastWinsRow(snap, k, g, ps) ==
        if g.name == snap[k - 1].name then RestoreGroup(cur, GroupLookup(snap[k - 1], ps).value) else cur
  {
  }

  /** Because the downgrade updates groups by name, every group ends up with
      the values of the last processed group of the same name, whichever
      domain either belongs to. */
  lemma {:induction false} GroupsBackLastWins(snap: seq<GroupRef>, k: nat, init: seq<LegacyGroup>, ps: seq<KeyPairResourcePolicy>)
    requires k <= |snap| == |init|
    requires forall i :: 0 <= i < |snap| ==> init[i].name == snap[i].name
    requires forall i :: 0 <= i < k ==> GroupLookup(snap[i], ps).Ok?
    ensures GroupsBackUpTo(snap, k, init, ps) == Ok(LastWinsRestored(snap, k, init, ps))
  {
    if k == 0 {
      assert LastWinsRestored(snap, k, init, ps) == init;
    } else {
      GroupsBackLastWins(snap, k - 1, init, ps);
      var cur := LastWinsRestored(snap, k - 1, init, ps);
      var g := snap[k - 1];
      var v := GroupLookup(g, ps).value;
      var next := SetGroupFieldsByName(cur, g.name, v);
      forall i | 0 <= i < |init| ensures next[i] == LastWinsRestored(snap, k, init, ps)[i] {
        LastWinsRowStep(snap, k, init[i], ps);
      }
      assert next == LastWinsRestored(snap, k, init, ps);
    }
  }
}
