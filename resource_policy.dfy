/** Keypair resource policies, as the administration models read them, and
    the legacy-field resolvers that groups and domains answer from their
    policy. */
module ResourcePolicy {
  import opened Common

  datatype DefaultForUnspecified = Limited | Unlimited

  datatype KeyPairResourcePolicy = KeyPairResourcePolicy(
    name: string,
    defaultForUnspecified: DefaultForUnspecified,
    totalResourceSlots: map<string, string>,
    maxConcurrentSessions: int,
    maxContainersPerSession: int,
    maxVfolderCount: int,
    maxVfolderSize: int,
    idleTimeout: int,
    allowedVfolderHosts: seq<string>,
    allowedDockerRegistries: seq<string>)

  /** The first policy with the given name (the name is the primary key). */
  function FindPolicy(table: seq<KeyPairResourcePolicy>, name: string): (r: Option<KeyPairResourcePolicy>)
    ensures r.Some? ==> r.value in table && r.value.name == name
    ensures r.None? ==> forall p :: p in table ==> p.name != name
  {
    if table == [] then None
    else if table[0].name == name then Some(table[0])
    else FindPolicy(table[1..], name)
  }

  /** `KeyPairResourcePolicy.batch_load_by_name`: one slot per requested
      name, None where no policy has it. That loader is not part of this
      model; this is the behaviour the resolvers rely on. */
  function BatchLoadPolicies(table: seq<KeyPairResourcePolicy>, names: seq<string>): (r: seq<Option<KeyPairResourcePolicy>>)
    ensures |r| == |names|
    ensures forall i :: 0 <= i < |r| ==> r[i] == FindPolicy(table, names[i])
  {
    seq(|names|, i requires 0 <= i < |names| => FindPolicy(table, names[i]))
  }

  /** A legacy JSON field as the GraphQL layer returns it: either an object
      of slot amounts or a list of names. Groups answer `[]` for slots when
      they have no policy, domains answer `{}`. */
  datatype LegacyValue = Slots(slots: map<string, string>) | Names(names: seq<string>)

  /** The shape every legacy resolver has: no policy gives `noPolicy`;
      otherwise the policy is loaded by name and `field` of the first loaded
      entry is returned, `fallback` if nothing was loaded. A name the loader
      does not find leaves None in that first slot, and reading a field of
      None is an AttributeError. */
  function ResolveLegacy(resourcePolicy: Option<string>, table: seq<KeyPairResourcePolicy>,
                         field: KeyPairResourcePolicy -> LegacyValue,
                         noPolicy: LegacyValue, fallback: LegacyValue): (r: Result<LegacyValue, string>)
  {
    match resourcePolicy
    case None => Ok(noPolicy)
    case Some(name) =>
      var policies := BatchLoadPolicies(table, [name]);
      if |policies| > 0 then
        match policies[0]
        case None => Err("AttributeError")
        case Some(p) => Ok(field(p))
      else Ok(fallback)
  }

  /** With no policy the resolver answers its default; with one it answers
      that policy's field; a dangling policy name is an AttributeError. */
  lemma ResolveLegacyCases(resourcePolicy: Option<string>, table: seq<KeyPairResourcePolicy>,
                           field: KeyPairResourcePolicy -> LegacyValue, noPolicy: LegacyValue, fallback: LegacyValue)
    ensures resourcePolicy.None? ==> ResolveLegacy(resourcePolicy, table, field, noPolicy, fallback) == Ok(noPolicy)
    ensures resourcePolicy.Some? && FindPolicy(table, resourcePolicy.value).Some? ==>
      ResolveLegacy(resourcePolicy, table, field, noPolicy, fallback) == Ok(field(FindPolicy(table, resourcePolicy.value).value))
    ensures resourcePolicy.Some? && FindPolicy(table, resourcePolicy.value).None? ==>
      ResolveLegacy(resourcePolicy, table, field, noPolicy, fallback) == Err("AttributeError")
  {
    if resourcePolicy.Some? {
      var policies := BatchLoadPolicies(table, [resourcePolicy.value]);
      assert policies[0] == FindPolicy(table, resourcePolicy.value);
    }
  }

  function SlotsField(p: KeyPairResourcePolicy): LegacyValue { Slots(p.totalResourceSlots) }
  function HostsField(p: KeyPairResourcePolicy): LegacyValue { Names(p.allowedVfolderHosts) }
  function RegistriesField(p: KeyPairResourcePolicy): LegacyValue { Names(p.allowedDockerRegistries) }
}
