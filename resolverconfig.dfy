/**
 * grpcx/grpcresolver: the service-config items the resolver understands,
 * dial-target validation, and the subset-style Metadata equality.
 */
module ResolverConfig {
  import opened Wrappers
  import opened Component

  // ------------------------------------------------------------ config.go

  /** The two items of a service's configuration that the resolver reads. */
  datatype ServiceConfig = ServiceConfig(loadBalancingConfig: string, grayReleaseConfig: string)

  const LoadBalancingConfigKey := "LoadBalancingConfig"
  const GrayReleaseConfigKey := "GrayReleaseConfig"

  /** Index of the last item keyed `key`, or -1 if there is none. */
  function LastKeyIndex(scs: seq<ConfigItem>, key: string): (i: int)
    ensures -1 <= i < |scs|
    ensures 0 <= i ==> scs[i].key == key
    ensures forall j :: i < j < |scs| ==> scs[j].key != key
  {
    if |scs| == 0 then -1
    else if scs[|scs| - 1].key == key then |scs| - 1
    else LastKeyIndex(scs[..|scs| - 1], key)
  }

  /** The value of the last item keyed `key`, or "" if no item has that key. */
  function LastValue(scs: seq<ConfigItem>, key: string): (v: string)
    ensures (forall j :: 0 <= j < |scs| ==> scs[j].key != key) ==> v == ""
  {
    var i := LastKeyIndex(scs, key);
    if i < 0 then "" else scs[i].value
  }

  /** The configuration the items describe. */
  function ConfigOf(scs: seq<ConfigItem>): ServiceConfig {
    ServiceConfig(LastValue(scs, LoadBalancingConfigKey), LastValue(scs, GrayReleaseConfigKey))
  }

  /** parseServiceConfig: each item keyed LoadBalancingConfig or GrayReleaseConfig overwrites that field. */
  method ParseServiceConfig(scs: seq<ConfigItem>) returns (sc: ServiceConfig)
    ensures sc == ConfigOf(scs)
  {
    sc := ServiceConfig("", "");
    var i := 0;
    while i < |scs|
      invariant 0 <= i <= |scs|
      invariant sc == ConfigOf(scs[..i])
    {
      assert scs[..i + 1][..i] == scs[..i];
      if scs[i].key == LoadBalancingConfigKey {
        sc := sc.(loadBalancingConfig := scs[i].value);
      } else if scs[i].key == GrayReleaseConfigKey {
        sc := sc.(grayReleaseConfig := scs[i].value);
      }
      i := i + 1;
    }
    assert scs[..i] == scs;
  }

  /** A later item with a recognised key wins over every earlier one. */
  lemma LastItemWins(scs: seq<ConfigItem>, value: string)
    ensures ConfigOf(scs + [ConfigItem(LoadBalancingConfigKey, value)]).loadBalancingConfig == value
    ensures ConfigOf(scs + [ConfigItem(GrayReleaseConfigKey, value)]).grayReleaseConfig == value
    ensures ConfigOf(scs + [ConfigItem(LoadBalancingConfigKey, value)]).grayReleaseConfig == ConfigOf(scs).grayReleaseConfig
    ensures ConfigOf(scs + [ConfigItem(GrayReleaseConfigKey, value)]).loadBalancingConfig == ConfigOf(scs).loadBalancingConfig
  {
    assert (scs + [ConfigItem(LoadBalancingConfigKey, value)])[..|scs|] == scs;
    assert (scs + [ConfigItem(GrayReleaseConfigKey, value)])[..|scs|] == scs;
  }

  /** Items with any other key are ignored. */
  lemma OtherKeysIgnored(scs: seq<ConfigItem>, item: ConfigItem)
    requires item.key != LoadBalancingConfigKey && item.key != GrayReleaseConfigKey
    ensures ConfigOf(scs + [item]) == ConfigOf(scs)
  {
    assert (scs + [item])[..|scs|] == scs;
  }

  /** Without items the configuration is empty. */
  lemma NoItemsNoConfig()
    ensures ConfigOf([]) == ServiceConfig("", "")
  {
  }

  // ------------------------------------------------------------ target.go

  /** The parts of a dial target's URL the resolver reads; the query is already parsed. */
  datatype Url = Url(host: string, path: string, query: map<string, seq<string>>)

  datatype Target = Target(url: Url)

  datatype TargetInfo = TargetInfo(instanceName: string, serviceName: string, domain: string, target: Target)

  const InvalidAuthority := "could not parse target. Invalid Authority"
  const InvalidEndpoint := "could not parse target. Invalid Endpoint"

  /** parseResolverTarget: the URL must have a host (the service name) and a path; the host is checked first. */
  function ParseResolverTarget(target: Target): (r: Result<TargetInfo, string>)
    ensures target.url.host == "" ==> r == Err(InvalidAuthority)
    ensures target.url.host != "" && target.url.path == "" ==> r == Err(InvalidEndpoint)
    ensures r.Ok? <==> target.url.host != "" && target.url.path != ""
    ensures r.Ok? ==> r.value.serviceName == target.url.host && r.value.target == target
    ensures r.Ok? ==> r.value.instanceName == "" && r.value.domain == ""
  {
    if target.url.host == "" then Err(InvalidAuthority)
    else if target.url.path == "" then Err(InvalidEndpoint)
    else Ok(TargetInfo("", target.url.host, "", target))
  }

  /** url.Values.Get: the first value under the key, or "". */
  function QueryGet(query: map<string, seq<string>>, key: string): (v: string)
    ensures key !in query || |query[key]| == 0 ==> v == ""
    ensures key in query && |query[key]| > 0 ==> v == query[key][0]
  {
    if key in query && |query[key]| > 0 then query[key][0] else ""
  }

  // ------------------------------------------------------------ util.go

  /** The dynamic value handed to Metadata.Equal: a Metadata map or anything else. */
  datatype Value = MetadataValue(m: map<string, string>) | OtherValue

  /** Metadata.Equal: every key of the receiver is present in the argument with an equal value. */
  predicate MetadataEqual(m: map<string, string>, o: Value) {
    match o
    case OtherValue => false
    case MetadataValue(old_) => forall k :: k in m ==> k in old_ && old_[k] == m[k]
  }

  /** Metadata.Equal: the type assertion, then the loop over the receiver's keys, stopping at the first miss. */
  method Equal(m: map<string, string>, o: Value) returns (r: bool)
    ensures r == MetadataEqual(m, o)
  {
    if o.OtherValue? {
      return false;
    }
    var old_ := o.m;
    var rest := m.Keys;
    while rest != {}
      invariant rest <= m.Keys
      invariant forall k :: k in m && k !in rest ==> k in old_ && old_[k] == m[k]
      decreases rest
    {
      var k :| k in rest;
      if k !in old_ {
        return false;
      }
      if old_[k] != m[k] {
        return false;
      }
      rest := rest - {k};
    }
    return true;
  }

  /** The sub-map relation is transitive. */
  lemma MetadataEqualTrans(a: map<string, string>, b: map<string, string>, c: map<string, string>)
    requires MetadataEqual(a, MetadataValue(b)) && MetadataEqual(b, MetadataValue(c))
    ensures MetadataEqual(a, MetadataValue(c))
  {
  }

  /** Reflexive; an empty receiver equals any Metadata; keys only in the argument are ignored. */
  lemma MetadataEqualLaws(m: map<string, string>, o: map<string, string>, k: string, v: string)
    ensures MetadataEqual(m, MetadataValue(m))
    ensures MetadataEqual(map[], MetadataValue(o))
    ensures k !in m && MetadataEqual(m, MetadataValue(o)) ==> MetadataEqual(m, MetadataValue(o[k := v]))
    ensures !MetadataEqual(m, OtherValue)
  {
  }

  /** The relation is not symmetric. */
  lemma MetadataEqualNotSymmetric()
    ensures MetadataEqual(map[], MetadataValue(map["a" := "b"]))
    ensures !MetadataEqual(map["a" := "b"], MetadataValue(map[]))
  {
    assert "a" in map["a" := "b"];
  }
}
