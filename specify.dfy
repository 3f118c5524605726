/**
 * grpcx/balancer/specify: a picker that routes a call to the ready SubConn
 * whose address carries the balancer attribute named in the call's
 * "Specify-Policy" metadata ("KEY=VALUE").
 */
module SpecifyPicker {
  import opened Wrappers
  import opened Text
  import opened GrpcStatus
  import opened GrpcMetadata

  const PolicyMetadataKey := "Specify-Policy"

  const NoMetadataMessage := "balancer specify: 无法获取metadata"
  const EmptyPolicyMessage := "balancer specify: policy为空"
  const BadPolicyMessage := "balancer specify: policy格式错误"

  /** A balancer attribute value: a string, or a value of any other type. */
  datatype AttrValue = Str(s: string) | NonStr

  /** What the picker knows of a ready SubConn: the balancer attributes of its address. */
  datatype SubConnInfo = SubConnInfo(balancerAttributes: map<string, AttrValue>)

  datatype PickerBuildInfo<S> = PickerBuildInfo(readySCs: map<S, SubConnInfo>)

  /** A pick that failed: a status error, or balancer.ErrNoSubConnAvailable. */
  datatype PickError = StatusError(status: Status) | ErrNoSubConnAvailable

  datatype Picker<S> = Picker(scs: map<S, SubConnInfo>)

  /** PickBuilder.Build: the picker holds exactly the ready SubConns of the build info. */
  function Build<S>(info: PickerBuildInfo<S>): (p: Picker<S>)
    ensures p.scs.Keys == info.readySCs.Keys
    ensures forall s :: s in p.scs ==> p.scs[s] == info.readySCs[s]
  {
    Picker(info.readySCs)
  }

  /** firstOrEmpty: the first value, or "" for none. */
  function FirstOrEmpty(x: seq<string>): (r: string)
    ensures |x| > 0 ==> r == x[0]
    ensures |x| == 0 ==> r == ""
  {
    if |x| == 0 then "" else x[0]
  }

  /**
   * The policy of a call: the first "Specify-Policy" value split at its
   * first "=" into the attribute key and the wanted value, or the
   * InvalidArgument error Pick reports.
   */
  function ParsePolicy(md: Option<MD>): (r: Result<(string, string), Status>)
    ensures md.None? ==> r == Err(Status(InvalidArgument, NoMetadataMessage))
    ensures md.Some? && FirstOrEmpty(Get(md.value, PolicyMetadataKey)) == "" ==>
      r == Err(Status(InvalidArgument, EmptyPolicyMessage))
    ensures md.Some? && FirstOrEmpty(Get(md.value, PolicyMetadataKey)) != "" && '=' !in FirstOrEmpty(Get(md.value, PolicyMetadataKey)) ==>
      r == Err(Status(InvalidArgument, BadPolicyMessage))
    ensures r.Ok? ==> md.Some? && FirstOrEmpty(Get(md.value, PolicyMetadataKey)) == r.value.0 + "=" + r.value.1
    ensures r.Ok? ==> '=' !in r.value.0
  {
    if md.None? then Err(Status(InvalidArgument, NoMetadataMessage))
    else
      var policy := FirstOrEmpty(Get(md.value, PolicyMetadataKey));
      if policy == "" then Err(Status(InvalidArgument, EmptyPolicyMessage))
      else
        var (key, value, found) := Cut(policy, '=');
        if !found then Err(Status(InvalidArgument, BadPolicyMessage))
        else Ok((key, value))
  }

  /** A SubConn matches when its attribute under key is a string equal to value. */
  predicate Matches(info: SubConnInfo, key: string, value: string) {
    key in info.balancerAttributes && info.balancerAttributes[key] == Str(value)
  }

  /**
   * Picker.Pick: a malformed policy gives its InvalidArgument error; otherwise
   * some ready SubConn that matches the policy, or ErrNoSubConnAvailable when
   * none does. Which of several matching SubConns is taken follows map order
   * and is not fixed.
   */
  method Pick<S>(p: Picker<S>, md: Option<MD>) returns (r: Result<S, PickError>)
    ensures ParsePolicy(md).Err? ==> r == Err(StatusError(ParsePolicy(md).error))
    ensures r.Ok? ==>
      && ParsePolicy(md).Ok?
      && r.value in p.scs
      && Matches(p.scs[r.value], ParsePolicy(md).value.0, ParsePolicy(md).value.1)
    ensures r == Err(ErrNoSubConnAvailable) <==>
      ParsePolicy(md).Ok? && forall s :: s in p.scs ==> !Matches(p.scs[s], ParsePolicy(md).value.0, ParsePolicy(md).value.1)
  {
    var policy := ParsePolicy(md);
    if policy.Err? {
      return Err(StatusError(policy.error));
    }
    var (key, value) := policy.value;
    var rest := p.scs.Keys;
    while rest != {}
      invariant rest <= p.scs.Keys
      invariant forall s :: s in p.scs && s !in rest ==> !Matches(p.scs[s], key, value)
      decreases |rest|
    {
      var s :| s in rest;
      var info := p.scs[s];
      if key in info.balancerAttributes && info.balancerAttributes[key].Str? {
        if info.balancerAttributes[key].s == value {
          return Ok(s);
        }
      }
      rest := rest - {s};
    }
    return Err(ErrNoSubConnAvailable);
  }

  /**
   * A policy written as key + "=" + value with no "=" in the key parses back
   * to that key and value, whatever the value holds (it may contain "=").
   */
  lemma {:induction false} ParsePolicyOfPair(md: MD, key: string, value: string)
    requires '=' !in key
    requires |Get(md, PolicyMetadataKey)| > 0 && Get(md, PolicyMetadataKey)[0] == key + "=" + value
    ensures ParsePolicy(Some(md)) == Ok((key, value))
  {
    CutAtFirst(key, value, '=');
  }
}
