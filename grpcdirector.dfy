/**
 * grpcx/grpcdirector: deriving the target app of a proxied call from its
 * method name and metadata, and the two directors built on it.
 */
module GrpcDirector {
  import opened Wrappers
  import opened Text
  import opened GrpcStatus
  import opened GrpcMetadata

  const SgrAppNameMetaKey := "sgr-app-name"
  const SgrAppIDMetaKey := "sgr-app-id"
  const SgrBalancerMetaKey := "sgr-balancer"

  /** The run-time panics of resolveAppName. */
  datatype Panic =
    | IndexOutOfRange(key: string)           // a present key with an empty value list, indexed at 0
    | BadFullMethodName(fullMethodName: string)
    | SliceOutOfRange(appServiceName: string) // no "." in the service part

  /** md[key][0] when the key is present; a present key with no values panics. */
  function FirstValue(md: MD, key: string): (r: Result<Option<string>, Panic>)
    ensures key !in md ==> r == Ok(None)
    ensures key in md && |md[key]| == 0 ==> r == Err(IndexOutOfRange(key))
    ensures key in md && |md[key]| > 0 ==> r == Ok(Some(md[key][0]))
  {
    if key !in md then Ok(None)
    else if |md[key]| == 0 then Err(IndexOutOfRange(key))
    else Ok(Some(md[key][0]))
  }

  /**
   * resolveAppName: the app id from "sgr-app-id" (or ""), and the app name
   * from "sgr-app-name" if present, else from the method name
   * "/<package>.<Service>/<Method>" as <package>.
   */
  function ResolveAppName(fullMethodName: string, md: MD): (r: Result<(string, string), Panic>)
    ensures r.Ok? && SgrAppIDMetaKey in md ==> |md[SgrAppIDMetaKey]| > 0 && r.value.1 == md[SgrAppIDMetaKey][0]
    ensures r.Ok? && SgrAppIDMetaKey !in md ==> r.value.1 == ""
    ensures r.Ok? && SgrAppNameMetaKey in md ==> |md[SgrAppNameMetaKey]| > 0 && r.value.0 == md[SgrAppNameMetaKey][0]
    ensures SgrAppIDMetaKey in md && |md[SgrAppIDMetaKey]| == 0 ==> r == Err(IndexOutOfRange(SgrAppIDMetaKey))
    ensures r.Ok? && SgrAppNameMetaKey !in md ==>
      HasPrefix(TrimPrefix(fullMethodName, "/"), r.value.0 + ".") && '/' !in r.value.0
    ensures FirstValue(md, SgrAppIDMetaKey).Ok? && SgrAppNameMetaKey in md ==>
      (|md[SgrAppNameMetaKey]| == 0 <==> r == Err(IndexOutOfRange(SgrAppNameMetaKey))) &&
      (|md[SgrAppNameMetaKey]| > 0 <==> r.Ok?)
    ensures FirstValue(md, SgrAppIDMetaKey).Ok? && SgrAppNameMetaKey !in md ==>
      var (svc, _, found) := Cut(TrimPrefix(fullMethodName, "/"), '/');
      && (!found ==> r == Err(BadFullMethodName(fullMethodName)))
      && (found && LastIndex(svc, '.') < 0 ==> r == Err(SliceOutOfRange(svc)))
      && (found && LastIndex(svc, '.') >= 0 ==> r.Ok? && r.value.0 == svc[..LastIndex(svc, '.')])
  {
    match FirstValue(md, SgrAppIDMetaKey)
    case Err(p) => Err(p)
    case Ok(id) =>
      var appID := if id.Some? then id.value else "";
      match FirstValue(md, SgrAppNameMetaKey)
      case Err(p) => Err(p)
      case Ok(Some(name)) => Ok((name, appID))
      case Ok(None) =>
        var trimmed := TrimPrefix(fullMethodName, "/");
        var (appServiceName, _, founded) := Cut(trimmed, '/');
        if !founded then Err(BadFullMethodName(fullMethodName))
        else
          var pos := LastIndex(appServiceName, '.');
          if pos < 0 then Err(SliceOutOfRange(appServiceName))
          else
            CutSplit(trimmed, appServiceName, pos);
            Ok((appServiceName[..pos], appID))
  }

  /** How Cut and LastIndex decompose the trimmed method name. */
  lemma CutSplit(trimmed: string, appServiceName: string, pos: int)
    requires Cut(trimmed, '/').2 && appServiceName == Cut(trimmed, '/').0
    requires pos == LastIndex(appServiceName, '.') && pos >= 0
    ensures HasPrefix(trimmed, appServiceName[..pos] + ".") && '/' !in appServiceName[..pos]
  {
    assert appServiceName[..pos] + "." == appServiceName[..pos + 1];
    assert trimmed[..pos + 1] == appServiceName[..pos + 1];
    assert forall k :: 0 <= k < pos ==> appServiceName[..pos][k] == appServiceName[k];
  }

  /** The last '.' of "<p>.<s>" is the one after p when s has no '.'. */
  lemma LastDot(p: string, s: string)
    requires '.' !in s
    ensures LastIndex(p + "." + s, '.') == |p|
  {
    var q := p + ".";
    var t := q + s;
    assert |q| == |p| + 1 && q[|p|] == '.';
    assert t[|p|] == '.';
    forall j | |q| <= j < |t| ensures t[j] != '.' {
      assert t[j] == s[j - |q|];
    }
    LastIndexAt(t, '.', |p|);
  }

  /**
   * Without "sgr-app-name", a resolved app name is the service part of the
   * method name up to its last '.': the rest after that '.' has no '.', and
   * the service part has no '/'.
   */
  lemma {:induction false} NameBeforeLastDot(fullMethodName: string, md: MD)
    requires ResolveAppName(fullMethodName, md).Ok? && SgrAppNameMetaKey !in md
    ensures var svc := Cut(TrimPrefix(fullMethodName, "/"), '/').0;
      var name := ResolveAppName(fullMethodName, md).value.0;
      && |name| < |svc| && svc == name + "." + svc[|name| + 1..]
      && '.' !in svc[|name| + 1..] && '/' !in svc
  {
    var r := ResolveAppName(fullMethodName, md);
    var c := Cut(TrimPrefix(fullMethodName, "/"), '/');
    var pos := LastIndex(c.0, '.');
    assert c.2 && pos >= 0 && r.value.0 == c.0[..pos];
    LastDotSplit(c.0, pos);
  }

  /** A string splits at its last '.' into the part before, the '.', and a dot-free rest. */
  lemma LastDotSplit(svc: string, pos: int)
    requires pos == LastIndex(svc, '.') && pos >= 0
    ensures |svc[..pos]| == pos && svc == svc[..pos] + "." + svc[pos + 1..] && '.' !in svc[pos + 1..]
  {
    assert svc == svc[..pos] + [svc[pos]] + svc[pos + 1..];
  }

  /** For a method name built from a package, a dot-free service and a method, the package is the app name. */
  lemma {:induction false} ResolveFromMethodName(pkg: string, service: string, methodName: string, md: MD)
    requires '/' !in pkg && '/' !in service && '.' !in service
    requires SgrAppNameMetaKey !in md && SgrAppIDMetaKey !in md
    ensures ResolveAppName("/" + pkg + "." + service + "/" + methodName, md) == Ok((pkg, ""))
  {
    var s1 := pkg + "." + service;
    assert "/" + pkg + "." + service + "/" + methodName == "/" + (s1 + "/" + methodName);
    assert '/' !in s1;
    CutAtFirst(s1, methodName, '/');
    LastDot(pkg, service);
    assert s1[..|pkg|] == pkg;
  }

  /** The case of the package's own test: "/mtx.sample.v1.Sample/TestUnary" with no metadata. */
  lemma ResolveExample()
    ensures ResolveAppName("/mtx.sample.v1.Sample/TestUnary", map[]) == Ok(("mtx.sample.v1", ""))
  {
    assert "/mtx.sample.v1.Sample/TestUnary" == "/" + "mtx.sample.v1" + "." + "Sample" + "/" + "TestUnary";
    ResolveFromMethodName("mtx.sample.v1", "Sample", "TestUnary", map[]);
  }

  // ------------------------------------------------------------ directors

  /** The balancer hint of ProxyDirector: "AppID." + appID when there is an app id, else the first "sgr-balancer" value, else "". */
  function ProxyBalancer(md: MD, appID: string): (r: Result<string, Panic>)
    ensures appID != "" ==> r == Ok("AppID." + appID)
    ensures appID == "" && SgrBalancerMetaKey !in md ==> r == Ok("")
    ensures appID == "" && SgrBalancerMetaKey in md && |md[SgrBalancerMetaKey]| > 0 ==> r == Ok(md[SgrBalancerMetaKey][0])
    ensures appID == "" && SgrBalancerMetaKey in md && |md[SgrBalancerMetaKey]| == 0 ==> r.Err?
  {
    if appID != "" then Ok("AppID." + appID)
    else match FirstValue(md, SgrBalancerMetaKey)
      case Err(p) => Err(p)
      case Ok(b) => Ok(if b.Some? then b.value else "")
  }

  /** What a director hands back: the outgoing metadata (None for a nil context), a connection and an error. */
  datatype Direction<C, E> = Direction(outgoing: Option<MD>, conn: Option<C>, err: Option<E>)

  /**
   * ProxyDirector.Director: the outgoing context carries a copy of the
   * incoming metadata; clientFunc is called with the app name and balancer
   * hint and its connection and error are returned unchanged.
   */
  function ProxyDirect<C, E>(clientFunc: (string, string) -> (Option<C>, Option<E>), md: MD, fullMethodName: string)
    : (r: Result<Direction<C, E>, Panic>)
    ensures ResolveAppName(fullMethodName, md).Err? ==> r == Err(ResolveAppName(fullMethodName, md).error)
    ensures r.Ok? ==> r.value.outgoing == Some(md)
    ensures r.Ok? ==>
      && ResolveAppName(fullMethodName, md).Ok?
      && var (app, appID) := ResolveAppName(fullMethodName, md).value;
      && ProxyBalancer(md, appID).Ok?
      && (r.value.conn, r.value.err) == clientFunc(app, ProxyBalancer(md, appID).value)
    ensures ResolveAppName(fullMethodName, md).Ok? && ProxyBalancer(md, ResolveAppName(fullMethodName, md).value.1).Ok? ==> r.Ok?
  {
    match ResolveAppName(fullMethodName, md)
    case Err(p) => Err(p)
    case Ok((app, appID)) =>
      match ProxyBalancer(md, appID)
      case Err(p) => Err(p)
      case Ok(balancer) =>
        var (conn, err) := clientFunc(app, balancer);
        Ok(Direction(Some(md), conn, err))
  }

  /** ReverseProxyDirector: a director bound at construction to one service name and one upstream connection. */
  datatype ReverseProxyDirector<C> = ReverseProxyDirector(serviceName: string, upstream: C) {
    /**
     * Director: a call for another app is refused with Unimplemented "Unknown
     * method" and no context or connection; otherwise the fixed upstream and
     * the copied metadata are returned. The app id is ignored.
     */
    function Director(md: MD, fullMethodName: string): (r: Result<Direction<C, Status>, Panic>)
      ensures ResolveAppName(fullMethodName, md).Err? <==> r.Err?
      ensures r.Ok? && ResolveAppName(fullMethodName, md).value.0 != serviceName ==>
        r.value == Direction(None, None, Some(Status(Unimplemented, "Unknown method")))
      ensures r.Ok? && ResolveAppName(fullMethodName, md).value.0 == serviceName ==>
        r.value == Direction(Some(md), Some(upstream), None)
    {
      match ResolveAppName(fullMethodName, md)
      case Err(p) => Err(p)
      case Ok((app, _)) =>
        if app != serviceName then Ok(Direction(None, None, Some(Status(Unimplemented, "Unknown method"))))
        else Ok(Direction(Some(md), Some(upstream), None))
    }
  }

  /** The app id never influences the reverse director. */
  lemma ReverseIgnoresAppID<C>(d: ReverseProxyDirector<C>, md: MD, fullMethodName: string, id: string)
    requires SgrAppIDMetaKey in md && |md[SgrAppIDMetaKey]| > 0
    ensures d.Director(md[SgrAppIDMetaKey := [id]], fullMethodName).Ok? == d.Director(md, fullMethodName).Ok?
    ensures d.Director(md[SgrAppIDMetaKey := [id]], fullMethodName).Ok? ==>
      d.Director(md[SgrAppIDMetaKey := [id]], fullMethodName).value.conn == d.Director(md, fullMethodName).value.conn
  {
    var md2 := md[SgrAppIDMetaKey := [id]];
    assert SgrAppNameMetaKey != SgrAppIDMetaKey;
    assert (SgrAppNameMetaKey in md2) == (SgrAppNameMetaKey in md);
  }
}
