/**
 * grpcx/grpcresolver/resolver.go: the discovery-backed gRPC resolver. It
 * turns a discovery snapshot into an address list, pushes it to the client
 * connection, and keeps doing so from a watch loop.
 */
module Resolver {
  import opened Wrappers
  import opened Text
  import opened Component
  import opened ResolverConfig
  import GrayRelease
  import SliceMap

  /** The endpoint prefix used unless the target's `schema` query parameter is set. */
  const DefaultEndpointSchema := "grpc://"
  /** How long an empty snapshot waits before it is pushed, in minutes. */
  const DefaultUpdateEmptyConnStateDelayMinutes := 5

  /** resolver.Address, with the attribute sets as plain maps. */
  datatype Address = Address(
    addr: string,
    serverName: string,
    attributes: map<string, string>,
    balancerAttributes: map<string, string>)

  /** resolver.State; the service config is the JSON text handed to ParseServiceConfig. */
  datatype State = State(addresses: seq<Address>, attributes: map<string, string>, serviceConfig: Option<string>)

  // ------------------------------------------------------------ address building

  /** Index of the last endpoint carrying the prefix, or -1. */
  function LastPrefixed(eps: seq<string>, schema: string): (i: int)
    ensures -1 <= i < |eps|
    ensures 0 <= i ==> HasPrefix(eps[i], schema)
    ensures forall j :: i < j < |eps| ==> !HasPrefix(eps[j], schema)
  {
    if |eps| == 0 then -1
    else if HasPrefix(eps[|eps| - 1], schema) then |eps| - 1
    else LastPrefixed(eps[..|eps| - 1], schema)
  }

  /** The endpoint loop: every endpoint with the prefix overwrites the choice with its stripped form. */
  function EndpointScan(eps: seq<string>, schema: string, acc: string): string
    decreases |eps|
  {
    if |eps| == 0 then acc
    else EndpointScan(eps[1..], schema, if HasPrefix(eps[0], schema) then TrimPrefix(eps[0], schema) else acc)
  }

  lemma {:induction false} EndpointScanIsLastPrefixed(eps: seq<string>, schema: string, acc: string)
    ensures EndpointScan(eps, schema, acc) ==
      var i := LastPrefixed(eps, schema); if i < 0 then acc else eps[i][|schema|..]
    decreases |eps|
  {
    if |eps| > 0 {
      var next := if HasPrefix(eps[0], schema) then TrimPrefix(eps[0], schema) else acc;
      EndpointScanIsLastPrefixed(eps[1..], schema, next);
      LastPrefixedShift(eps, schema);
    }
  }

  /** Dropping the first endpoint shifts the last prefixed index by one, unless that endpoint was the only one. */
  lemma LastPrefixedShift(eps: seq<string>, schema: string)
    requires |eps| > 0
    ensures var i := LastPrefixed(eps, schema); var k := LastPrefixed(eps[1..], schema);
      (k >= 0 ==> i == k + 1) && (k < 0 ==> i == (if HasPrefix(eps[0], schema) then 0 else -1))
  {
    var i := LastPrefixed(eps, schema);
    var k := LastPrefixed(eps[1..], schema);
    if k >= 0 {
      assert eps[k + 1] == eps[1..][k];
      assert forall j :: k + 1 < j < |eps| ==> eps[j] == eps[1..][j - 1];
    } else {
      assert forall j :: 0 < j < |eps| ==> eps[j] == eps[1..][j - 1];
    }
  }

  /**
   * The address of one entry: the last endpoint carrying the schema prefix,
   * stripped; if that is "" and there is exactly one endpoint, that endpoint
   * verbatim; otherwise "".
   */
  function ChooseEndpoint(eps: seq<string>, schema: string): (e: string)
    ensures var i := LastPrefixed(eps, schema);
      var stripped := if i < 0 then "" else eps[i][|schema|..];
      e == if stripped == "" && |eps| == 1 then eps[0] else stripped
    ensures (forall j :: 0 <= j < |eps| ==> !HasPrefix(eps[j], schema)) && |eps| != 1 ==> e == ""
  {
    EndpointScanIsLastPrefixed(eps, schema, "");
    var endpoint := EndpointScan(eps, schema, "");
    if endpoint == "" && |eps| == 1 then eps[0] else endpoint
  }

  /** The attributes of an entry's address: id, then name, then every metadata pair, later ones overwriting. */
  function EntryAttributes(se: ServiceEntry): (r: map<string, string>)
    ensures r.Keys == {"id", "name"} + se.metadata.Keys
    ensures forall k :: k in se.metadata ==> r[k] == se.metadata[k]
    ensures "id" !in se.metadata ==> r["id"] == se.id
    ensures "name" !in se.metadata ==> r["name"] == se.name
  {
    map["id" := se.id, "name" := se.name] + se.metadata
  }

  function AddressOf(se: ServiceEntry, schema: string, serviceName: string): Address {
    var md := EntryAttributes(se);
    Address(ChooseEndpoint(se.endpoints, schema), serviceName, md, md)
  }

  /** One address per entry, in entry order, all naming the target service. */
  function Addresses(sis: seq<ServiceEntry>, schema: string, serviceName: string): (r: seq<Address>)
    ensures |r| == |sis|
    ensures forall i :: 0 <= i < |sis| ==> r[i] == AddressOf(sis[i], schema, serviceName)
    ensures forall i :: 0 <= i < |r| ==> r[i].serverName == serviceName && r[i].attributes == r[i].balancerAttributes
  {
    seq(|sis|, i requires 0 <= i < |sis| => AddressOf(sis[i], schema, serviceName))
  }

  /** The service config JSON naming one load-balancing policy. */
  function LbConfigJson(name: string): string {
    "{\"loadBalancingConfig\": [{\"" + name + "\":{}}]}"
  }

  /** The state pushed for the entries left after gray-release filtering. */
  function StateOf(sis: seq<ServiceEntry>, sc: ServiceConfig, schema: string, serviceName: string, disableServiceConfig: bool): (st: State)
    ensures st.addresses == Addresses(sis, schema, serviceName)
    ensures st.attributes == map["resolver" := "sgr"]
    ensures st.serviceConfig.Some? <==> !disableServiceConfig && sc.loadBalancingConfig != ""
    ensures st.serviceConfig.Some? ==> st.serviceConfig.value == LbConfigJson(sc.loadBalancingConfig)
  {
    State(
      Addresses(sis, schema, serviceName),
      map["resolver" := "sgr"],
      if !disableServiceConfig && sc.loadBalancingConfig != "" then Some(LbConfigJson(sc.loadBalancingConfig)) else None)
  }

  /** The entries an update builds addresses from: gray release applies only when its policy is set. */
  ghost function Selected(s: seq<ServiceEntry>, sc: ServiceConfig, versionOf: GrayRelease.VersionOf): seq<ServiceEntry> {
    if sc.grayReleaseConfig != "" then GrayRelease.Handled(s, sc.grayReleaseConfig, versionOf) else s
  }

  /** The order an update leaves the stored entries in, since gray release sorts them in place. */
  function Reordered(s: seq<ServiceEntry>, sc: ServiceConfig, versionOf: GrayRelease.VersionOf): seq<ServiceEntry> {
    if |s| > 0 && sc.grayReleaseConfig == "old_version" then SliceMap.InsertionSort(s, GrayRelease.EntryLess(0, versionOf))
    else if |s| > 0 && sc.grayReleaseConfig == "latest_version" then SliceMap.InsertionSort(s, GrayRelease.EntryLess(1, versionOf))
    else s
  }

  /** Without a gray-release policy the entries are used, and kept, as they are. */
  lemma NoGrayReleaseKeepsEntries(s: seq<ServiceEntry>, sc: ServiceConfig, versionOf: GrayRelease.VersionOf)
    requires sc.grayReleaseConfig == ""
    ensures Selected(s, sc, versionOf) == s && Reordered(s, sc, versionOf) == s
  {
  }

  /** Reordering only permutes the stored entries. */
  lemma ReorderedPermutes(s: seq<ServiceEntry>, sc: ServiceConfig, versionOf: GrayRelease.VersionOf)
    ensures multiset(Reordered(s, sc, versionOf)) == multiset(s)
  {
    SliceMap.SortPermutes(s, GrayRelease.EntryLess(0, versionOf));
    SliceMap.SortPermutes(s, GrayRelease.EntryLess(1, versionOf));
  }

  // ------------------------------------------------------------ local table

  /** The entries of `es` named `name`, in order. */
  function Named(es: seq<ServiceEntry>, name: string): (r: seq<ServiceEntry>)
    ensures |r| <= |es|
    ensures forall e :: e in r ==> e in es && e.name == name
  {
    if |es| == 0 then []
    else Named(es[..|es| - 1], name) + (if es[|es| - 1].name == name then [es[|es| - 1]] else [])
  }

  /** The table after appending each entry, in order, under its name. */
  function AddAll(m: map<string, seq<ServiceEntry>>, es: seq<ServiceEntry>): map<string, seq<ServiceEntry>> {
    if |es| == 0 then m
    else
      var before := AddAll(m, es[..|es| - 1]);
      var e := es[|es| - 1];
      before[e.name := (if e.name in before then before[e.name] else []) + [e]]
  }

  /**
   * After SetServiceInLocal a name is present exactly when it was before or
   * some new entry has it, and holds its earlier entries followed by the new
   * entries of that name in argument order.
   */
  lemma {:induction false} AddAllSpec(m: map<string, seq<ServiceEntry>>, es: seq<ServiceEntry>, name: string)
    ensures name in AddAll(m, es) <==> name in m || |Named(es, name)| > 0
    ensures name in AddAll(m, es) ==>
      AddAll(m, es)[name] == (if name in m then m[name] else []) + Named(es, name)
  {
    if |es| > 0 {
      AddAllSpec(m, es[..|es| - 1], name);
    }
  }

  /** The process-wide table of services resolved without discovery. */
  class LocalServices {
    var services: map<string, seq<ServiceEntry>>

    constructor()
      ensures services == map[]
    {
      services := map[];
    }

    /** SetServiceInLocal: appends each entry under its name, creating the name on first use. */
    method SetServiceInLocal(entries: seq<ServiceEntry>)
      modifies this
      ensures services == AddAll(old(services), entries)
    {
      var i := 0;
      while i < |entries|
        invariant 0 <= i <= |entries|
        invariant services == AddAll(old(services), entries[..i])
      {
        var name := entries[i].name;
        assert entries[..i + 1][..i] == entries[..i];
        assert entries[..i + 1][i] == entries[i];
        ghost var before := AddAll(old(services), entries[..i]);
        assert AddAll(old(services), entries[..i + 1]) ==
          before[name := (if name in before then before[name] else []) + [entries[i]]];
        if name in services {
          services := services[name := services[name] + [entries[i]]];
        } else {
          assert [] + [entries[i]] == [entries[i]];
          services := services[name := [entries[i]]];
        }
        i := i + 1;
      }
      assert entries[..i] == entries;
    }
  }

  // ------------------------------------------------------------ watch model

  /** Errors an iterator can return; the first two end the watch. */
  datatype IterError = Canceled | DeadlineExceeded | OtherError(msg: string)

  /** One outcome of the watch loop's select. */
  datatype Event = Received(service: Service) | ChannelClosed | TimerFired | ContextDone

  /**
   * What the reader goroutine puts on the channel for a sequence of iterator
   * results: every snapshot up to the first error, then a close if that error
   * is a cancellation or an expired deadline. Any other error stops the reader
   * without closing the channel.
   */
  function ReaderFeed(results: seq<Result<Service, IterError>>): (r: (seq<Service>, bool))
    ensures |r.0| <= |results|
    ensures forall i :: 0 <= i < |r.0| ==> results[i] == Ok(r.0[i])
    ensures |r.0| < |results| ==> results[|r.0|].Err?
    ensures r.1 <==> |r.0| < |results| && results[|r.0|].error in {Canceled, DeadlineExceeded}
  {
    if |results| == 0 then ([], false)
    else if results[0].Err? then ([], results[0].error in {Canceled, DeadlineExceeded})
    else
      var rest := ReaderFeed(results[1..]);
      ([results[0].value] + rest.0, rest.1)
  }

  /** The resolver fields a watch loop changes, plus its timer and whether it has returned. */
  datatype WatchState = WatchState(
    current: seq<ServiceEntry>,
    config: ServiceConfig,
    pushes: seq<State>,
    timerArmed: bool,
    stopped: bool)

  /** The resolver fields an update reads but never changes. */
  datatype Params = Params(schema: string, serviceName: string, disableServiceConfig: bool, versionOf: GrayRelease.VersionOf)

  /** updateClientConnState on a watch state. */
  ghost function Push(p: Params, w: WatchState): WatchState {
    w.(current := Reordered(w.current, w.config, p.versionOf),
       pushes := w.pushes + [StateOf(Selected(w.current, w.config, p.versionOf), w.config, p.schema, p.serviceName, p.disableServiceConfig)])
  }

  /** One turn of the watch loop. */
  ghost function Step(p: Params, w: WatchState, e: Event): WatchState {
    if w.stopped then w
    else match e
      case Received(svc) =>
        var w1 := w.(current := svc.entries, config := ConfigOf(svc.configs));
        if |svc.entries| == 0 then w1.(timerArmed := true) else Push(p, w1)
      case TimerFired =>
        if !w.timerArmed then w
        else if |w.current| == 0 then Push(p, w.(timerArmed := false))
        else w.(timerArmed := false)
      case ChannelClosed => w.(stopped := true)
      case ContextDone => w.(stopped := true)
  }

  /** The watch loop over a sequence of events. */
  ghost function Run(p: Params, w: WatchState, evs: seq<Event>): WatchState {
    if |evs| == 0 then w else Step(p, Run(p, w, evs[..|evs| - 1]), evs[|evs| - 1])
  }

  predicate Stops(e: Event) {
    e.ChannelClosed? || e.ContextDone?
  }

  /** Once the loop has returned, no later event changes anything. */
  lemma {:induction false} RunAfterStop(p: Params, w: WatchState, evs: seq<Event>)
    requires w.stopped
    ensures Run(p, w, evs) == w
  {
    if |evs| > 0 {
      RunAfterStop(p, w, evs[..|evs| - 1]);
    }
  }

  /** Pushes are only ever appended: the states pushed before the events stay, in order. */
  lemma {:induction false} RunKeepsPushes(p: Params, w: WatchState, evs: seq<Event>)
    ensures |w.pushes| <= |Run(p, w, evs).pushes|
    ensures Run(p, w, evs).pushes[..|w.pushes|] == w.pushes
  {
    if |evs| > 0 {
      RunKeepsPushes(p, w, evs[..|evs| - 1]);
      var before := Run(p, w, evs[..|evs| - 1]);
      assert before.pushes[..|w.pushes|] == w.pushes;
      var after := Step(p, before, evs[|evs| - 1]);
      assert after.pushes == before.pushes || after.pushes == before.pushes + [after.pushes[|after.pushes| - 1]];
      assert after.pushes[..|before.pushes|] == before.pushes;
      assert after.pushes[..|w.pushes|] == before.pushes[..|w.pushes|];
    }
  }

  /** A non-empty snapshot replaces entries and config and is pushed at once. */
  lemma NonEmptySnapshotPushed(p: Params, w: WatchState, svc: Service)
    requires !w.stopped && |svc.entries| > 0
    ensures var w2 := Step(p, w, Received(svc));
      && w2.config == ConfigOf(svc.configs)
      && w2.current == Reordered(svc.entries, ConfigOf(svc.configs), p.versionOf)
      && w2.pushes == w.pushes + [StateOf(Selected(svc.entries, w2.config, p.versionOf), w2.config, p.schema, p.serviceName, p.disableServiceConfig)]
  {
  }

  /**
   * An empty snapshot is not pushed at once; if the timer then fires and no
   * snapshot came in between, exactly one state with no addresses is pushed.
   */
  lemma EmptySnapshotDelayed(p: Params, w: WatchState, svc: Service)
    requires !w.stopped && |svc.entries| == 0
    ensures Step(p, w, Received(svc)).pushes == w.pushes
    ensures var w2 := Run(p, w, [Received(svc), TimerFired]);
      |w2.pushes| == |w.pushes| + 1 && w2.pushes[|w.pushes|].addresses == [] && !w2.timerArmed
  {
    var evs := [Received(svc), TimerFired];
    assert evs[..1] == [Received(svc)];
    assert evs[..1][..0] == [];
    var w1 := Step(p, w, Received(svc));
    assert Run(p, w, evs[..1]) == w1;
    assert w1.timerArmed && w1.current == [] && !w1.stopped;
    assert Run(p, w, evs) == Step(p, w1, TimerFired);
    assert Selected([], w1.config, p.versionOf) == [];
  }

  /** An empty snapshot superseded by a non-empty one before the timer fires is never pushed. */
  lemma SupersededEmptySnapshotDropped(p: Params, w: WatchState, empty: Service, svc: Service)
    requires !w.stopped && |empty.entries| == 0 && |svc.entries| > 0
    ensures Run(p, w, [Received(empty), Received(svc), TimerFired]).pushes ==
      Step(p, w, Received(svc)).pushes
  {
    var evs := [Received(empty), Received(svc), TimerFired];
    assert evs[..2] == [Received(empty), Received(svc)];
    assert evs[..2][..1] == [Received(empty)];
    assert evs[..2][..1][..0] == [];
    var w1 := Step(p, w, Received(empty));
    assert Run(p, w, evs[..2][..1]) == w1;
    assert w1.pushes == w.pushes && !w1.stopped;
    var w2 := Step(p, w1, Received(svc));
    assert Run(p, w, evs[..2]) == w2;
    assert w2.pushes == Step(p, w, Received(svc)).pushes;
    assert |w2.current| > 0 by {
      ReorderedPermutes(svc.entries, ConfigOf(svc.configs), p.versionOf);
      assert |multiset(w2.current)| == |multiset(svc.entries)|;
    }
    assert Run(p, w, evs) == Step(p, w2, TimerFired);
  }

  // ------------------------------------------------------------ the resolver

  /** The endpoint schema: the target's `schema` query parameter when non-empty, else "grpc://". */
  function SchemaOf(target: TargetInfo): (schema: string)
    ensures QueryGet(target.target.url.query, "schema") == "" ==> schema == DefaultEndpointSchema
    ensures QueryGet(target.target.url.query, "schema") != "" ==> schema == target.target.url.query["schema"][0]
  {
    var q := QueryGet(target.target.url.query, "schema");
    if q != "" then q else DefaultEndpointSchema
  }

  class Resolver {
    const target: TargetInfo
    const disableServiceConfig: bool
    const versionOf: GrayRelease.VersionOf

    var schema: string
    var current: seq<ServiceEntry>
    var config: ServiceConfig
    /** Every state handed to ClientConn.UpdateState, in order. */
    var pushes: seq<State>
    /** Whether ctx/ctxCancel were created. */
    var ctxSet: bool
    /** Whether the watch loop was started. */
    var watchStarted: bool

    constructor(target: TargetInfo, disableServiceConfig: bool, versionOf: GrayRelease.VersionOf)
      ensures this.target == target && this.disableServiceConfig == disableServiceConfig && this.versionOf == versionOf
      ensures schema == "" && current == [] && config == ServiceConfig("", "") && pushes == []
      ensures !ctxSet && !watchStarted
    {
      this.target := target;
      this.disableServiceConfig := disableServiceConfig;
      this.versionOf := versionOf;
      schema := "";
      current := [];
      config := ServiceConfig("", "");
      pushes := [];
      ctxSet := false;
      watchStarted := false;
    }

    function UpdateParams(): Params
      reads this
    {
      Params(schema, target.serviceName, disableServiceConfig, versionOf)
    }

    /**
     * updateClientConnState: applies gray release when configured (which
     * sorts the stored entries in place), then pushes one address per
     * remaining entry and the load-balancing config when enabled.
     */
    method UpdateClientConnState()
      modifies this
      ensures current == Reordered(old(current), config, versionOf)
      ensures pushes == old(pushes) + [StateOf(Selected(old(current), config, versionOf), config, schema, target.serviceName, disableServiceConfig)]
      ensures schema == old(schema) && config == old(config)
      ensures ctxSet == old(ctxSet) && watchStarted == old(watchStarted)
    {
      var sis := current;
      if config.grayReleaseConfig != "" {
        var cur := current;
        var a := new ServiceEntry[|cur|](i requires 0 <= i < |cur| => cur[i]);
        assert a[..] == cur;
        sis := GrayRelease.GrayReleaseHandle(a, config.grayReleaseConfig, versionOf);
        current := a[..];
      }
      pushes := pushes + [StateOf(sis, config, schema, target.serviceName, disableServiceConfig)];
    }

    /**
     * Init: picks the schema; a service in the local table is pushed once from
     * it without watching; otherwise the first snapshot (or its error) decides,
     * and on success it is pushed before the watch starts.
     */
    method Init(local: LocalServices, first: Result<Service, IterError>) returns (err: Option<IterError>)
      modifies this
      ensures schema == SchemaOf(target)
      ensures target.serviceName in local.services ==>
        && err == None && ctxSet == old(ctxSet) && watchStarted == old(watchStarted) && config == old(config)
        && current == Reordered(local.services[target.serviceName], old(config), versionOf)
        && pushes == old(pushes) + [StateOf(Selected(local.services[target.serviceName], config, versionOf), config, schema, target.serviceName, disableServiceConfig)]
      ensures target.serviceName !in local.services && first.Err? ==>
        err == Some(first.error) && ctxSet && watchStarted == old(watchStarted) && current == old(current) && config == old(config) && pushes == old(pushes)
      ensures target.serviceName !in local.services && first.Ok? ==>
        && err == None && ctxSet && watchStarted
        && config == ConfigOf(first.value.configs)
        && current == Reordered(first.value.entries, config, versionOf)
        && pushes == old(pushes) + [StateOf(Selected(first.value.entries, config, versionOf), config, schema, target.serviceName, disableServiceConfig)]
    {
      schema := DefaultEndpointSchema;
      var q := QueryGet(target.target.url.query, "schema");
      if q != "" {
        schema := q;
      }
      if target.serviceName in local.services {
        InitFromTable(local.services[target.serviceName]);
        return None;
      }
      ctxSet := true;
      if first.Err? {
        return Some(first.error);
      }
      InitFromSnapshot(first.value);
      return None;
    }

    /** The bypass path: the table's entries are pushed once and nothing is watched. */
    method InitFromTable(ses: seq<ServiceEntry>)
      modifies this
      ensures current == Reordered(ses, config, versionOf) && config == old(config)
      ensures pushes == old(pushes) + [StateOf(Selected(ses, config, versionOf), config, schema, target.serviceName, disableServiceConfig)]
      ensures schema == old(schema) && ctxSet == old(ctxSet) && watchStarted == old(watchStarted)
    {
      current := ses;
      UpdateClientConnState();
    }

    /** The discovery path after a successful first Next: replace, push, then start watching. */
    method InitFromSnapshot(service: Service)
      modifies this
      ensures config == ConfigOf(service.configs)
      ensures current == Reordered(service.entries, config, versionOf)
      ensures pushes == old(pushes) + [StateOf(Selected(service.entries, config, versionOf), config, schema, target.serviceName, disableServiceConfig)]
      ensures schema == old(schema) && ctxSet == old(ctxSet) && watchStarted
    {
      current := service.entries;
      config := ParseServiceConfig(service.configs);
      UpdateClientConnState();
      watchStarted := true;
    }

    /**
     * watch: handles events until the channel is closed or the context is
     * done. Returns the index of the event that ended the loop, if any.
     */
    method Watch(events: seq<Event>) returns (stoppedAt: Option<nat>)
      modifies this
      ensures var w := Run(old(UpdateParams()), WatchState(old(current), old(config), old(pushes), false, false), events);
        current == w.current && config == w.config && pushes == w.pushes
      ensures stoppedAt.Some? ==> stoppedAt.value < |events| && Stops(events[stoppedAt.value])
      ensures stoppedAt.Some? ==> forall j :: 0 <= j < stoppedAt.value ==> !Stops(events[j])
      ensures stoppedAt.None? ==> forall j :: 0 <= j < |events| ==> !Stops(events[j])
      ensures schema == old(schema) && ctxSet == old(ctxSet) && watchStarted == old(watchStarted)
    {
      ghost var p := UpdateParams();
      ghost var w0 := WatchState(current, config, pushes, false, false);
      var timerArmed := false;
      var i := 0;
      while i < |events|
        invariant 0 <= i <= |events|
        invariant UpdateParams() == p
        invariant Run(p, w0, events[..i]) == WatchState(current, config, pushes, timerArmed, false)
        invariant forall j :: 0 <= j < i ==> !Stops(events[j])
        invariant ctxSet == old(ctxSet) && watchStarted == old(watchStarted)
      {
        assert events[..i + 1][..i] == events[..i];
        assert Run(p, w0, events[..i + 1]) == Step(p, Run(p, w0, events[..i]), events[i]);
        ghost var prev := WatchState(current, config, pushes, timerArmed, false);
        match events[i] {
        case Received(svc) =>
          current := svc.entries;
          config := ParseServiceConfig(svc.configs);
          if |svc.entries| == 0 {
            timerArmed := true;
          } else {
            UpdateClientConnState();
          }
        case TimerFired =>
          if timerArmed {
            timerArmed := false;
            if |current| == 0 {
              UpdateClientConnState();
            }
          }
        case ChannelClosed =>
          assert Run(p, w0, events[..i + 1]).stopped;
          RunAfterStop(p, Run(p, w0, events[..i + 1]), events[i + 1..]);
          RunSplit(p, w0, events, i + 1);
          return Some(i);
        case ContextDone =>
          assert Run(p, w0, events[..i + 1]).stopped;
          RunAfterStop(p, Run(p, w0, events[..i + 1]), events[i + 1..]);
          RunSplit(p, w0, events, i + 1);
          return Some(i);
        }
        assert WatchState(current, config, pushes, timerArmed, false) == Step(p, prev, events[i]);
        i := i + 1;
      }
      assert events[..i] == events;
      return None;
    }
  }

  /** Running a sequence is running its prefix and then the rest. */
  lemma {:induction false} RunSplit(p: Params, w: WatchState, evs: seq<Event>, k: nat)
    requires k <= |evs|
    ensures Run(p, w, evs) == Run(p, Run(p, w, evs[..k]), evs[k..])
    decreases |evs| - k
  {
    if k < |evs| {
      RunSplit(p, w, evs, k + 1);
      assert evs[..k + 1][..k] == evs[..k];
      var mid := Run(p, w, evs[..k]);
      assert evs[k..][..1] == [evs[k]];
      assert Run(p, mid, [evs[k]]) == Step(p, mid, evs[k]) by {
        assert [evs[k]][..0] == [];
      }
      RunSplit(p, mid, evs[k..], 1);
      assert evs[k..][1..] == evs[k + 1..];
    } else {
      assert evs[k..] == [];
      assert evs[..k] == evs;
    }
  }
}
