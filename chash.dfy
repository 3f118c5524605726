/**
 * grpcx/balancer/chash: a picker that hashes a per-call key onto a ring of
 * SubConn addresses. The ring lookup of the hashring library is not
 * visible; it is a parameter `getNode` from the ring's address list and the
 * key to the chosen address, if any.
 */
module ConsistentHash {
  import opened Wrappers
  import SliceMap

  /** The value stored under chash.Key in the call context. */
  datatype CtxValue = StrValue(s: string) | OtherValue | Absent

  /** What a report carries: the key of the call and the SubConn picked (nil when the node has none). */
  datatype PickReport<S> = PickReport(key: string, sc: Option<S>)

  datatype PickError = ErrNoSubConnAvailable

  type NodeLookup = (seq<string>, string) -> Option<string>

  /** The outcome of one pick, as a function of the picker's fixed parts. */
  function PickOutcome<S>(subConns: map<string, S>, ring: seq<string>, getNode: NodeLookup, v: CtxValue): (r: Result<S, PickError>)
    ensures !v.StrValue? ==> r == Err(ErrNoSubConnAvailable)
    ensures r.Ok? <==> v.StrValue? && getNode(ring, v.s).Some? && getNode(ring, v.s).value in subConns
    ensures r.Ok? ==> r.value == subConns[getNode(ring, v.s).value]
  {
    if !v.StrValue? then Err(ErrNoSubConnAvailable)
    else match getNode(ring, v.s)
      case None => Err(ErrNoSubConnAvailable)
      case Some(addr) => if addr in subConns then Ok(subConns[addr]) else Err(ErrNoSubConnAvailable)
  }

  class ConsistentHashPicker<S> {
    const subConns: map<string, S>
    /** The addresses the ring was built from: the keys of subConns, in map order. */
    const ring: seq<string>
    const needReport: bool
    const getNode: NodeLookup
    /** Everything sent on the report channel so far. */
    var reports: seq<PickReport<S>>

    /** The ring holds each address of subConns exactly once and nothing else. */
    predicate RingOfKeys()
    {
      && |ring| == |subConns|
      && (forall a :: a in subConns ==> a in ring)
      && (forall a :: a in ring ==> a in subConns)
      && (forall i, j :: 0 <= i < j < |ring| ==> ring[i] != ring[j])
    }

    /** NewConsistentHashPicker: a picker over subConns that does not report. */
    constructor (subConns: map<string, S>, getNode: NodeLookup)
      ensures this.subConns == subConns && this.getNode == getNode
      ensures RingOfKeys()
      ensures !needReport && reports == []
    {
      var addrs := SliceMap.MapKeys(subConns);
      this.subConns := subConns;
      this.ring := addrs;
      this.needReport := false;
      this.getNode := getNode;
      this.reports := [];
    }

    /** NewConsistentHashPickerWithReportChan: the same picker, reporting every pick that finds a node. */
    constructor WithReportChan(subConns: map<string, S>, getNode: NodeLookup)
      ensures this.subConns == subConns && this.getNode == getNode
      ensures RingOfKeys()
      ensures needReport && reports == []
    {
      var addrs := SliceMap.MapKeys(subConns);
      this.subConns := subConns;
      this.ring := addrs;
      this.needReport := true;
      this.getNode := getNode;
      this.reports := [];
    }

    /**
     * Pick: a missing or non-string key fails; otherwise the SubConn of the
     * node the ring gives, failing when there is no node or the node has no
     * SubConn. With reporting on, one report is sent whenever the ring gives
     * a node, even an unmapped one.
     */
    method Pick(v: CtxValue) returns (r: Result<S, PickError>)
      modifies this`reports
      ensures r == PickOutcome(subConns, ring, getNode, v)
      ensures reports == old(reports) +
        (if needReport && v.StrValue? && getNode(ring, v.s).Some?
         then [PickReport(v.s, if getNode(ring, v.s).value in subConns then Some(subConns[getNode(ring, v.s).value]) else None)]
         else [])
    {
      if !v.StrValue? {
        return Err(ErrNoSubConnAvailable);
      }
      var sc: Option<S> := None;
      var node := getNode(ring, v.s);
      if node.Some? {
        sc := if node.value in subConns then Some(subConns[node.value]) else None;
        if needReport {
          reports := reports + [PickReport(v.s, sc)];
        }
      }
      if sc.None? {
        return Err(ErrNoSubConnAvailable);
      }
      return Ok(sc.value);
    }
  }
}
