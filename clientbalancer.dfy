/**
 * app/client/balancer.go: the default load-balancing policy per app id
 * (an 8-bit number) and the setter values that choose it. A setter is
 * represented by what its appBalancer answers.
 */
module ClientBalancer {
  import opened Wrappers

  type AppID = b: int | 0 <= b < 256

  /** Policy names of the gRPC balancers, as registered by their packages. */
  const RoundRobinName := "round_robin"
  const WeightedRoundRobinName := "weighted_round_robin"
  const WeightedTargetName := "weighted_target_experimental"
  const RingHashName := "ring_hash"

  /** What a BalancerSetter's appBalancer returns. */
  datatype BalancerSetter = BalancerSetter(appID: AppID, balancer: string)

  /**
   * The four constructors as written: the closure's named result appID
   * shadows the parameter and is returned unassigned, so every setter
   * reports app id 0.
   */
  function WeightedTarget(appID: AppID): (r: BalancerSetter)
    ensures r.appID == 0 && r.balancer == WeightedTargetName
  {
    BalancerSetter(0, WeightedTargetName)
  }

  function WeightedRoundRobin(appID: AppID): (r: BalancerSetter)
    ensures r.appID == 0 && r.balancer == WeightedRoundRobinName
  {
    BalancerSetter(0, WeightedRoundRobinName)
  }

  function RoundRobin(appID: AppID): (r: BalancerSetter)
    ensures r.appID == 0 && r.balancer == RoundRobinName
  {
    BalancerSetter(0, RoundRobinName)
  }

  function RingHash(appID: AppID): (r: BalancerSetter)
    ensures r.appID == 0 && r.balancer == RingHashName
  {
    BalancerSetter(0, RingHashName)
  }

  /** The constructor with the app id it was given, as its name promises. */
  function SetterFor(appID: AppID, balancer: string): (r: BalancerSetter)
    ensures r.appID == appID && r.balancer == balancer
  {
    BalancerSetter(appID, balancer)
  }

  /** The table after the setters one by one, later ones overwriting earlier ones. */
  function Stored(m: map<AppID, string>, bs: seq<BalancerSetter>): map<AppID, string> {
    if bs == [] then m
    else Stored(m, bs[..|bs| - 1])[bs[|bs| - 1].appID := bs[|bs| - 1].balancer]
  }

  /** The policy of the last setter for the app id, if any. */
  function LastFor(bs: seq<BalancerSetter>, appID: AppID): (r: Option<string>)
    ensures r.None? <==> forall i :: 0 <= i < |bs| ==> bs[i].appID != appID
    ensures r.Some? ==> exists i :: (0 <= i < |bs| && bs[i].appID == appID && bs[i].balancer == r.value &&
                                     forall j :: i < j < |bs| ==> bs[j].appID != appID)
  {
    if bs == [] then None
    else if bs[|bs| - 1].appID == appID then Some(bs[|bs| - 1].balancer)
    else
      var front := bs[..|bs| - 1];
      assert forall i :: 0 <= i < |front| ==> front[i] == bs[i];
      LastFor(front, appID)
  }

  /** What GetDefaultBalancer answers for a table: the stored policy, or round robin. */
  function Lookup(m: map<AppID, string>, appID: AppID): (r: string)
    ensures appID in m ==> r == m[appID]
    ensures appID !in m ==> r == RoundRobinName
  {
    if appID in m then m[appID] else RoundRobinName
  }

  /** After SetDefaultBalancer the last setter for an id decides; ids no setter names keep their policy. */
  lemma {:induction false} StoredLookup(m: map<AppID, string>, bs: seq<BalancerSetter>, appID: AppID)
    ensures LastFor(bs, appID).Some? ==> Lookup(Stored(m, bs), appID) == LastFor(bs, appID).value
    ensures LastFor(bs, appID).None? ==> Lookup(Stored(m, bs), appID) == Lookup(m, appID)
  {
    if bs != [] {
      StoredLookup(m, bs[..|bs| - 1], appID);
    }
  }

  /** Setters built by the four constructors only ever change the policy of app id 0. */
  lemma OnlyZeroChanges(m: map<AppID, string>, bs: seq<BalancerSetter>, appID: AppID)
    requires forall i :: 0 <= i < |bs| ==> bs[i].appID == 0
    requires appID != 0
    ensures Lookup(Stored(m, bs), appID) == Lookup(m, appID)
  {
    StoredLookup(m, bs, appID);
  }

  /**
   * Asking for app id 5 with WeightedTarget(5) leaves app 5 on round robin
   * and moves app 0 instead; the setter built with the id it is given moves app 5.
   */
  lemma WeightedTargetIgnoresAppID()
    ensures Lookup(Stored(map[], [WeightedTarget(5)]), 5) == RoundRobinName
    ensures Lookup(Stored(map[], [WeightedTarget(5)]), 0) == WeightedTargetName
    ensures Lookup(Stored(map[], [SetterFor(5, WeightedTargetName)]), 5) == WeightedTargetName
  {
    assert [WeightedTarget(5)][..0] == [];
    assert [SetterFor(5, WeightedTargetName)][..0] == [];
  }

  /** The package-level defaultBalancerMap. */
  class DefaultBalancers {
    var table: map<AppID, string>

    constructor ()
      ensures table == map[]
    {
      table := map[];
    }

    /** SetDefaultBalancer: stores each setter's pair in order. */
    method SetDefaultBalancer(bs: seq<BalancerSetter>)
      modifies this
      ensures table == Stored(old(table), bs)
    {
      var i := 0;
      while i < |bs|
        invariant 0 <= i <= |bs|
        invariant table == Stored(old(table), bs[..i])
      {
        assert bs[..i + 1][..i] == bs[..i];
        table := table[bs[i].appID := bs[i].balancer];
        i := i + 1;
      }
      assert bs[..i] == bs;
    }

    /** GetDefaultBalancer: the stored policy, or round robin when none was set. */
    function GetDefaultBalancer(appID: AppID): (r: string)
      reads this
      ensures appID in table ==> r == table[appID]
      ensures appID !in table ==> r == RoundRobinName
    {
      Lookup(table, appID)
    }
  }
}
