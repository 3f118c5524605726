/**
 * grpcx/grpcresolver/grayrelease.go: when several versions of a service are
 * registered, keep only the entries of the oldest or of the latest version.
 */
module GrayRelease {
  import SemVer
  import SliceMap
  import opened Component

  /** Parses an entry's Version string; invalid strings are outside the model. */
  type VersionOf = string -> SemVer.Version

  /** The sort comparator: ascending precedence for policy <= 0, descending otherwise. */
  function EntryLess(policy: int, versionOf: VersionOf): (less: (ServiceEntry, ServiceEntry) -> bool)
    ensures forall l, r ::
              less(l, r) == if policy <= 0 then SemVer.Less(versionOf(l.version), versionOf(r.version))
                            else SemVer.Less(versionOf(r.version), versionOf(l.version))
  {
    (l: ServiceEntry, r: ServiceEntry) =>
      if policy <= 0 then SemVer.Less(versionOf(l.version), versionOf(r.version))
      else SemVer.Less(versionOf(r.version), versionOf(l.version))
  }

  lemma EntryLessIsStrictWeak(policy: int, versionOf: VersionOf)
    ensures SliceMap.StrictWeakOrder(EntryLess(policy, versionOf))
  {
    SemVer.LessIsStrictWeak();
    var less := EntryLess(policy, versionOf);
    forall x, y, z | less(x, z) ensures less(x, y) || less(y, z) {
      var vx, vy, vz := versionOf(x.version), versionOf(y.version), versionOf(z.version);
      if policy <= 0 {
        assert SemVer.Less(vx, vz) ==> SemVer.Less(vx, vy) || SemVer.Less(vy, vz);
      } else {
        assert SemVer.Less(vz, vx) ==> SemVer.Less(vz, vy) || SemVer.Less(vy, vx);
      }
    }
    forall x, y | less(x, y) ensures !less(y, x) {
      var vx, vy := versionOf(x.version), versionOf(y.version);
      assert SemVer.Less(vx, vy) ==> !SemVer.Less(vy, vx);
      assert SemVer.Less(vy, vx) ==> !SemVer.Less(vx, vy);
    }
  }

  /** The entries at the front of `t` whose Version string is `v`, up to the first that differs. */
  function TakeVersion(t: seq<ServiceEntry>, v: string): (r: seq<ServiceEntry>)
    ensures |r| <= |t| && r == t[..|r|]
    ensures forall j :: 0 <= j < |r| ==> r[j].version == v
    ensures |r| < |t| ==> t[|r|].version != v
  {
    if |t| == 0 || t[0].version != v then []
    else [t[0]] + TakeVersion(t[1..], v)
  }

  /** The first entry and every following entry sharing its Version string, up to the first that differs. */
  function LeadingRun(s: seq<ServiceEntry>): (r: seq<ServiceEntry>)
    requires |s| > 0
    ensures 1 <= |r| <= |s| && r == s[..|r|]
    ensures forall j :: 0 <= j < |r| ==> r[j].version == s[0].version
    ensures |r| < |s| ==> s[|r|].version != s[0].version
  {
    [s[0]] + TakeVersion(s[1..], s[0].version)
  }

  /** A prefix with those three properties is the leading run. */
  lemma LeadingRunUnique(s: seq<ServiceEntry>, n: nat)
    requires 1 <= n <= |s|
    requires forall j :: 0 <= j < n ==> s[j].version == s[0].version
    requires n < |s| ==> s[n].version != s[0].version
    ensures LeadingRun(s) == s[..n]
  {
    var run := LeadingRun(s);
    assert forall j :: 0 <= j < |run| ==> s[j].version == s[0].version by {
      forall j | 0 <= j < |run| ensures s[j].version == s[0].version {
        assert run[j] == s[j];
      }
    }
  }

  /** What filterServiceEntry returns for the entries `s` it is given. */
  ghost function Filtered(s: seq<ServiceEntry>, policy: int, versionOf: VersionOf): seq<ServiceEntry> {
    if |s| == 0 then s else LeadingRun(SliceMap.InsertionSort(s, EntryLess(policy, versionOf)))
  }

  /**
   * filterServiceEntry: returns empty input as is; otherwise sorts the
   * caller's entries in place by precedence (ascending for policy <= 0,
   * descending otherwise) and returns the leading run of the first entry's
   * Version string.
   */
  method FilterServiceEntry(sis: array<ServiceEntry>, policy: int, versionOf: VersionOf) returns (ret: seq<ServiceEntry>)
    modifies sis
    ensures sis.Length == 0 ==> ret == [] && sis[..] == old(sis[..])
    ensures sis.Length > 0 ==> sis[..] == SliceMap.InsertionSort(old(sis[..]), EntryLess(policy, versionOf))
    ensures ret == Filtered(old(sis[..]), policy, versionOf)
  {
    if sis.Length == 0 {
      return sis[..];
    }
    SliceMap.Sort(sis, EntryLess(policy, versionOf));
    ret := [sis[0]];
    var i := 1;
    while i < sis.Length
      invariant 1 <= i <= sis.Length
      invariant ret == sis[..i]
      invariant forall j :: 0 <= j < i ==> sis[j].version == sis[0].version
    {
      if sis[i].version == ret[0].version {
        ret := ret + [sis[i]];
      } else {
        break;
      }
      i := i + 1;
    }
    LeadingRunUnique(sis[..], i);
  }

  /** grayReleaseHandle: "old_version" keeps the oldest, "latest_version" the latest; any other policy changes nothing. */
  method GrayReleaseHandle(sis: array<ServiceEntry>, grc: string, versionOf: VersionOf) returns (ret: seq<ServiceEntry>)
    modifies sis
    ensures ret == Handled(old(sis[..]), grc, versionOf)
    ensures grc != "old_version" && grc != "latest_version" ==> sis[..] == old(sis[..])
    ensures grc == "old_version" && sis.Length > 0 ==> sis[..] == SliceMap.InsertionSort(old(sis[..]), EntryLess(0, versionOf))
    ensures grc == "latest_version" && sis.Length > 0 ==> sis[..] == SliceMap.InsertionSort(old(sis[..]), EntryLess(1, versionOf))
    ensures sis.Length == 0 ==> sis[..] == old(sis[..])
  {
    if grc == "old_version" {
      ret := FilterServiceEntry(sis, 0, versionOf);
    } else if grc == "latest_version" {
      ret := FilterServiceEntry(sis, 1, versionOf);
    } else {
      ret := sis[..];
    }
  }

  /** What grayReleaseHandle returns. */
  ghost function Handled(s: seq<ServiceEntry>, grc: string, versionOf: VersionOf): seq<ServiceEntry> {
    if grc == "old_version" then Filtered(s, 0, versionOf)
    else if grc == "latest_version" then Filtered(s, 1, versionOf)
    else s
  }

  // ------------------------------------------------------------ properties

  /** An unknown policy leaves the entries as they are. */
  lemma UnknownPolicyIsIdentity(s: seq<ServiceEntry>, grc: string, versionOf: VersionOf)
    requires grc != "old_version" && grc != "latest_version"
    ensures Handled(s, grc, versionOf) == s
  {
  }

  /**
   * For non-empty input the result is non-empty, every entry in it comes from
   * the input and shares one Version string, and no input entry ranks before
   * the first one under the policy's order: an oldest version for policy <= 0,
   * a latest one otherwise.
   */
  lemma {:induction false} FilteredShape(s: seq<ServiceEntry>, policy: int, versionOf: VersionOf)
    requires |s| > 0
    ensures var r := Filtered(s, policy, versionOf);
      && |r| > 0
      && multiset(r) <= multiset(s)
      && (forall j :: 0 <= j < |r| ==> r[j].version == r[0].version)
      && (forall e :: e in s ==> !EntryLess(policy, versionOf)(e, r[0]))
  {
    var less := EntryLess(policy, versionOf);
    var sorted := SliceMap.InsertionSort(s, less);
    var r := Filtered(s, policy, versionOf);
    SliceMap.SortPermutes(s, less);
    EntryLessIsStrictWeak(policy, versionOf);
    SliceMap.SortSorts(s, less);
    assert r == sorted[..|r|];
    assert sorted == r + sorted[|r|..];
    assert multiset(sorted) == multiset(r) + multiset(sorted[|r|..]);
    forall e | e in s ensures !less(e, r[0]) {
      assert e in multiset(sorted);
      var k :| 0 <= k < |sorted| && sorted[k] == e;
      if k > 0 {
        assert !less(sorted[k], sorted[0]);
      }
    }
  }

  /** When every entry has the same Version string, filtering returns all of them, unchanged. */
  lemma {:induction false} SingleVersionKeepsAll(s: seq<ServiceEntry>, policy: int, versionOf: VersionOf)
    requires forall j :: 0 <= j < |s| ==> s[j].version == s[0].version
    ensures Filtered(s, policy, versionOf) == s
  {
    if |s| > 0 {
      var less := EntryLess(policy, versionOf);
      SemVer.LessTotal(versionOf(s[0].version), versionOf(s[0].version));
      assert SliceMap.SortedBy(s, less);
      SliceMap.SortOfSorted(s, less);
      LeadingRunUnique(s, |s|);
    }
  }

  /** Filtering a filtered result again returns all of it. */
  lemma FilteredIdempotent(s: seq<ServiceEntry>, policy: int, versionOf: VersionOf)
    ensures Filtered(Filtered(s, policy, versionOf), policy, versionOf) == Filtered(s, policy, versionOf)
  {
    if |s| > 0 {
      FilteredShape(s, policy, versionOf);
      SingleVersionKeepsAll(Filtered(s, policy, versionOf), policy, versionOf);
    }
  }
}
