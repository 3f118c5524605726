/**
 * Version precedence of parsed semantic versions, as section 11 of
 * Semantic Versioning 2.0.0 defines it: major, minor and patch numerically,
 * then pre-release identifiers field by field, numeric identifiers below
 * alphanumeric ones, a larger set of fields above a prefix of it, and a
 * version without pre-release above any version with one. Build metadata
 * does not take part and is not represented.
 */
module SemVer {
  import SliceMap

  /** One dot-separated pre-release identifier. */
  datatype PreId = Num(n: nat) | Alpha(s: string)

  datatype Version = Version(major: nat, minor: nat, patch: nat, pre: seq<PreId>)

  /** Three-way comparison of integers. */
  function Sign(a: int, b: int): (r: int)
    ensures r == -1 || r == 0 || r == 1
    ensures r < 0 <==> a < b
    ensures r == 0 <==> a == b
  {
    if a < b then -1 else if a > b then 1 else 0
  }

  /** Byte-wise (here: code-point-wise) lexicographic comparison of strings, as Go's string ordering. */
  function CompareString(a: string, b: string): (r: int)
    ensures r == -1 || r == 0 || r == 1
    decreases |a|
  {
    if |a| == 0 then (if |b| == 0 then 0 else -1)
    else if |b| == 0 then 1
    else if a[0] != b[0] then Sign(a[0] as int, b[0] as int)
    else CompareString(a[1..], b[1..])
  }

  function CompareId(a: PreId, b: PreId): (r: int)
    ensures r == -1 || r == 0 || r == 1
  {
    match (a, b)
    case (Num(x), Num(y)) => Sign(x, y)
    case (Num(_), Alpha(_)) => -1
    case (Alpha(_), Num(_)) => 1
    case (Alpha(x), Alpha(y)) => CompareString(x, y)
  }

  /** Field-by-field comparison; when one list is a prefix of the other, the longer one is greater. */
  function CompareIds(a: seq<PreId>, b: seq<PreId>): (r: int)
    ensures r == -1 || r == 0 || r == 1
    decreases |a|
  {
    if |a| == 0 then (if |b| == 0 then 0 else -1)
    else if |b| == 0 then 1
    else if CompareId(a[0], b[0]) != 0 then CompareId(a[0], b[0])
    else CompareIds(a[1..], b[1..])
  }

  /** A version without pre-release ranks above one with a pre-release. */
  function ComparePre(a: seq<PreId>, b: seq<PreId>): (r: int)
    ensures r == -1 || r == 0 || r == 1
  {
    if |a| == 0 && |b| != 0 then 1
    else if |b| == 0 && |a| != 0 then -1
    else CompareIds(a, b)
  }

  function Compare(v: Version, w: Version): (r: int)
    ensures r == -1 || r == 0 || r == 1
  {
    if v.major != w.major then Sign(v.major, w.major)
    else if v.minor != w.minor then Sign(v.minor, w.minor)
    else if v.patch != w.patch then Sign(v.patch, w.patch)
    else ComparePre(v.pre, w.pre)
  }

  /** LessThan: v has lower precedence than w. */
  predicate Less(v: Version, w: Version) {
    Compare(v, w) < 0
  }

  // ------------------------------------------------------------ strings

  lemma {:induction false} CompareStringLaws(a: string, b: string)
    ensures CompareString(a, b) == -CompareString(b, a)
    ensures CompareString(a, b) == 0 <==> a == b
    decreases |a|
  {
    if |a| > 0 && |b| > 0 && a[0] == b[0] {
      CompareStringLaws(a[1..], b[1..]);
      if a[1..] == b[1..] {
        assert a == [a[0]] + a[1..] && b == [b[0]] + b[1..];
      }
    }
  }

  lemma {:induction false} CompareStringTrans(a: string, b: string, c: string)
    requires CompareString(a, b) < 0 && CompareString(b, c) < 0
    ensures CompareString(a, c) < 0
    decreases |a|
  {
    if |a| > 0 && |b| > 0 && |c| > 0 && a[0] == b[0] && b[0] == c[0] {
      CompareStringTrans(a[1..], b[1..], c[1..]);
    }
  }

  // ------------------------------------------------------------ identifiers

  lemma CompareIdLaws(a: PreId, b: PreId)
    ensures CompareId(a, b) == -CompareId(b, a)
    ensures CompareId(a, b) == 0 <==> a == b
  {
    if a.Alpha? && b.Alpha? {
      CompareStringLaws(a.s, b.s);
    }
  }

  lemma CompareIdTrans(a: PreId, b: PreId, c: PreId)
    requires CompareId(a, b) < 0 && CompareId(b, c) < 0
    ensures CompareId(a, c) < 0
  {
    if a.Alpha? && b.Alpha? && c.Alpha? {
      CompareStringTrans(a.s, b.s, c.s);
    }
  }

  lemma {:induction false} CompareIdsLaws(a: seq<PreId>, b: seq<PreId>)
    ensures CompareIds(a, b) == -CompareIds(b, a)
    ensures CompareIds(a, b) == 0 <==> a == b
    decreases |a|
  {
    if |a| > 0 && |b| > 0 {
      CompareIdLaws(a[0], b[0]);
      if CompareId(a[0], b[0]) == 0 {
        CompareIdsLaws(a[1..], b[1..]);
        if a[1..] == b[1..] {
          assert a == [a[0]] + a[1..] && b == [b[0]] + b[1..];
        }
      }
    }
  }

  lemma {:induction false} CompareIdsTrans(a: seq<PreId>, b: seq<PreId>, c: seq<PreId>)
    requires CompareIds(a, b) < 0 && CompareIds(b, c) < 0
    ensures CompareIds(a, c) < 0
    decreases |a|
  {
    if |a| > 0 && |b| > 0 && |c| > 0 {
      CompareIdLaws(a[0], b[0]);
      CompareIdLaws(b[0], c[0]);
      CompareIdLaws(a[0], c[0]);
      if CompareId(a[0], b[0]) == 0 && CompareId(b[0], c[0]) == 0 {
        CompareIdsTrans(a[1..], b[1..], c[1..]);
      } else if CompareId(a[0], b[0]) < 0 && CompareId(b[0], c[0]) < 0 {
        CompareIdTrans(a[0], b[0], c[0]);
      }
    }
  }

  // ------------------------------------------------------------ versions

  /** Compare is antisymmetric and returns 0 exactly for equal versions. */
  lemma CompareLaws(v: Version, w: Version)
    ensures Compare(v, w) == -Compare(w, v)
    ensures Compare(v, w) == 0 <==> v == w
  {
    CompareIdsLaws(v.pre, w.pre);
  }

  /** Compare is transitive. */
  lemma CompareTrans(u: Version, v: Version, w: Version)
    requires Compare(u, v) < 0 && Compare(v, w) < 0
    ensures Compare(u, w) < 0
  {
    if u.major == v.major == w.major && u.minor == v.minor == w.minor && u.patch == v.patch == w.patch {
      if |u.pre| != 0 && |v.pre| != 0 && |w.pre| != 0 {
        CompareIdsTrans(u.pre, v.pre, w.pre);
      }
    }
  }

  /** Precedence is a strict weak order (indeed a strict total order), so sorting by it is well defined. */
  lemma LessIsStrictWeak()
    ensures SliceMap.StrictWeakOrder(Less)
  {
    forall x, y | Less(x, y) ensures !Less(y, x) {
      CompareLaws(x, y);
    }
    forall x, y, z | Less(x, z) ensures Less(x, y) || Less(y, z) {
      CompareLaws(x, y);
      CompareLaws(y, z);
      if !Less(x, y) && y != x {
        CompareTrans(y, x, z);
      }
    }
  }

  /** Every two distinct versions are ordered one way or the other. */
  lemma LessTotal(v: Version, w: Version)
    ensures v == w || Less(v, w) || Less(w, v)
    ensures !Less(v, v)
  {
    CompareLaws(v, w);
    CompareLaws(v, v);
  }

  /** Examples from section 11: 1.0.0-alpha < 1.0.0-alpha.1 < 1.0.0-alpha.beta < 1.0.0-beta < 1.0.0-beta.2 < 1.0.0-rc.1 < 1.0.0. */
  lemma PrecedenceExamples()
    ensures Less(Version(1, 0, 0, [Alpha("alpha")]), Version(1, 0, 0, [Alpha("alpha"), Num(1)]))
    ensures Less(Version(1, 0, 0, [Alpha("alpha"), Num(1)]), Version(1, 0, 0, [Alpha("alpha"), Alpha("beta")]))
    ensures Less(Version(1, 0, 0, [Alpha("alpha"), Alpha("beta")]), Version(1, 0, 0, [Alpha("beta")]))
    ensures Less(Version(1, 0, 0, [Alpha("beta"), Num(2)]), Version(1, 0, 0, [Alpha("beta"), Num(11)]))
    ensures Less(Version(1, 0, 0, [Alpha("rc"), Num(1)]), Version(1, 0, 0, []))
    ensures Less(Version(1, 9, 0, []), Version(1, 10, 0, []))
  {
    assert "alpha"[1..] == "lpha";
    assert CompareString("alpha", "beta") == -1;
  }
}
