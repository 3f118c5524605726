/**
 * pkg/slicemap: binary search, an in-place comparison sort, slice and map
 * equality, and key/value extraction from maps.
 */
module SliceMap {

  // ------------------------------------------------------------ binary search

  /**
   * sort.Search-style bisection: with f(-1) taken as false and f(n) as true,
   * the loop keeps f(i-1) == false and f(j) == true, so the result is a
   * boundary of f whatever f is; for a monotone f it is the first true index.
   */
  method Search(n: nat, f: int --> bool) returns (i: nat)
    requires forall k :: 0 <= k < n ==> f.requires(k)
    ensures i <= n
    ensures i > 0 ==> !f(i - 1)
    ensures i < n ==> f(i)
    ensures Monotone(f, n) ==> (forall k :: 0 <= k < i ==> !f(k)) && (forall k :: i <= k < n ==> f(k))
  {
    var j: nat := n;
    i := 0;
    while i < j
      invariant i <= j <= n
      invariant i > 0 ==> !f(i - 1)
      invariant j < n ==> f(j)
      invariant Monotone(f, n) ==> (forall k :: 0 <= k < i ==> !f(k)) && (forall k :: j <= k < n ==> f(k))
      decreases j - i
    {
      var h := (i + j) / 2;
      assert i <= h < j;
      if !f(h) {
        i := h + 1;
      } else {
        j := h;
      }
    }
  }

  /** f is false on a prefix of [0, n) and true on the rest. */
  ghost predicate Monotone(f: int --> bool, n: nat)
    requires forall k :: 0 <= k < n ==> f.requires(k)
  {
    forall a, b :: 0 <= a <= b < n && f(a) ==> f(b)
  }

  /** The keys of `x` are in ascending order. */
  ghost predicate Ascending<E>(x: seq<E>, key: E -> int) {
    forall a, b :: 0 <= a <= b < |x| ==> key(x[a]) <= key(x[b])
  }

  /**
   * BinarySearch, with integer keys: the insertion position of `target` and
   * whether the key found there equals it.
   */
  method BinarySearch<E>(x: seq<E>, target: int, key: E -> int) returns (pos: nat, found: bool)
    ensures pos <= |x|
    ensures found <==> pos < |x| && key(x[pos]) == target
    ensures Ascending(x, key) ==> forall k :: 0 <= k < pos ==> key(x[k]) < target
    ensures Ascending(x, key) ==> forall k :: pos <= k < |x| ==> key(x[k]) >= target
    ensures Ascending(x, key) ==> (found <==> exists k :: 0 <= k < |x| && key(x[k]) == target)
  {
    var f := (i: int) requires 0 <= i < |x| => key(x[i]) >= target;
    pos := Search(|x|, f);
    found := pos < |x| && key(x[pos]) == target;
  }

  // ------------------------------------------------------------ sorting

  /** `less` is a strict weak order: asymmetric and negatively transitive. */
  ghost predicate StrictWeakOrder<T(!new)>(less: (T, T) -> bool) {
    && (forall x, y :: less(x, y) ==> !less(y, x))
    && (forall x, y, z {:trigger less(x, y), less(y, z)} {:trigger less(x, z), less(x, y)} {:trigger less(x, z), less(y, z)} ::
          less(x, z) ==> less(x, y) || less(y, z))
  }

  /** No element is less than an element before it. */
  ghost predicate SortedBy<T>(s: seq<T>, less: (T, T) -> bool) {
    forall a, b :: 0 <= a < b < |s| ==> !less(s[b], s[a])
  }

  /** Inserts `x` into `t` behind every element it is not less than, scanning from the right. */
  function Insert<T>(t: seq<T>, x: T, less: (T, T) -> bool): (r: seq<T>)
    ensures |r| == |t| + 1
  {
    if |t| == 0 || !less(x, t[|t| - 1]) then t + [x]
    else Insert(t[..|t| - 1], x, less) + [t[|t| - 1]]
  }

  /** The order an adjacent-swap insertion sort leaves a sequence in. */
  function InsertionSort<T>(s: seq<T>, less: (T, T) -> bool): (r: seq<T>)
    ensures |r| == |s|
  {
    if |s| == 0 then [] else Insert(InsertionSort(s[..|s| - 1], less), s[|s| - 1], less)
  }

  lemma {:induction false} InsertPermutes<T>(t: seq<T>, x: T, less: (T, T) -> bool)
    ensures multiset(Insert(t, x, less)) == multiset(t) + multiset{x}
  {
    if |t| > 0 && less(x, t[|t| - 1]) {
      InsertPermutes(t[..|t| - 1], x, less);
      assert t == t[..|t| - 1] + [t[|t| - 1]];
    }
  }

  /** Sorting only reorders: the result is a permutation of the input. */
  lemma {:induction false} SortPermutes<T>(s: seq<T>, less: (T, T) -> bool)
    ensures multiset(InsertionSort(s, less)) == multiset(s)
  {
    if |s| > 0 {
      SortPermutes(s[..|s| - 1], less);
      InsertPermutes(InsertionSort(s[..|s| - 1], less), s[|s| - 1], less);
      assert s == s[..|s| - 1] + [s[|s| - 1]];
    }
  }

  lemma {:induction false} InsertSorted<T(!new)>(t: seq<T>, x: T, less: (T, T) -> bool)
    requires StrictWeakOrder(less)
    requires SortedBy(t, less)
    ensures SortedBy(Insert(t, x, less), less)
  {
    if |t| == 0 {
    } else if !less(x, t[|t| - 1]) {
      var r := t + [x];
      forall a | 0 <= a < |t| ensures !less(x, t[a]) {
        if a < |t| - 1 {
          assert !less(t[|t| - 1], t[a]);
        }
      }
    } else {
      var last := t[|t| - 1];
      var init := t[..|t| - 1];
      InsertSorted(init, x, less);
      var ins := Insert(init, x, less);
      InsertPermutes(init, x, less);
      forall a | 0 <= a < |ins| ensures !less(last, ins[a]) {
        assert ins[a] in multiset(ins);
        if ins[a] != x {
          assert ins[a] in multiset(init);
          var k :| 0 <= k < |init| && init[k] == ins[a];
          assert t[k] == init[k];
        }
      }
    }
  }

  /** Under a strict weak order the result of the sort is ordered. */
  lemma {:induction false} SortSorts<T(!new)>(s: seq<T>, less: (T, T) -> bool)
    requires StrictWeakOrder(less)
    ensures SortedBy(InsertionSort(s, less), less)
  {
    if |s| > 0 {
      SortSorts(s[..|s| - 1], less);
      InsertSorted(InsertionSort(s[..|s| - 1], less), s[|s| - 1], less);
    }
  }

  /** Sorting an already ordered sequence changes nothing. */
  lemma {:induction false} SortOfSorted<T>(s: seq<T>, less: (T, T) -> bool)
    requires SortedBy(s, less)
    ensures InsertionSort(s, less) == s
  {
    if |s| > 0 {
      var init := s[..|s| - 1];
      var last := s[|s| - 1];
      assert SortedBy(init, less) by {
        forall a, b | 0 <= a < b < |init| ensures !less(init[b], init[a]) {
          assert init[a] == s[a] && init[b] == s[b];
        }
      }
      SortOfSorted(init, less);
      if |init| > 0 {
        assert init[|init| - 1] == s[|s| - 2];
        assert !less(last, init[|init| - 1]);
      }
      assert Insert(init, last, less) == init + [last];
      assert s == init + [last];
    }
  }

  /**
   * Sort: sorts `a` in place by adjacent swaps. Each element in turn is moved
   * left past every element it is less than.
   */
  method Sort<T>(a: array<T>, less: (T, T) -> bool)
    modifies a
    ensures a[..] == InsertionSort(old(a[..]), less)
  {
    ghost var orig := a[..];
    if a.Length == 0 {
      return;
    }
    var i := 1;
    assert a[..1] == [orig[0]];
    assert Insert([], orig[0], less) == [orig[0]];
    while i < a.Length
      invariant 1 <= i <= a.Length
      invariant a[..i] == InsertionSort(orig[..i], less)
      invariant a[i..] == orig[i..]
    {
      assert a[i] == orig[i] by {
        assert a[i..][0] == orig[i..][0];
      }
      SiftDown(a, i, less);
      SortSnoc(orig, i, less);
      assert a[i + 1..] == orig[i + 1..] by {
        assert orig[i + 1..] == orig[i..][1..];
      }
      i := i + 1;
    }
    assert orig[..a.Length] == orig;
    assert a[..a.Length] == a[..];
  }

  lemma SortSnoc<T>(s: seq<T>, i: nat, less: (T, T) -> bool)
    requires i < |s|
    ensures InsertionSort(s[..i + 1], less) == Insert(InsertionSort(s[..i], less), s[i], less)
  {
    assert s[..i + 1][..i] == s[..i];
  }

  /**
   * One pass of the sort: moves a[i] left while it is less than its left
   * neighbour, inserting it into the prefix a[..i].
   */
  method SiftDown<T>(a: array<T>, i: nat, less: (T, T) -> bool)
    requires i < a.Length
    modifies a
    ensures a[..i + 1] == Insert(old(a[..i]), old(a[i]), less)
    ensures a[i + 1..] == old(a[i + 1..])
  {
    ghost var p := a[..i];
    ghost var x := a[i];
    var j := i;
    assert p[..j] == p && p[j..] == [];
    while j > 0 && less(a[j], a[j - 1])
      invariant 0 <= j <= i
      invariant forall k :: 0 <= k < j ==> a[k] == p[k]
      invariant a[j] == x
      invariant forall k :: j < k <= i ==> a[k] == p[k - 1]
      invariant a[i + 1..] == old(a[i + 1..])
      invariant Insert(p, x, less) == Insert(p[..j], x, less) + p[j..]
    {
      assert p[..j][..j - 1] == p[..j - 1];
      assert p[j - 1..] == [p[j - 1]] + p[j..];
      a[j - 1], a[j] := a[j], a[j - 1];
      j := j - 1;
    }
    if j > 0 {
      assert p[..j][j - 1] == p[j - 1];
    }
    assert a[..i + 1] == p[..j] + [x] + p[j..];
  }

  /** SortASC: the ascending comparator on integers. */
  function SortASC(l: int, r: int): bool { l < r }

  lemma SortASCIsStrictWeak()
    ensures StrictWeakOrder(SortASC)
  {
  }

  /** The example case of the sort test: [7, 102, 84, 12] sorts to [7, 12, 84, 102]. */
  lemma SortExample()
    ensures InsertionSort([7, 102, 84, 12], SortASC) == [7, 12, 84, 102]
  {
    assert [7, 102, 84, 12][..3] == [7, 102, 84];
    assert [7, 102, 84][..2] == [7, 102];
    assert [7, 102][..1] == [7];
    assert [7][..0] == [];
    assert InsertionSort([7], SortASC) == [7];
    assert InsertionSort([7, 102], SortASC) == [7, 102];
    assert [7, 102][..1] == [7];
    assert Insert([7], 84, SortASC) == [7, 84];
    assert Insert([7, 102], 84, SortASC) == [7, 84, 102];
    assert InsertionSort([7, 102, 84], SortASC) == [7, 84, 102];
    assert [7, 84, 102][..2] == [7, 84];
    assert [7, 84][..1] == [7];
    assert Insert([7], 12, SortASC) == [7, 12];
    assert Insert([7, 84], 12, SortASC) == [7, 12, 84];
    assert Insert([7, 84, 102], 12, SortASC) == [7, 12, 84, 102];
  }

  // ------------------------------------------------------------ equality

  /**
   * SliceIsEqual: slices of different lengths are unequal and left as they
   * are; otherwise both are sorted ascending in place and compared
   * element-wise, which decides whether they hold the same multiset.
   */
  method SliceIsEqual(left: array<int>, right: array<int>) returns (eq: bool)
    modifies left, right
    ensures left.Length != right.Length ==> !eq && left[..] == old(left[..]) && right[..] == old(right[..])
    ensures left.Length == right.Length ==> left[..] == InsertionSort(old(left[..]), SortASC)
    ensures left.Length == right.Length && left != right ==> right[..] == InsertionSort(old(right[..]), SortASC)
    ensures eq <==> multiset(old(left[..])) == multiset(old(right[..]))
  {
    if left.Length != right.Length {
      assert |multiset(left[..])| == left.Length && |multiset(right[..])| == right.Length;
      return false;
    }
    ghost var l0, r0 := left[..], right[..];
    Sort(left, SortASC);
    ghost var l1 := left[..];
    Sort(right, SortASC);
    if left == right {
      SortASCIsStrictWeak();
      SortSorts(l0, SortASC);
      SortOfSorted(l1, SortASC);
    }
    eq := ElementsEqual(left, right);
    SameSortedSameMultiset(l0, r0);
  }

  /** Element-wise comparison of two arrays of one length. */
  method ElementsEqual(left: array<int>, right: array<int>) returns (eq: bool)
    requires left.Length == right.Length
    ensures eq <==> left[..] == right[..]
  {
    var i := 0;
    while i < left.Length
      invariant 0 <= i <= left.Length
      invariant forall k :: 0 <= k < i ==> left[k] == right[k]
    {
      if left[i] != right[i] {
        assert left[..][i] != right[..][i];
        return false;
      }
      i := i + 1;
    }
    assert left[..] == right[..];
    return true;
  }

  /** Two integer sequences sort to the same sequence exactly when they hold the same multiset. */
  lemma SameSortedSameMultiset(l: seq<int>, r: seq<int>)
    ensures InsertionSort(l, SortASC) == InsertionSort(r, SortASC) <==> multiset(l) == multiset(r)
  {
    SortPermutes(l, SortASC);
    SortPermutes(r, SortASC);
    SortASCIsStrictWeak();
    SortSorts(l, SortASC);
    SortSorts(r, SortASC);
    if multiset(l) == multiset(r) {
      AscendingUnique(InsertionSort(l, SortASC), InsertionSort(r, SortASC));
    }
  }

  /** The head of an ascending sequence is at most each of its elements. */
  lemma HeadIsLeast(a: seq<int>, v: int)
    requires SortedBy(a, SortASC)
    requires v in multiset(a)
    ensures |a| > 0 && a[0] <= v
  {
    var k :| 0 <= k < |a| && a[k] == v;
    if k > 0 {
      assert !SortASC(a[k], a[0]);
    }
  }

  /** Two ascending integer sequences with the same multiset are equal. */
  lemma {:induction false} AscendingUnique(a: seq<int>, b: seq<int>)
    requires SortedBy(a, SortASC) && SortedBy(b, SortASC)
    requires multiset(a) == multiset(b)
    ensures a == b
  {
    if |a| == 0 {
      assert |multiset(b)| == 0;
    } else {
      assert a[0] in multiset(a);
      HeadIsLeast(b, a[0]);
      assert b[0] in multiset(b);
      HeadIsLeast(a, b[0]);
      assert a[0] == b[0];
      assert a == [a[0]] + a[1..];
      assert b == [b[0]] + b[1..];
      assert multiset(a) == multiset{a[0]} + multiset(a[1..]);
      assert multiset(b) == multiset{b[0]} + multiset(b[1..]);
      assert multiset(a[1..]) == multiset(a) - multiset{a[0]};
      assert multiset(b[1..]) == multiset(b) - multiset{b[0]};
      AscendingUnique(a[1..], b[1..]);
    }
  }

  /**
   * MapIsEqual (also the semantics of maps.Equal): equal sizes and every key
   * of `left` mapped by `right` to the same value.
   */
  predicate MapIsEqual<K, V(==)>(left: map<K, V>, right: map<K, V>) {
    |left| == |right| && forall k :: k in left ==> k in right && right[k] == left[k]
  }

  /** MapIsEqual is exactly map equality, and hence symmetric. */
  lemma MapIsEqualIff<K, V>(left: map<K, V>, right: map<K, V>)
    ensures MapIsEqual(left, right) <==> left == right
    ensures MapIsEqual(left, right) <==> MapIsEqual(right, left)
  {
    MapIsEqualImpliesEqual(left, right);
    MapIsEqualImpliesEqual(right, left);
  }

  lemma MapIsEqualImpliesEqual<K, V>(left: map<K, V>, right: map<K, V>)
    ensures MapIsEqual(left, right) ==> left == right
  {
    if MapIsEqual(left, right) {
      assert left.Keys <= right.Keys;
      SubsetSameSize(left.Keys, right.Keys);
      assert left.Keys == right.Keys;
    }
  }

  lemma SubsetSameSize<K>(a: set<K>, b: set<K>)
    requires a <= b && |a| == |b|
    ensures a == b
  {
    assert |b - a| == |b| - |a|;
  }

  // ------------------------------------------------------------ maps to slices

  /** MapKeys: every key of `x` exactly once, in the map's iteration order. */
  method MapKeys<K, V>(x: map<K, V>) returns (ks: seq<K>)
    ensures |ks| == |x|
    ensures forall k :: k in x ==> k in ks
    ensures forall k :: k in ks ==> k in x
    ensures forall a, b :: 0 <= a < b < |ks| ==> ks[a] != ks[b]
  {
    ks := [];
    var rest := x.Keys;
    while rest != {}
      invariant rest <= x.Keys
      invariant forall k :: k in x.Keys ==> k in rest || k in ks
      invariant forall k :: k in ks ==> k in x && k !in rest
      invariant forall a, b :: 0 <= a < b < |ks| ==> ks[a] != ks[b]
      invariant |ks| + |rest| == |x|
      decreases rest
    {
      var k :| k in rest;
      ks := ks + [k];
      rest := rest - {k};
    }
  }

  /** MapValues: one value per entry of `m`, in the map's iteration order. */
  method MapValues<K, V>(m: map<K, V>) returns (vs: seq<V>, ghost keys: seq<K>)
    ensures |vs| == |m| && |keys| == |m|
    ensures forall k :: k in m <==> k in keys
    ensures forall a, b :: 0 <= a < b < |keys| ==> keys[a] != keys[b]
    ensures forall i :: 0 <= i < |vs| ==> keys[i] in m && vs[i] == m[keys[i]]
  {
    vs, keys := [], [];
    var rest := m.Keys;
    while rest != {}
      invariant rest <= m.Keys
      invariant |vs| == |keys|
      invariant forall k :: k in m.Keys ==> k in rest || k in keys
      invariant forall k :: k in keys ==> k in m && k !in rest
      invariant forall a, b :: 0 <= a < b < |keys| ==> keys[a] != keys[b]
      invariant forall i :: 0 <= i < |vs| ==> keys[i] in m && vs[i] == m[keys[i]]
      invariant |keys| + |rest| == |m|
      decreases rest
    {
      var k :| k in rest;
      vs, keys := vs + [m[k]], keys + [k];
      rest := rest - {k};
    }
  }

  /** Contains: whether some element equals `v`; the scan stops at the first match. */
  method Contains<T(==)>(waits: seq<T>, v: T) returns (r: bool)
    ensures r <==> v in waits
  {
    var i := 0;
    while i < |waits|
      invariant 0 <= i <= |waits|
      invariant v !in waits[..i]
    {
      if waits[i] == v {
        return true;
      }
      assert waits[..i + 1] == waits[..i] + [waits[i]];
      i := i + 1;
    }
    assert waits[..i] == waits;
    return false;
  }
}
