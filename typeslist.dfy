/**
 * pkg/types/list.go: a list of values written as comma-separated text
 * (and as a JSON string holding that text), and slice helpers. Items
 * are strings, converted to and from text unchanged.
 */
module TypesList {
  import opened Wrappers
  import opened Text

  const Comma: char := ','
  const Quote: string := "\""
  const EmptyDataError: string := "data长度为0"

  /** MarshalText: the items joined with ",". */
  function TextOf(items: seq<string>): string {
    Join(items, [Comma])
  }

  /** Items separated by commas, or absent: every item is comma-free. */
  predicate CommaFree(items: seq<string>) {
    forall k :: 0 <= k < |items| ==> Comma !in items[k]
  }

  /** The items UnmarshalText leaves: unchanged for "" and any-case "null", else the comma-split text. */
  function FromText(prev: seq<string>, text: string): (r: seq<string>)
    ensures |text| == 0 || EqualFold(text, "null") ==> r == prev
    ensures |text| > 0 && !EqualFold(text, "null") ==> |r| > 0 && CommaFree(r)
  {
    if |text| == 0 then prev
    else if EqualFold(text, "null") then prev
    else Split(text, Comma)
  }

  /** The JSON payload with one leading and one trailing quote removed, when it starts with a quote. */
  function Unquoted(data: string): (r: string)
    ensures |data| > 0 && data[0] != '"' ==> r == data
    ensures |r| <= |data|
  {
    if |data| > 0 && data[0] == '"' then TrimSuffix(TrimPrefix(data, Quote), Quote) else data
  }

  /** The outcome of UnmarshalJSON: an error for empty input, else the items left. */
  function FromJSON(prev: seq<string>, data: string): (r: Result<seq<string>, string>)
    ensures |data| == 0 <==> r.Err?
    ensures r.Err? ==> r.error == EmptyDataError
    ensures |data| > 0 && (EqualFold(data, "null") || |Unquoted(data)| == 0) ==> r == Ok(prev)
  {
    if |data| == 0 then Err(EmptyDataError)
    else if EqualFold(data, "null") then Ok(prev)
    else
      var text := Unquoted(data);
      if |text| == 0 then Ok(prev) else Ok(Split(text, Comma))
  }

  /** Text round trip: comma-free items whose text is neither empty nor "null" come back. */
  lemma TextRoundTrip(prev: seq<string>, items: seq<string>)
    requires CommaFree(items)
    requires TextOf(items) != "" && !EqualFold(TextOf(items), "null")
    ensures FromText(prev, TextOf(items)) == items
  {
    assert |items| > 0;
    SplitJoin(items, Comma);
  }

  /** A single item "null" marshals to text that UnmarshalText ignores. */
  lemma NullItemIsIgnored(prev: seq<string>)
    ensures TextOf(["null"]) == "null"
    ensures FromText(prev, TextOf(["null"])) == prev
  {
  }

  /** JSON round trip: comma-free items whose text is non-empty come back, "null" included. */
  lemma {:induction false} JSONRoundTrip(prev: seq<string>, items: seq<string>)
    requires CommaFree(items)
    requires TextOf(items) != ""
    ensures FromJSON(prev, Quote + TextOf(items) + Quote) == Ok(items)
  {
    var t := TextOf(items);
    var data := Quote + t + Quote;
    assert ToLower(data)[0] == '"';
    assert !EqualFold(data, "null");
    assert data[0] == '"';
    assert HasPrefix(data, Quote);
    assert TrimPrefix(data, Quote) == t + Quote;
    assert HasSuffix(t + Quote, Quote);
    assert Unquoted(data) == t;
    assert |items| > 0;
    SplitJoin(items, Comma);
  }

  class List {
    var items: seq<string>

    constructor (items: seq<string>)
      ensures this.items == items
    {
      this.items := items;
    }

    /** MarshalText: comma-free items can be read back by splitting at the commas. */
    function MarshalText(): (r: string)
      reads this
      ensures |items| > 0 && CommaFree(items) ==> Split(r, Comma) == items
    {
      if |items| > 0 && CommaFree(items) then SplitJoin(items, Comma); TextOf(items) else TextOf(items)
    }

    /** MarshalJSON: the text of MarshalText between quotes. */
    function MarshalJSON(): (r: string)
      reads this
      ensures |r| >= 2 && r[0] == '"' && r[|r| - 1] == '"'
      ensures r[1..|r| - 1] == MarshalText()
    {
      Quote + TextOf(items) + Quote
    }

    /** UnmarshalText: identity conversion of the items never fails. */
    method UnmarshalText(text: string) returns (err: Option<string>)
      modifies this
      ensures err.None?
      ensures items == FromText(old(items), text)
    {
      if |text| == 0 {
        return None;
      }
      if EqualFold(text, "null") {
        return None;
      }
      items := Split(text, Comma);
      return None;
    }

    method UnmarshalJSON(data: string) returns (err: Option<string>)
      modifies this
      ensures err.Some? <==> FromJSON(old(items), data).Err?
      ensures err.Some? ==> err.value == EmptyDataError && items == old(items)
      ensures err.None? ==> items == FromJSON(old(items), data).value
    {
      if |data| == 0 {
        return Some(EmptyDataError);
      }
      if EqualFold(data, "null") {
        return None;
      }
      var text := data;
      if text[0] == '"' {
        text := TrimSuffix(TrimPrefix(text, Quote), Quote);
      }
      if |text| == 0 {
        return None;
      }
      items := Split(text, Comma);
      return None;
    }

    /** Contains: whether data is one of the items. */
    method Contains(data: string) returns (found: bool)
      ensures found <==> data in items
    {
      if |items| == 0 {
        return false;
      }
      var i := 0;
      while i < |items|
        invariant 0 <= i <= |items|
        invariant data !in items[..i]
      {
        if items[i] == data {
          return true;
        }
        assert items[..i + 1] == items[..i] + [items[i]];
        i := i + 1;
      }
      assert items[..i] == items;
      return false;
    }
  }

  /** IndexOf: arr[index], the zero value past the end; a negative index panics. */
  function IndexOf<T>(arr: seq<T>, index: int, zero: T): (r: Option<T>)
    ensures r.None? <==> index < 0
    ensures 0 <= index < |arr| ==> r == Some(arr[index])
    ensures index >= |arr| ==> r == Some(zero)
  {
    if |arr| - 1 < index then Some(zero)
    else if index < 0 then None
    else Some(arr[index])
  }

  // ------------------------------------------------------------- MappingList

  /** The map MappingList has built after the first n keys. */
  function Mapped<K(==), V>(keys: seq<K>, values: seq<V>, zero: V, n: nat): map<K, V>
    requires n <= |keys|
  {
    if n == 0 then map[]
    else Mapped(keys, values, zero, n - 1)[keys[n - 1] := if n - 1 < |values| then values[n - 1] else zero]
  }

  /** The value MappingList gives the key at index i. */
  function ValueAt<V>(values: seq<V>, zero: V, i: nat): V {
    if i < |values| then values[i] else zero
  }

  /**
   * Every key is mapped, to the value at the last index where it occurs,
   * or to zero when values are too short; nothing else is mapped.
   */
  lemma {:induction false} MappedSpec<K, V>(keys: seq<K>, values: seq<V>, zero: V, n: nat)
    requires n <= |keys|
    ensures forall k :: k in Mapped(keys, values, zero, n) <==> k in keys[..n]
    ensures forall i :: 0 <= i < n && keys[i] !in keys[i + 1..n] ==> Mapped(keys, values, zero, n)[keys[i]] == ValueAt(values, zero, i)
  {
    if n > 0 {
      MappedSpec(keys, values, zero, n - 1);
      assert keys[..n] == keys[..n - 1] + [keys[n - 1]];
      forall i | 0 <= i < n && keys[i] !in keys[i + 1..n]
        ensures Mapped(keys, values, zero, n)[keys[i]] == ValueAt(values, zero, i)
      {
        if i < n - 1 {
          assert keys[n - 1] in keys[i + 1..n];
          assert keys[i + 1..n - 1] == keys[i + 1..n][..n - 1 - (i + 1)];
        }
      }
    }
  }

  /** MappingList: keys[i] to values[i], or to zero past the end of values. */
  method MappingList<K(==), V>(keys: seq<K>, values: seq<V>, zero: V) returns (kv: map<K, V>)
    ensures kv == Mapped(keys, values, zero, |keys|)
  {
    kv := map[];
    var last := |values| - 1;
    var i := 0;
    while i < |keys|
      invariant 0 <= i <= |keys|
      invariant kv == Mapped(keys, values, zero, i)
    {
      if i > last {
        kv := kv[keys[i] := zero];
      } else {
        kv := kv[keys[i] := values[i]];
      }
      i := i + 1;
    }
  }

  // ------------------------------------------------------ SliceToMap, SliceFold

  /** The map SliceToMap has built from arr. */
  function Keyed<K(==), V>(arr: seq<V>, getKey: V -> K): map<K, V> {
    if arr == [] then map[]
    else Keyed(arr[..|arr| - 1], getKey)[getKey(arr[|arr| - 1]) := arr[|arr| - 1]]
  }

  /** The keys of the elements in arr. */
  function KeysOf<K, V>(arr: seq<V>, getKey: V -> K): set<K> {
    set i | 0 <= i < |arr| :: getKey(arr[i])
  }

  lemma KeysOfSnoc<K, V>(arr: seq<V>, getKey: V -> K)
    requires arr != []
    ensures KeysOf(arr, getKey) == KeysOf(arr[..|arr| - 1], getKey) + {getKey(arr[|arr| - 1])}
  {
    var front := arr[..|arr| - 1];
    assert forall i :: 0 <= i < |front| ==> front[i] == arr[i];
    forall k | k in KeysOf(arr, getKey)
      ensures k in KeysOf(front, getKey) + {getKey(arr[|arr| - 1])}
    {
      var i :| 0 <= i < |arr| && getKey(arr[i]) == k;
      if i < |front| {
        assert getKey(front[i]) == k;
      }
    }
  }

  /** Exactly the keys of the elements are mapped, each to the last element with that key. */
  lemma {:induction false} KeyedSpec<K, V>(arr: seq<V>, getKey: V -> K)
    ensures Keyed(arr, getKey).Keys == KeysOf(arr, getKey)
    ensures forall i :: 0 <= i < |arr| && (forall j :: i < j < |arr| ==> getKey(arr[j]) != getKey(arr[i])) ==>
      getKey(arr[i]) in Keyed(arr, getKey) && Keyed(arr, getKey)[getKey(arr[i])] == arr[i]
  {
    if arr != [] {
      var front := arr[..|arr| - 1];
      KeyedSpec(front, getKey);
      KeysOfSnoc(arr, getKey);
      assert forall i :: 0 <= i < |front| ==> front[i] == arr[i];
    }
  }

  /** SliceToMap: each element under its key; a later element replaces an earlier one. */
  method SliceToMap<K(==), V>(arr: seq<V>, getKey: V -> K) returns (kv: map<K, V>)
    ensures kv == Keyed(arr, getKey)
  {
    kv := map[];
    var i := 0;
    while i < |arr|
      invariant 0 <= i <= |arr|
      invariant kv == Keyed(arr[..i], getKey)
    {
      assert arr[..i + 1][..i] == arr[..i];
      kv := kv[getKey(arr[i]) := arr[i]];
      i := i + 1;
    }
    assert arr[..i] == arr;
  }

  /** The elements of arr with key k, in order. */
  function Group<K(==), V>(arr: seq<V>, getKey: V -> K, k: K): (r: seq<V>)
    ensures |r| <= |arr|
    ensures forall x :: x in r ==> x in arr && getKey(x) == k
  {
    if arr == [] then []
    else Group(arr[..|arr| - 1], getKey, k) + (if getKey(arr[|arr| - 1]) == k then [arr[|arr| - 1]] else [])
  }

  // ----------------------------------------------------------- MappingFilter

  /** The value under k in m, or zero for an absent key, as a Go map read gives. */
  function MapGet<K, V>(m: map<K, V>, k: K, zero: V): V {
    if k in m then m[k] else zero
  }

  /**
   * The map MappingFilter has built after the first n keys: the key at index
   * i is looked up by key in byKey, but only while i is below count, the
   * length of the value slice; past it the key gets zero.
   */
  function Selected<K(==), V>(keys: seq<K>, byKey: map<K, V>, count: nat, zero: V, n: nat): map<K, V>
    requires n <= |keys|
  {
    if n == 0 then map[]
    else Selected(keys, byKey, count, zero, n - 1)[keys[n - 1] := if n - 1 < count then MapGet(byKey, keys[n - 1], zero) else zero]
  }

  /**
   * Exactly the keys are mapped. The key whose last occurrence is at index i
   * gets its element's value when i is below count, and zero otherwise, even
   * when an element with that key exists.
   */
  lemma {:induction false} SelectedSpec<K, V>(keys: seq<K>, byKey: map<K, V>, count: nat, zero: V, n: nat)
    requires n <= |keys|
    ensures forall k :: k in Selected(keys, byKey, count, zero, n) <==> k in keys[..n]
    ensures forall i :: 0 <= i < n && keys[i] !in keys[i + 1..n] ==>
      Selected(keys, byKey, count, zero, n)[keys[i]] == (if i < count then MapGet(byKey, keys[i], zero) else zero)
  {
    if n > 0 {
      SelectedSpec(keys, byKey, count, zero, n - 1);
      assert keys[..n] == keys[..n - 1] + [keys[n - 1]];
      forall i | 0 <= i < n && keys[i] !in keys[i + 1..n]
        ensures Selected(keys, byKey, count, zero, n)[keys[i]] == (if i < count then MapGet(byKey, keys[i], zero) else zero)
      {
        if i < n - 1 {
          assert keys[n - 1] in keys[i + 1..n];
          assert keys[i + 1..n - 1] == keys[i + 1..n][..n - 1 - (i + 1)];
        }
      }
    }
  }

  /**
   * MappingFilter: the elements are first keyed with SliceToMap; then each
   * key is looked up there, while its index is below the number of elements.
   */
  method MappingFilter<K(==), V>(keys: seq<K>, arr: seq<V>, getKey: V -> K, zero: V) returns (kv: map<K, V>)
    ensures kv == Selected(keys, Keyed(arr, getKey), |arr|, zero, |keys|)
  {
    var byKey := SliceToMap(arr, getKey);
    kv := map[];
    var last := |arr| - 1;
    var i := 0;
    while i < |keys|
      invariant 0 <= i <= |keys|
      invariant kv == Selected(keys, byKey, |arr|, zero, i)
    {
      if i > last {
        kv := kv[keys[i] := zero];
      } else {
        kv := kv[keys[i] := MapGet(byKey, keys[i], zero)];
      }
      i := i + 1;
    }
  }

  /**
   * The cut-off is by position: with keys ["a", "b"] and one element keyed
   * "b", the key "b" is mapped to zero although its element exists.
   */
  lemma {:induction false} FilterCutsByPosition<V>(x: V, getKey: V -> string, zero: V)
    requires getKey(x) == "b"
    ensures Selected(["a", "b"], Keyed([x], getKey), 1, zero, 2)["b"] == zero
    ensures "b" in Keyed([x], getKey) && Keyed([x], getKey)["b"] == x
  {
    assert [x][..0] == [];
  }

  /** The map SliceFold has built from arr. */
  function Folded<K(==), V>(arr: seq<V>, getKey: V -> K): map<K, seq<V>> {
    if arr == [] then map[]
    else
      var m := Folded(arr[..|arr| - 1], getKey);
      var k := getKey(arr[|arr| - 1]);
      m[k := (if k in m then m[k] else []) + [arr[|arr| - 1]]]
  }

  /** Exactly the keys that occur are present, each with its elements in input order. */
  lemma {:induction false} FoldedSpec<K, V>(arr: seq<V>, getKey: V -> K)
    ensures Folded(arr, getKey).Keys == KeysOf(arr, getKey)
    ensures forall k :: k in Folded(arr, getKey) ==> Folded(arr, getKey)[k] == Group(arr, getKey, k)
    ensures forall k :: k !in Folded(arr, getKey) ==> Group(arr, getKey, k) == []
  {
    if arr != [] {
      var front := arr[..|arr| - 1];
      FoldedSpec(front, getKey);
      KeysOfSnoc(arr, getKey);
      var last := arr[|arr| - 1];
      forall k | k in Folded(arr, getKey)
        ensures Folded(arr, getKey)[k] == Group(arr, getKey, k)
      {
        assert Group(arr, getKey, k) == Group(front, getKey, k) + (if getKey(last) == k then [last] else []);
        if k != getKey(last) {
          assert Group(front, getKey, k) + [] == Group(front, getKey, k);
        }
      }
    }
  }

  /** SliceFold: the elements grouped by key, each group in input order. */
  method SliceFold<K(==), V>(arr: seq<V>, getKey: V -> K) returns (kv: map<K, seq<V>>)
    ensures kv == Folded(arr, getKey)
  {
    kv := map[];
    var i := 0;
    while i < |arr|
      invariant 0 <= i <= |arr|
      invariant kv == Folded(arr[..i], getKey)
    {
      var key := getKey(arr[i]);
      assert arr[..i + 1][..i] == arr[..i];
      assert Folded(arr[..i + 1], getKey) == kv[key := (if key in kv then kv[key] else []) + [arr[i]]];
      if key !in kv {
        assert [] + [arr[i]] == [arr[i]];
        kv := kv[key := [arr[i]]];
      } else {
        kv := kv[key := kv[key] + [arr[i]]];
      }
      i := i + 1;
    }
    assert arr[..i] == arr;
  }
}
