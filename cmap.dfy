/**
 * pkg/cmap: a map behind a read-write lock. The lock is not modelled; the
 * underlying map is an object of its own so that ToMap can hand out the
 * very map the SafeMap keeps using.
 */
module CMap {
  import opened Wrappers

  /** mmap: the plain map and its operations. */
  class MMap<K(==), V> {
    var entries: map<K, V>

    constructor ()
      ensures entries == map[]
    {
      entries := map[];
    }

    method Get(key: K) returns (v: Option<V>)
      ensures v.Some? <==> key in entries
      ensures v.Some? ==> v.value == entries[key]
    {
      if key in entries {
        return Some(entries[key]);
      }
      return None;
    }

    method Set(key: K, val: V)
      modifies this
      ensures entries == old(entries)[key := val]
    {
      entries := entries[key := val];
    }

    method Remove(key: K)
      modifies this
      ensures entries == old(entries) - {key}
    {
      entries := entries - {key};
    }

    method Length() returns (n: nat)
      ensures n == |entries.Keys|
    {
      return |entries.Keys|;
    }

    /**
     * Range: keys are visited in an order the map does not fix, each at
     * most once, until iter first answers false. The visited keys are
     * returned.
     */
    method Range(iter: (K, V) -> bool) returns (visited: seq<K>)
      ensures forall i :: 0 <= i < |visited| ==> visited[i] in entries
      ensures forall i, j :: 0 <= i < j < |visited| ==> visited[i] != visited[j]
      ensures forall i :: 0 <= i < |visited| - 1 ==> iter(visited[i], entries[visited[i]])
      ensures (forall i :: 0 <= i < |visited| ==> iter(visited[i], entries[visited[i]])) ==>
        forall k :: k in entries ==> k in visited
    {
      visited := [];
      var remaining := entries.Keys;
      while remaining != {}
        invariant remaining <= entries.Keys
        invariant forall k :: k in entries ==> k in remaining || k in visited
        invariant forall i :: 0 <= i < |visited| ==> visited[i] in entries && visited[i] !in remaining
        invariant forall i, j :: 0 <= i < j < |visited| ==> visited[i] != visited[j]
        invariant forall i :: 0 <= i < |visited| ==> iter(visited[i], entries[visited[i]])
        decreases remaining
      {
        var key :| key in remaining;
        if !iter(key, entries[key]) {
          visited := visited + [key];
          assert !iter(visited[|visited| - 1], entries[visited[|visited| - 1]]);
          return;
        }
        visited := visited + [key];
        remaining := remaining - {key};
      }
    }
  }

  class SafeMap<K(==), V> {
    const mm: MMap<K, V>

    /** NewSafeMap. */
    constructor ()
      ensures fresh(mm) && mm.entries == map[]
    {
      mm := new MMap();
    }

    method Get(key: K) returns (v: Option<V>)
      ensures v.Some? <==> key in mm.entries
      ensures v.Some? ==> v.value == mm.entries[key]
    {
      v := mm.Get(key);
    }

    method Set(key: K, val: V)
      modifies mm
      ensures mm.entries == old(mm.entries)[key := val]
    {
      mm.Set(key, val);
    }

    method Remove(key: K)
      modifies mm
      ensures mm.entries == old(mm.entries) - {key}
      ensures key !in mm.entries
      ensures forall k :: k != key && k in old(mm.entries) ==> k in mm.entries && mm.entries[k] == old(mm.entries)[k]
    {
      mm.Remove(key);
    }

    method Length() returns (n: nat)
      ensures n == |mm.entries.Keys|
    {
      n := mm.Length();
    }

    method Range(iter: (K, V) -> bool) returns (visited: seq<K>)
      ensures forall i :: 0 <= i < |visited| ==> visited[i] in mm.entries
      ensures forall i, j :: 0 <= i < j < |visited| ==> visited[i] != visited[j]
      ensures forall i :: 0 <= i < |visited| - 1 ==> iter(visited[i], mm.entries[visited[i]])
      ensures (forall i :: 0 <= i < |visited| ==> iter(visited[i], mm.entries[visited[i]])) ==>
        forall k :: k in mm.entries ==> k in visited
    {
      visited := mm.Range(iter);
    }

    /** ToMap: the map itself, not a copy. */
    method ToMap() returns (r: MMap<K, V>)
      ensures r == mm
    {
      return mm;
    }
  }

  /** Get after Set(k, v) finds v. */
  method SetThenGet<K(==), V>(m: SafeMap<K, V>, key: K, val: V) returns (v: Option<V>)
    modifies m.mm
    ensures v == Some(val)
  {
    m.Set(key, val);
    v := m.Get(key);
  }

  /** A write through the map ToMap returned is seen by the SafeMap. */
  method ToMapIsAliased<K(==), V>(m: SafeMap<K, V>, key: K, val: V) returns (v: Option<V>)
    modifies m.mm
    ensures v == Some(val)
  {
    var raw := m.ToMap();
    raw.Set(key, val);
    v := m.Get(key);
  }
}
