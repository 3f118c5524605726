/**
 * runtime/component: the discovery records, the process-wide bootloader
 * container keyed by (component type, driver name), and the StreamFunc stream type.
 */
module Component {
  import opened Wrappers
  import SliceMap

  /** One key/value configuration item of a service. */
  datatype ConfigItem = ConfigItem(key: string, value: string)

  /** One instance of an app in the discovery system. */
  datatype ServiceEntry = ServiceEntry(
    id: string,
    name: string,
    alias: string,
    version: string,
    endpoints: seq<string>,
    metadata: map<string, string>)

  /** A discovery snapshot: the instances and the service's configuration items. */
  datatype Service = Service(entries: seq<ServiceEntry>, configs: seq<ConfigItem>)

  /** slices.Equal: same length and equal element by element. */
  predicate SlicesEqual(a: seq<string>, b: seq<string>) {
    |a| == |b| && forall i :: 0 <= i < |a| ==> a[i] == b[i]
  }

  /** ServiceEntry.Equal: ID and Name first, then endpoints in order, then metadata as maps. */
  predicate EntryEqual(se: ServiceEntry, se2: ServiceEntry) {
    if se.id != se2.id || se.name != se2.name then false
    else if !SlicesEqual(se.endpoints, se2.endpoints) then false
    else SliceMap.MapIsEqual(se.metadata, se2.metadata)
  }

  /**
   * Equal compares exactly ID, Name, the endpoint sequence (order-sensitive)
   * and the metadata map (order-insensitive); Alias and Version never matter.
   */
  lemma EntryEqualIff(se: ServiceEntry, se2: ServiceEntry)
    ensures EntryEqual(se, se2) <==>
      se.id == se2.id && se.name == se2.name && se.endpoints == se2.endpoints && se.metadata == se2.metadata
  {
    SliceMap.MapIsEqualIff(se.metadata, se2.metadata);
    if SlicesEqual(se.endpoints, se2.endpoints) {
      assert se.endpoints == se2.endpoints;
    }
  }

  /** Equal is reflexive and symmetric. */
  lemma EntryEqualReflexiveSymmetric(se: ServiceEntry, se2: ServiceEntry)
    ensures EntryEqual(se, se)
    ensures EntryEqual(se, se2) <==> EntryEqual(se2, se)
  {
    EntryEqualIff(se, se);
    EntryEqualIff(se, se2);
    EntryEqualIff(se2, se);
  }

  /** Changing Alias or Version never changes the outcome of Equal. */
  lemma EntryEqualIgnoresAliasVersion(se: ServiceEntry, se2: ServiceEntry, alias: string, version: string)
    ensures EntryEqual(se.(alias := alias, version := version), se2) == EntryEqual(se, se2)
  {
  }

  // ------------------------------------------------------------ container

  /** A reflect.Type is represented by the type's name. */
  type TypeName = string

  /** The three ways the container can refuse a save or a load. */
  datatype ContainerError =
    | AlreadyExists(typ: TypeName, name: string)
    | NoDriverRegistered(typ: TypeName)
    | DriverNotFound(typ: TypeName, name: string)

  /** The value saved under (typ, name), if any. */
  function Get<V>(mm: map<TypeName, map<string, V>>, typ: TypeName, name: string): (r: Option<V>)
    ensures r.Some? <==> typ in mm && name in mm[typ]
    ensures r.Some? ==> r.value == mm[typ][name]
  {
    if typ in mm && name in mm[typ] then Some(mm[typ][name]) else None
  }

  /** The inner map for `typ`, created empty on demand. */
  function Inner<V>(mm: map<TypeName, map<string, V>>, typ: TypeName): map<string, V> {
    if typ in mm then mm[typ] else map[]
  }

  /** The container behind Register/GetLoader: a nested map from type and name to a bootloader. */
  class Container<V> {
    var mm: map<TypeName, map<string, V>>

    constructor()
      ensures mm == map[]
    {
      mm := map[];
    }

    /** save: stores v under (typ, name) unless that pair already exists, in which case the first value stays. */
    method Save(typ: TypeName, name: string, v: V) returns (err: Option<ContainerError>)
      modifies this
      ensures Get(old(mm), typ, name).Some? ==> err == Some(AlreadyExists(typ, name)) && mm == old(mm)
      ensures Get(old(mm), typ, name).None? ==>
        err == None && mm == old(mm)[typ := Inner(old(mm), typ)[name := v]]
      ensures Get(mm, typ, name) == Some(if err.Some? then old(mm)[typ][name] else v)
      ensures forall t, n :: t != typ || n != name ==> Get(mm, t, n) == Get(old(mm), t, n)
    {
      var m;
      if typ in mm {
        m := mm[typ];
      } else {
        m := map[];
        mm := mm[typ := m];
      }
      if name in m {
        return Some(AlreadyExists(typ, name));
      }
      mm := mm[typ := m[name := v]];
      return None;
    }

    /** load: the saved value, or which of the two lookups failed. */
    method Load(typ: TypeName, name: string) returns (r: Result<V, ContainerError>)
      ensures typ !in mm ==> r == Err(NoDriverRegistered(typ))
      ensures typ in mm && name !in mm[typ] ==> r == Err(DriverNotFound(typ, name))
      ensures r.Ok? <==> Get(mm, typ, name).Some?
      ensures r.Ok? ==> r.value == Get(mm, typ, name).value
    {
      if typ !in mm {
        return Err(NoDriverRegistered(typ));
      }
      var m := mm[typ];
      if name !in m {
        return Err(DriverNotFound(typ, name));
      }
      return Ok(m[name]);
    }
  }

  /** Outcome of an operation that panics on failure. */
  datatype Outcome<E> = Done | Panic(reason: E)

  /** Register: saves a bootloader for (typ, name) and panics if one is already there. */
  method Register<V>(reg: Container<V>, typ: TypeName, name: string, bl: V) returns (o: Outcome<ContainerError>)
    modifies reg
    ensures Get(old(reg.mm), typ, name).Some? ==> o == Panic(AlreadyExists(typ, name)) && reg.mm == old(reg.mm)
    ensures Get(old(reg.mm), typ, name).None? ==>
      o == Done && reg.mm == old(reg.mm)[typ := Inner(old(reg.mm), typ)[name := bl]]
  {
    var err := reg.Save(typ, name, bl);
    if err.Some? {
      return Panic(err.value);
    }
    return Done;
  }

  /** GetLoader: the bootloader registered for (typ, name), or the container's error. */
  method GetLoader<V>(reg: Container<V>, typ: TypeName, name: string) returns (r: Result<V, ContainerError>)
    ensures r.Ok? <==> Get(reg.mm, typ, name).Some?
    ensures r.Ok? ==> r.value == Get(reg.mm, typ, name).value
    ensures r.Err? ==> r.error == (if typ in reg.mm then DriverNotFound(typ, name) else NoDriverRegistered(typ))
  {
    r := reg.Load(typ, name);
  }

  // ------------------------------------------------------------ filtering snapshots

  /** The entries whose Name is name, in their original order. */
  function EntriesNamed(ses: seq<ServiceEntry>, name: string): (r: seq<ServiceEntry>)
    ensures forall e :: e in r <==> e in ses && e.name == name
    ensures |r| <= |ses|
  {
    if ses == [] then []
    else (if ses[0].name == name then [ses[0]] else []) + EntriesNamed(ses[1..], name)
  }

  /** Filtering distributes over concatenation, so it can be built front to back. */
  lemma {:induction false} EntriesNamedAppend(a: seq<ServiceEntry>, b: seq<ServiceEntry>, name: string)
    ensures EntriesNamed(a + b, name) == EntriesNamed(a, name) + EntriesNamed(b, name)
  {
    if a == [] {
      assert a + b == b;
    } else {
      assert (a + b)[1..] == a[1..] + b;
      EntriesNamedAppend(a[1..], b, name);
    }
  }

  /** The append loop both discovery registries use to keep the entries with a name. */
  method SelectNamed(ses: seq<ServiceEntry>, name: string) returns (r: seq<ServiceEntry>)
    ensures r == EntriesNamed(ses, name)
  {
    r := [];
    var i := 0;
    while i < |ses|
      invariant 0 <= i <= |ses|
      invariant r == EntriesNamed(ses[..i], name)
    {
      EntriesNamedAppend(ses[..i], [ses[i]], name);
      assert ses[..i + 1] == ses[..i] + [ses[i]];
      assert [ses[i]][1..] == [];
      assert EntriesNamed([ses[i]], name) == (if ses[i].name == name then [ses[i]] else []);
      if name == ses[i].name {
        r := r + [ses[i]];
      }
      i := i + 1;
    }
    assert ses[..i] == ses;
  }

  // ------------------------------------------------------------ StreamFunc

  /**
   * A stream given by one function of a stop flag: asking for the next
   * element is the call fn(false).
   */
  datatype StreamFunc<T> = StreamFunc(fn: bool -> (T, Option<string>))
}
