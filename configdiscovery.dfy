/**
 * app/discovery.go: a discovery registry backed by the configuration
 * watcher. The watcher is foreign: reading a path yields a decoder or an
 * error, and watching a path yields a stream of decoders. A decoder is
 * represented by what decoding it into a list of service entries gives.
 */
module ConfigDiscovery {
  import opened Wrappers
  import opened Component

  const NotFound := "not found"

  /** What ConfigDecoder.Decode into a []ServiceEntry yields. */
  type Decoder = Result<seq<ServiceEntry>, string>

  /** The configuration watcher's two operations on a path. */
  datatype ConfigWatcher = ConfigWatcher(
    readConfig: string -> Result<Decoder, string>,
    watchConfig: string -> StreamFunc<Decoder>)

  /**
   * parserService: a decode error is passed on; otherwise the entries with
   * the name, in order, and no configuration items.
   */
  method ParserService(dec: Decoder, name: string) returns (r: Result<Service, string>)
    ensures dec.Err? ==> r == Err(dec.error)
    ensures dec.Ok? ==> r == Ok(Service(EntriesNamed(dec.value, name), []))
  {
    if dec.Err? {
      return Err(dec.error);
    }
    var entries := SelectNamed(dec.value, name);
    return Ok(Service(entries, []));
  }

  /** The service the registry's path holds for a name, or the error reading or decoding it. */
  function BrowseResult(watcher: ConfigWatcher, path: string, name: string): (r: Result<Service, string>)
    ensures watcher.readConfig(path).Err? ==> r == Err(watcher.readConfig(path).error)
    ensures watcher.readConfig(path).Ok? && watcher.readConfig(path).value.Err? ==>
      r == Err(watcher.readConfig(path).value.error)
    ensures r.Ok? ==> r.value.configs == [] && forall e :: e in r.value.entries ==> e.name == name
  {
    match watcher.readConfig(path)
    case Err(e) => Err(e)
    case Ok(dec) => if dec.Err? then Err(dec.error) else Ok(Service(EntriesNamed(dec.value, name), []))
  }

  class Registry {
    const path: string
    const watcher: ConfigWatcher

    constructor (path: string, watcher: ConfigWatcher)
      ensures this.path == path && this.watcher == watcher
    {
      this.path := path;
      this.watcher := watcher;
    }

    /** Register only logs and succeeds. */
    method Register(service: ServiceEntry) returns (err: Option<string>)
      ensures err.None?
    {
      err := None;
    }

    /** Browse: read the configuration at the path and keep the entries with the name. */
    method Browse(name: string) returns (r: Result<Service, string>)
      ensures r == BrowseResult(watcher, path, name)
    {
      var dec := watcher.readConfig(path);
      if dec.Err? {
        return Err(dec.error);
      }
      r := ParserService(dec.value, name);
    }

    /**
     * Lookup(name, id): a Browse error is passed on; otherwise the first
     * browsed entry with the id, or "not found".
     */
    method Lookup(name: string, id: string) returns (r: Result<ServiceEntry, string>)
      ensures BrowseResult(watcher, path, name).Err? ==> r == Err(BrowseResult(watcher, path, name).error)
      ensures BrowseResult(watcher, path, name).Ok? ==>
        var es := BrowseResult(watcher, path, name).value.entries;
        && (r == Err(NotFound) <==> forall i :: 0 <= i < |es| ==> es[i].id != id)
        && (forall i :: (0 <= i < |es| && es[i].id == id && (forall j :: 0 <= j < i ==> es[j].id != id)) ==> r == Ok(es[i]))
      ensures r.Ok? ==> r.value.id == id && r.value.name == name
    {
      var service := Browse(name);
      if service.Err? {
        return Err(service.error);
      }
      var es := service.value.entries;
      var i := 0;
      while i < |es|
        invariant 0 <= i <= |es|
        invariant forall j :: 0 <= j < i ==> es[j].id != id
      {
        if es[i].id == id {
          assert es[i] in es;
          return Ok(es[i]);
        }
        i := i + 1;
      }
      return Err(NotFound);
    }

    /** Watch: an iterator over the watcher's stream for the path, filtered by the name. */
    method Watch(name: string) returns (it: ConfigDiscoveryIterator)
      ensures it == ConfigDiscoveryIterator(watcher.watchConfig(path), name)
    {
      it := ConfigDiscoveryIterator(watcher.watchConfig(path), name);
    }
  }

  datatype ConfigDiscoveryIterator = ConfigDiscoveryIterator(iter: StreamFunc<Decoder>, name: string) {
    /**
     * Next: an error from the underlying stream is passed on; otherwise the
     * next decoder goes through parserService with the iterator's name.
     */
    method Next() returns (r: Result<Service, string>)
      ensures iter.fn(false).1.Some? ==> r == Err(iter.fn(false).1.value)
      ensures iter.fn(false).1.None? && iter.fn(false).0.Err? ==> r == Err(iter.fn(false).0.error)
      ensures iter.fn(false).1.None? && iter.fn(false).0.Ok? ==> r == Ok(Service(EntriesNamed(iter.fn(false).0.value, name), []))
    {
      var (dec, err) := iter.fn(false);
      if err.Some? {
        return Err(err.value);
      }
      r := ParserService(dec, name);
    }
  }
}
