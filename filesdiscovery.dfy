/**
 * runtime/contrib/files/discovery.go: a discovery registry over the service
 * list read from a file at boot. Reading and decoding the file is not part
 * of this model; the registry starts from the decoded list.
 */
module FilesDiscovery {
  import opened Wrappers
  import opened Component

  const ServiceNotFound := "service not found"

  /** Whether the entry has exactly this ID and this Name. */
  predicate Matches(e: ServiceEntry, id: string, name: string) {
    e.id == id && e.name == name
  }

  class Registry {
    const services: seq<ServiceEntry>

    constructor (services: seq<ServiceEntry>)
      ensures this.services == services
    {
      this.services := services;
    }

    /** Register only logs: it succeeds and the registry keeps its list. */
    method Register(service: ServiceEntry) returns (err: Option<string>)
      ensures err.None?
    {
      err := None;
    }

    /**
     * Lookup: the first entry whose ID is the first argument and whose Name
     * is the second, or "service not found".
     */
    method Lookup(id: string, name: string) returns (r: Result<ServiceEntry, string>)
      ensures r.Err? <==> forall i :: 0 <= i < |services| ==> !Matches(services[i], id, name)
      ensures r.Err? ==> r.error == ServiceNotFound
      ensures forall i :: (0 <= i < |services| && Matches(services[i], id, name) &&
                           (forall j :: 0 <= j < i ==> !Matches(services[j], id, name))) ==> r == Ok(services[i])
    {
      var i := 0;
      while i < |services|
        invariant 0 <= i <= |services|
        invariant forall j :: 0 <= j < i ==> !Matches(services[j], id, name)
      {
        if id == services[i].id && name == services[i].name {
          return Ok(services[i]);
        }
        i := i + 1;
      }
      return Err(ServiceNotFound);
    }

    /**
     * The lookup the Discovery interface describes, with the name first and
     * the id second.
     */
    method LookupByNameAndID(name: string, id: string) returns (r: Result<ServiceEntry, string>)
      ensures r.Err? <==> forall i :: 0 <= i < |services| ==> !Matches(services[i], id, name)
      ensures r.Err? ==> r.error == ServiceNotFound
      ensures forall i :: (0 <= i < |services| && Matches(services[i], id, name) &&
                           (forall j :: 0 <= j < i ==> !Matches(services[j], id, name))) ==> r == Ok(services[i])
    {
      r := Lookup(id, name);
    }

    /** Browse: every entry with the name, in order, and no configuration items. */
    method Browse(name: string) returns (r: Service)
      ensures r == Service(EntriesNamed(services, name), [])
    {
      var ses := SelectNamed(services, name);
      r := Service(ses, []);
    }
  }

  /**
   * A caller that follows the Discovery interface and passes (name, id) to
   * Lookup misses an entry that is there: the arguments are compared the
   * other way round.
   */
  method InterfaceOrderMisses() returns (asWritten: Result<ServiceEntry, string>, corrected: Result<ServiceEntry, string>)
    ensures asWritten == Err(ServiceNotFound)
    ensures corrected == Ok(ServiceEntry("node-1", "lobby", "", "", [], map[]))
  {
    var e := ServiceEntry("node-1", "lobby", "", "", [], map[]);
    var reg := new Registry([e]);
    assert Matches(reg.services[0], "node-1", "lobby");
    assert !Matches(reg.services[0], "lobby", "node-1");
    asWritten := reg.Lookup("lobby", "node-1");
    corrected := reg.LookupByNameAndID("lobby", "node-1");
  }
}
