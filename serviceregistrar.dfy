/**
 * bootstrap/serviceregistrar.go: the gRPC service implementations kept
 * until a server exists, keyed by the identity of their descriptor.
 */
module BootstrapServices {
  import opened Wrappers

  /** A grpc.ServiceDesc, compared by reference, as the Go map keys it by address. */
  class ServiceDesc {
    const serviceName: string

    constructor (serviceName: string)
      ensures this.serviceName == serviceName
    {
      this.serviceName := serviceName;
    }
  }

  datatype ServicePanic = ServiceAlreadyRegistered(serviceName: string)

  /** The server a registrar forwards to, represented by the registrations it received, in order. */
  class Server<I> {
    var registered: seq<(ServiceDesc, I)>

    constructor ()
      ensures registered == []
    {
      registered := [];
    }

    method RegisterService(desc: ServiceDesc, impl: I)
      modifies this
      ensures registered == old(registered) + [(desc, impl)]
    {
      registered := registered + [(desc, impl)];
    }
  }

  class ServiceRegistrar<I> {
    var services: map<ServiceDesc, I>

    /** NewServiceRegistrar: nothing registered. */
    constructor ()
      ensures services == map[]
    {
      services := map[];
    }

    /** RegisterService: stores impl under desc; the same descriptor twice panics and changes nothing. */
    method RegisterService(desc: ServiceDesc, impl: I) returns (p: Option<ServicePanic>)
      modifies this
      ensures desc in old(services) ==> p == Some(ServiceAlreadyRegistered(desc.serviceName)) && services == old(services)
      ensures desc !in old(services) ==> p.None? && services == old(services)[desc := impl]
    {
      if desc in services {
        return Some(ServiceAlreadyRegistered(desc.serviceName));
      }
      services := services[desc := impl];
      return None;
    }

    /**
     * RegisterTo: every stored pair is forwarded exactly once, in some
     * order, and nothing else is forwarded.
     */
    method RegisterTo(sr: Server<I>)
      modifies sr
      ensures |sr.registered| == |old(sr.registered)| + |services|
      ensures sr.registered[..|old(sr.registered)|] == old(sr.registered)
      ensures forall i :: |old(sr.registered)| <= i < |sr.registered| ==>
        sr.registered[i].0 in services && sr.registered[i].1 == services[sr.registered[i].0]
      ensures forall i, j :: |old(sr.registered)| <= i < j < |sr.registered| ==> sr.registered[i].0 != sr.registered[j].0
      ensures forall d :: d in services ==> exists i :: |old(sr.registered)| <= i < |sr.registered| && sr.registered[i].0 == d
    {
      var start := |sr.registered|;
      var remaining := services.Keys;
      while remaining != {}
        invariant remaining <= services.Keys
        invariant |sr.registered| - start + |remaining| == |services.Keys|
        invariant start <= |sr.registered| && sr.registered[..start] == old(sr.registered)
        invariant forall i :: start <= i < |sr.registered| ==>
          sr.registered[i].0 in services.Keys - remaining && sr.registered[i].1 == services[sr.registered[i].0]
        invariant forall i, j :: start <= i < j < |sr.registered| ==> sr.registered[i].0 != sr.registered[j].0
        invariant forall d :: d in services.Keys - remaining ==> exists i :: start <= i < |sr.registered| && sr.registered[i].0 == d
        decreases |remaining|
      {
        var d :| d in remaining;
        ghost var before := sr.registered;
        assert forall e :: e in services.Keys - remaining ==> exists i :: start <= i < |before| && before[i].0 == e;
        sr.RegisterService(d, services[d]);
        assert sr.registered[|before|].0 == d;
        forall e | e in services.Keys - (remaining - {d})
          ensures exists i :: start <= i < |sr.registered| && sr.registered[i].0 == e
        {
          if e != d {
            assert e in services.Keys - remaining;
            var i :| start <= i < |before| && before[i].0 == e;
            assert sr.registered[i] == before[i];
          }
        }
        remaining := remaining - {d};
      }
      assert services.Keys - remaining == services.Keys;
    }
  }
}
