/**
 * runtime/servicetype.go: classifying a service as stateful ("cluster") or
 * stateless ("service") from the hexadecimal id in its name "app<id>".
 */
module RuntimeServiceType {
  import opened Wrappers
  import opened Text

  datatype ServiceType = ServiceTypeCluster | ServiceTypeService

  /** The panic on a name whose id does not parse. */
  datatype Panic = InvalidServiceName(serviceName: string)

  /** Bit 0x100 of n. */
  predicate Bit8(n: nat) { (n / 0x100) % 2 == 1 }

  /**
   * ParseServiceType: a leading "app" is dropped and the rest read as a
   * 32-bit hexadecimal number; bit 0x100 set means cluster. A name that
   * does not parse panics.
   */
  function ParseServiceType(serviceName: string): (r: Result<ServiceType, Panic>)
    ensures ParseHexUint32(TrimPrefix(serviceName, "app")).None? <==> r == Err(InvalidServiceName(serviceName))
    ensures r.Ok? ==> (r.value == ServiceTypeCluster <==> Bit8(ParseHexUint32(TrimPrefix(serviceName, "app")).value))
  {
    match ParseHexUint32(TrimPrefix(serviceName, "app"))
    case None => Err(InvalidServiceName(serviceName))
    case Some(id) => Ok(if Bit8(id) then ServiceTypeCluster else ServiceTypeService)
  }

  /** The package's test cases: "app10A" is a cluster, "app011" a service. */
  lemma ParseServiceTypeExamples()
    ensures ParseServiceType("app10A") == Ok(ServiceTypeCluster)
    ensures ParseServiceType("app011") == Ok(ServiceTypeService)
  {
    assert TrimPrefix("app10A", "app") == "10A";
    assert "10A"[..2] == "10" && "10"[..1] == "1" && "1"[..0] == "";
    assert HexValue("10A") == 0x10A;
    assert TrimPrefix("app011", "app") == "011";
    assert "011"[..2] == "01" && "01"[..1] == "0" && "0"[..0] == "";
    assert HexValue("011") == 0x11;
  }

  /** The third test case expects "invalid" to be a service, but the code panics on it. */
  lemma InvalidNamePanics()
    ensures ParseServiceType("invalid") == Err(InvalidServiceName("invalid"))
  {
    assert !HasPrefix("invalid", "app") by {
      assert "invalid"[..3][0] == 'i';
    }
    assert !IsHexDigit("invalid"[0]);
  }
}

/**
 * runtime/contrib/servicemesh/servicetype.go: the same classification from
 * a decimal id, where the top four bits of the id select the type.
 */
module ServiceMeshServiceType {
  import opened Wrappers
  import opened Text

  datatype ServiceType = ServiceTypeCluster | ServiceTypeService

  datatype Panic = InvalidServiceName(name: string)

  const TWO_POW_28: nat := 0x1000_0000

  /** uint(id) >> 28 on a 64-bit platform. */
  function TopBits(id: int): (r: nat)
    requires INT64_MIN <= id <= INT64_MAX
  {
    (if id < 0 then id + UINT64_LIMIT else id) / TWO_POW_28
  }

  /**
   * ParseServiceTypeFromServiceName: a leading "app" is dropped and the rest
   * read with Atoi; uint(id) >> 28 == 1 means cluster, every other id a
   * service. A name that does not parse panics.
   */
  function ParseServiceTypeFromServiceName(name: string): (r: Result<ServiceType, Panic>)
    ensures ParseInt64(TrimPrefix(name, "app")).None? <==> r == Err(InvalidServiceName(name))
    ensures r.Ok? ==> (r.value == ServiceTypeCluster <==> TopBits(ParseInt64(TrimPrefix(name, "app")).value) == 1)
  {
    match ParseInt64(TrimPrefix(name, "app"))
    case None => Err(InvalidServiceName(name))
    case Some(id) => Ok(if TopBits(id) == 1 then ServiceTypeCluster else ServiceTypeService)
  }

  /** The shift test picks out exactly the ids in [2^28, 2^29); negative ids are services. */
  lemma {:induction false} ClusterRange(id: int)
    requires INT64_MIN <= id <= INT64_MAX
    ensures TopBits(id) == 1 <==> TWO_POW_28 <= id < 2 * TWO_POW_28
  {
    if id < 0 {
      assert id + UINT64_LIMIT >= UINT64_LIMIT - 0x8000_0000_0000_0000;
      assert (id + UINT64_LIMIT) / TWO_POW_28 >= 2;
    } else if id < TWO_POW_28 {
      assert id / TWO_POW_28 == 0;
    } else if id < 2 * TWO_POW_28 {
      assert id / TWO_POW_28 == 1;
    } else {
      assert id / TWO_POW_28 >= 2;
    }
  }
}
