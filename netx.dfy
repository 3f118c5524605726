/**
 * pkg/netx: whether an address is a local one, and how an address string
 * selects a unix-socket or a TCP endpoint. IP addresses are byte
 * sequences as in Go's net.IP: four bytes, or sixteen.
 */
module Netx {
  import opened Text

  newtype byte = x: int | 0 <= x < 256

  type IP = seq<byte>

  /** net.IP.To4: the four IPv4 bytes of a 4-byte address or an IPv4-mapped 16-byte one. */
  function To4(ip: IP): (r: seq<byte>)
    ensures r == [] || |r| == 4
    ensures |ip| == 4 ==> r == ip
  {
    if |ip| == 4 then ip
    else if |ip| == 16 && (forall i :: 0 <= i < 10 ==> ip[i] == 0) && ip[10] == 255 && ip[11] == 255 then ip[12..16]
    else []
  }

  const IPv6Loopback: IP := [0, 0, 0, 0, 0, 0, 0, 0, 0, 0, 0, 0, 0, 0, 0, 1]

  /** net.IP.IsLoopback. */
  predicate IsLoopback(ip: IP) {
    var ip4 := To4(ip);
    if ip4 != [] then ip4[0] == 127 else ip == IPv6Loopback
  }

  /** net.IP.IsLinkLocalMulticast: 224.0.0.0/24 or ff02::/16. */
  predicate IsLinkLocalMulticast(ip: IP) {
    var ip4 := To4(ip);
    if ip4 != [] then ip4[0] == 224 && ip4[1] == 0 && ip4[2] == 0
    else |ip| == 16 && ip[0] == 255 && ip[1] as int % 16 == 2
  }

  /** net.IP.IsLinkLocalUnicast: 169.254.0.0/16 or fe80::/10. */
  predicate IsLinkLocalUnicast(ip: IP) {
    var ip4 := To4(ip);
    if ip4 != [] then ip4[0] == 169 && ip4[1] == 254
    else |ip| == 16 && ip[0] == 254 && ip[1] as int / 64 == 2
  }

  /** IsLocalIP: loopback, link-local, or an IPv4 private range. */
  function IsLocalIP(ip: IP): (r: bool)
    ensures IsLoopback(ip) || IsLinkLocalMulticast(ip) || IsLinkLocalUnicast(ip) ==> r
    ensures To4(ip) == [] ==> (r <==> IsLoopback(ip) || IsLinkLocalMulticast(ip) || IsLinkLocalUnicast(ip))
  {
    if IsLoopback(ip) || IsLinkLocalMulticast(ip) || IsLinkLocalUnicast(ip) then true
    else
      var ip4 := To4(ip);
      if ip4 == [] then false
      else
        (|| ip4[0] == 10
         || (ip4[0] == 172 && ip4[1] >= 16 && ip4[1] <= 31)
         || (ip4[0] == 169 && ip4[1] == 254)
         || (ip4[0] == 192 && ip4[1] == 168))
  }

  // ------------------------------------------------------- CIDR reference

  /** The IPv4 address as a 32-bit number. */
  function Value(ip4: seq<byte>): nat
    requires |ip4| == 4
  {
    ((ip4[0] as nat * 256 + ip4[1] as nat) * 256 + ip4[2] as nat) * 256 + ip4[3] as nat
  }

  function Pow2(n: nat): (r: nat)
    ensures r >= 1
  {
    if n == 0 then 1 else 2 * Pow2(n - 1)
  }

  /** Membership of an IPv4 address in the block of 2^(32-len) addresses starting at net. */
  predicate InCIDR(ip4: seq<byte>, net: seq<byte>, len: nat)
    requires |ip4| == 4 && |net| == 4 && len <= 32
  {
    Value(net) <= Value(ip4) < Value(net) + Pow2(32 - len)
  }

  lemma BlockSizes()
    ensures Pow2(8) == 256 && Pow2(16) == 65536 && Pow2(20) == 1048576 && Pow2(24) == 16777216
  {
    assert Pow2(4) == 16;
    assert Pow2(8) == Pow2(4) * 16;
    assert Pow2(12) == Pow2(8) * 16;
    assert Pow2(16) == Pow2(12) * 16;
    assert Pow2(20) == Pow2(16) * 16;
    assert Pow2(24) == Pow2(20) * 16;
  }

  /**
   * For an IPv4 address, IsLocalIP holds exactly on 127.0.0.0/8,
   * 224.0.0.0/24, 10.0.0.0/8, 172.16.0.0/12, 169.254.0.0/16 and
   * 192.168.0.0/16.
   */
  lemma {:induction false} LocalIPv4Ranges(ip: IP)
    requires To4(ip) != []
    ensures IsLocalIP(ip) <==>
      (|| InCIDR(To4(ip), [127, 0, 0, 0], 8)
       || InCIDR(To4(ip), [224, 0, 0, 0], 24)
       || InCIDR(To4(ip), [10, 0, 0, 0], 8)
       || InCIDR(To4(ip), [172, 16, 0, 0], 12)
       || InCIDR(To4(ip), [169, 254, 0, 0], 16)
       || InCIDR(To4(ip), [192, 168, 0, 0], 16))
  {
    var ip4 := To4(ip);
    BlockSizes();
    var a, b, c, d := ip4[0] as int, ip4[1] as int, ip4[2] as int, ip4[3] as int;
    assert Value(ip4) == a * 16777216 + b * 65536 + c * 256 + d;
  }

  /** 172.32.0.1 lies just past 172.16.0.0/12 and is not local. */
  lemma OutsideTwelveBitRange()
    ensures !IsLocalIP([172, 32, 0, 1])
  {
  }

  // ------------------------------------------------------------ addresses

  const UnixPrefix: string := "unix:"
  const SockSuffix: string := ".sock"
  const TcpPrefix: string := "tcp:"

  datatype Endpoint = Endpoint(network: string, address: string)

  /**
   * The network and address DialTimeout, Dial and Listen hand to the net
   * package: "unix" for a "unix:" prefix (stripped) or a ".sock" suffix,
   * else "tcp" with one leading "tcp:" stripped.
   */
  function Target(addr: string): (r: Endpoint)
    ensures r.network == "unix" <==> HasPrefix(addr, UnixPrefix) || HasSuffix(addr, SockSuffix)
    ensures r.network != "unix" ==> r.network == "tcp"
    ensures HasPrefix(addr, UnixPrefix) ==> UnixPrefix + r.address == addr
    ensures !HasPrefix(addr, UnixPrefix) && HasSuffix(addr, SockSuffix) ==> r.address == addr
    ensures r.network == "tcp" && HasPrefix(addr, TcpPrefix) ==> TcpPrefix + r.address == addr
    ensures r.network == "tcp" && !HasPrefix(addr, TcpPrefix) ==> r.address == addr
  {
    if HasPrefix(addr, UnixPrefix) || HasSuffix(addr, SockSuffix) then Endpoint("unix", TrimPrefix(addr, UnixPrefix))
    else Endpoint("tcp", TrimPrefix(addr, TcpPrefix))
  }

  /** Any path written after "unix:" is dialled as that unix path. */
  lemma UnixTarget(path: string)
    ensures Target(UnixPrefix + path) == Endpoint("unix", path)
  {
    assert HasPrefix(UnixPrefix + path, UnixPrefix);
  }

  /** A "tcp:" address not ending in ".sock" is dialled over TCP without the prefix. */
  lemma TcpTarget(hostPort: string)
    requires !HasSuffix(hostPort, SockSuffix)
    ensures Target(TcpPrefix + hostPort) == Endpoint("tcp", hostPort)
  {
    var addr := TcpPrefix + hostPort;
    assert addr[0] == 't';
    assert !HasPrefix(addr, UnixPrefix);
    assert !HasSuffix(addr, SockSuffix) by {
      if |addr| >= |SockSuffix| && |hostPort| < |SockSuffix| {
        assert addr[|addr| - 5] == TcpPrefix[|hostPort| - 1];
      }
      if |hostPort| >= |SockSuffix| {
        assert addr[|addr| - |SockSuffix|..] == hostPort[|hostPort| - |SockSuffix|..];
      }
    }
    assert HasPrefix(addr, TcpPrefix);
  }
}
