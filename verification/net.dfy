/** IP addresses, ports and socket addresses, with the multicast test the program applies. */
module Net {
  import opened Bytes

  /** Sixteen octets of an IPv6 address, network order. */
  type Octets16 = s: seq<byte> | |s| == 16 witness seq(16, _ => 0 as byte)

  /** `std::net::IpAddr`: an IPv4 address as its 32-bit big-endian value, or an IPv6 address as its octets. */
  datatype IpAddr = V4(bits: bv32) | V6(octets: Octets16)

  /** A 16-bit UDP port. */
  type Port = p: int | 0 <= p < 0x1_0000

  /** `std::net::SocketAddr`. */
  datatype SocketAddr = SocketAddr(ip: IpAddr, port: Port)

  /** First octet of an IPv4 address, as `Ipv4Addr::octets()[0]`. */
  function FirstOctet(bits: bv32): byte {
    (bits >> 24) as byte
  }

  /** First 16-bit segment of an IPv6 address, as `Ipv6Addr::segments()[0]`. */
  function FirstSegment(octets: Octets16): bv16 {
    (octets[0] as bv16 << 8) | octets[1] as bv16
  }

  /** `IpAddr::is_multicast` as the standard library writes it: first IPv4 octet in 224..=239,
      first IPv6 segment with its high byte all ones. */
  predicate IsMulticast(a: IpAddr) {
    match a
    case V4(bits) => 224 <= FirstOctet(bits) <= 239
    case V6(octets) => FirstSegment(octets) & 0xFF00 == 0xFF00
  }

  /** The reserved multicast blocks: 224.0.0.0/4 (RFC 5771, section 2) and ff00::/8 (RFC 4291, section 2.7). */
  predicate InMulticastBlock(a: IpAddr) {
    match a
    case V4(bits) => bits & 0xF000_0000 == 0xE000_0000
    case V6(octets) => octets[0] == 0xFF
  }

  /** The library's test and the RFC address blocks agree on every address. */
  lemma MulticastIsReservedBlock(a: IpAddr)
    ensures IsMulticast(a) <==> InMulticastBlock(a)
  {
  }

  /** The IPv4 multicast test as a numeric range: 224.0.0.0 through 239.255.255.255. */
  lemma V4MulticastRange(bits: bv32)
    ensures IsMulticast(V4(bits)) <==> 0xE000_0000 <= bits as int <= 0xEFFF_FFFF
  {
  }

  /** The unspecified address of `a`'s family (`0.0.0.0` or `::`), which sockets bind to. */
  function Wildcard(a: IpAddr): (w: IpAddr)
    ensures w.V4? <==> a.V4?
    ensures !IsMulticast(w)
    ensures w.V4? ==> w.bits == 0
    ensures w.V6? ==> forall i :: 0 <= i < 16 ==> w.octets[i] == 0
  {
    match a
    case V4(_) => V4(0)
    case V6(_) => V6(seq(16, _ => 0 as byte))
  }
}
