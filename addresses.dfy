/**
 * What the client learns from Go's `net.ParseIP` and `net.ParseCIDR`.
 * Their textual grammars live in the standard library; here the two parsers
 * are parameters, and a parsed address is reduced to the one question the
 * client asks of it: does `To4()` return non-nil (an IPv4 address, including
 * an IPv4-mapped IPv6 one)?
 */
module Addresses {
  import opened Wrappers

  /** A parsed address; `isV4` stands for `To4() != nil`. */
  datatype Ip = Ip(isV4: bool)

  /**
   * The two results of `net.ParseCIDR`: the address as written (host bits
   * kept) and the network it belongs to, rendered by `IPNet.String()` with the
   * host bits cleared ("192.168.1.1/24" gives network "192.168.1.0/24").
   */
  datatype IpNet = IpNet(ip: Ip, network: string)

  /** The standard library's parsers; `None` is a nil result or a non-nil error. */
  datatype Parsers = Parsers(parseIP: string -> Option<Ip>, parseCIDR: string -> Option<IpNet>)

  /** Both IPv4 or both not IPv4. */
  predicate SameFamily(a: Ip, b: Ip) {
    a.isV4 == b.isV4
  }
}
