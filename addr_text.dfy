/** Text forms of IPv4 addresses and IPv4 socket addresses, as Rust's
    `Display` writes them (`192.168.1.5`, `127.0.0.1:8080`), with readers
    that invert them. */
module AddrText {
  import opened Wrappers
  import opened Ipv4
  import opened Decimal
  import opened Text

  /** The four octets of an address, most significant first. */
  function Octets(a: Addr): (o: seq<nat>)
    ensures |o| == 4 && forall k :: 0 <= k < 4 ==> o[k] < 256
  {
    var a1 := a / 256;
    var a2 := a1 / 256;
    [a2 / 256, a2 % 256, a1 % 256, a % 256]
  }

  lemma OctetsRoundTrip(a: Addr)
    ensures var o := Octets(a); FromOctets(o[0], o[1], o[2], o[3]) == a
  {
  }

  /** Dotted-quad rendering: the four octets in decimal, separated by dots. */
  function FormatIpv4(a: Addr): string
  {
    var o := Octets(a);
    Join([NatToString(o[0]), NatToString(o[1]), NatToString(o[2]), NatToString(o[3])], '.')
  }

  /** Reads a dotted quad: exactly four decimal octets, each below 256. */
  function ParseIpv4(s: string): (r: Option<Addr>)
  {
    var parts := Split(s, '.');
    if |parts| != 4 then None
    else
      var o0, o1, o2, o3 := ParseDecimal(parts[0]), ParseDecimal(parts[1]), ParseDecimal(parts[2]), ParseDecimal(parts[3]);
      if o0.Some? && o1.Some? && o2.Some? && o3.Some?
         && o0.value < 256 && o1.value < 256 && o2.value < 256 && o3.value < 256
      then
        Some(FromOctets(o0.value, o1.value, o2.value, o3.value))
      else None
  }

  /** The address whose octets, most significant first, are `o0` to `o3`. */
  function FromOctets(o0: nat, o1: nat, o2: nat, o3: nat): (a: Addr)
    requires o0 < 256 && o1 < 256 && o2 < 256 && o3 < 256
  {
    ((o0 * 256 + o1) * 256 + o2) * 256 + o3
  }

  /** Reading back the dotted quad of an address gives the address. */
  lemma {:induction false} ParseFormatIpv4(a: Addr)
    ensures ParseIpv4(FormatIpv4(a)) == Some(a)
  {
    var o := Octets(a);
    var parts := [NatToString(o[0]), NatToString(o[1]), NatToString(o[2]), NatToString(o[3])];
    forall k | 0 <= k < 4
      ensures '.' !in parts[k]
    {
      NoNonDigit(o[k], '.');
    }
    SplitJoin(parts, '.');
    ParseNatToString(o[0]);
    ParseNatToString(o[1]);
    ParseNatToString(o[2]);
    ParseNatToString(o[3]);
    OctetsRoundTrip(a);
  }

  /** Reads `ip:port`: a dotted quad, one colon, and a decimal port below 65536. */
  function ParseSocketAddrV4(s: string): (r: Option<(Addr, Port)>)
  {
    var parts := Split(s, ':');
    if |parts| != 2 then None
    else
      var ip, port := ParseIpv4(parts[0]), ParseDecimal(parts[1]);
      if ip.Some? && port.Some? && port.value < 0x1_0000 then Some((ip.value, port.value as Port))
      else None
  }

  /** Reading back the `ip:port` text of an address and a port gives them back. */
  lemma {:induction false} ParseFormatSocketAddrV4(ip: Addr, port: Port)
    ensures ParseSocketAddrV4(FormatIpv4(ip) + ":" + NatToString(port)) == Some((ip, port))
  {
    var o := Octets(ip);
    var quad := [NatToString(o[0]), NatToString(o[1]), NatToString(o[2]), NatToString(o[3])];
    forall k | 0 <= k < 4
      ensures ':' !in quad[k]
    {
      NoNonDigit(o[k], ':');
    }
    JoinAvoids(quad, '.', ':');
    NoNonDigit(port, ':');
    var parts := [FormatIpv4(ip), NatToString(port)];
    assert Join(parts, ':') == FormatIpv4(ip) + ":" + NatToString(port);
    SplitJoin(parts, ':');
    ParseFormatIpv4(ip);
    ParseNatToString(port);
  }
}
