/** The node record ("ENR") as the supervisor sees it. Signing, encoding and
    key handling belong to the record library and are not modelled: the record
    is an opaque value that exposes its node id, its optional IPv4 address and
    UDP port, and its two text renderings. */
module NodeRecord {
  import opened Wrappers
  import opened Ipv4

  /** The 256-bit identifier of a node, as an opaque number. */
  datatype NodeId = NodeId(raw: nat)

  /** A signed node record.
      - `text` is its `Display` rendering, the text the echo server serves;
      - `base64` is its base64 rendering, the text logged at startup. */
  datatype Enr = Enr(nodeId: NodeId, ip4: Option<Addr>, udp4: Option<Port>, text: string, base64: string)

  /** The record's IPv4 UDP socket: present exactly when both the IPv4 address
      and the UDP port are. */
  function Udp4Socket(enr: Enr): (s: Option<(Addr, Port)>)
    ensures s.Some? <==> enr.ip4.Some? && enr.udp4.Some?
    ensures s.Some? ==> s.value == (enr.ip4.value, enr.udp4.value)
  {
    if enr.ip4.Some? && enr.udp4.Some? then Some((enr.ip4.value, enr.udp4.value)) else None
  }
}
