/** The SCION and Go networking values the client handles. Identifiers, IP
    addresses and dataplane paths come from library code the client treats as
    opaque: they are compared for equality and passed along, never taken apart. */
module Snet {
  import opened Results

  /** An ISD-AS identifier (`addr.IA`). */
  type IA(==)

  /** A Go `net.IP`, as produced by `net.ParseIP`. */
  type IP(==)

  /** A `netip.Addr` wrapped as a SCION host address (`addr.HostIP`). */
  type HostAddr(==)

  /** An encoded forwarding path (`snet.DataplanePath`). */
  type DataplanePath(==)

  /** The Go type of a packet payload that is not a UDP payload (SCMP and others). */
  type PayloadKind(==)

  type byte = x: int | 0 <= x < 0x100
  type Bytes = seq<byte>
  type uint16 = x: int | 0 <= x < 0x1_0000

  /** A Go `*net.UDPAddr`: an IP (nil when it did not parse) and an `int` port. */
  datatype NetUDPAddr = NetUDPAddr(ip: Option<IP>, port: int)

  /** One path returned by the daemon (`snet.Path`). Its next hop (`UnderlayNextHop()`,
      a pointer) and its dataplane path (`Dataplane()`, an interface) may be nil. */
  datatype Path = Path(source: IA, destination: IA, nextHop: Option<NetUDPAddr>, dataplane: Option<DataplanePath>)

  /** A SCION UDP address (`snet.UDPAddr`): IA and host, plus the first-hop
      router and the dataplane path, which are nil until set. */
  datatype UDPAddr = UDPAddr(ia: IA, host: NetUDPAddr, nextHop: Option<NetUDPAddr>, path: Option<DataplanePath>)

  /** The address of one end of a SCION packet (`snet.SCIONAddress`). */
  datatype SCIONAddress = SCIONAddress(ia: IA, host: HostAddr)

  /** The payload of a SCION packet: a UDP datagram, or some other kind. */
  datatype Payload =
    | UDPPayload(srcPort: uint16, dstPort: uint16, bytes: Bytes)
    | OtherPayload(kind: PayloadKind)

  /** A SCION packet (`snet.Packet` with its `PacketInfo`). */
  datatype Packet = Packet(source: SCIONAddress, destination: SCIONAddress, path: Option<DataplanePath>, payload: Payload)
}
