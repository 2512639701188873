/** Building the request packet and reading the reply payload
    (project/main.go, lines 133-158 and 173-182). */
module Assembly {
  import opened Results
  import opened Snet

  /** Go's `uint16(x)` conversion of an `int`: the low 16 bits, so congruent to
      `x` modulo 2^16 and equal to it whenever it is already in range. */
  function ToUint16(x: int): (r: uint16)
    ensures (x - r) % 0x1_0000 == 0
    ensures 0 <= x < 0x1_0000 ==> r == x
  {
    x % 0x1_0000
  }

  /** The text of the request sent to the verifier. */
  const RequestText: string := "{\"ID\": 1,\"Payload\": {}}"

  /** The bytes of a text all of whose characters are single bytes
      (Go's `[]byte(s)` on such a text). */
  function Latin1Bytes(s: string): (b: Bytes)
    requires forall i :: 0 <= i < |s| ==> s[i] as int < 0x100
    ensures |b| == |s|
    ensures forall i :: 0 <= i < |s| ==> b[i] == s[i] as int
  {
    seq(|s|, i requires 0 <= i < |s| => s[i] as int)
  }

  /** The request payload: the bytes of the request text. */
  function RequestPayload(): (b: Bytes)
    ensures |b| == |RequestText|
    ensures forall i :: 0 <= i < |b| ==> b[i] == RequestText[i] as int
  {
    Latin1Bytes(RequestText)
  }

  /** The request packet from the local IA and host to the remote IA and host,
      along the given path, as a UDP datagram from the local port to the remote
      port carrying the request payload. */
  function BuildPacket(localIA: IA, localHost: HostAddr, remote: UDPAddr, remoteHost: HostAddr,
                       path: Option<DataplanePath>, localPort: int): (p: Packet)
    ensures p.source.ia == localIA && p.destination.ia == remote.ia && p.path == path
    ensures p.payload.UDPPayload? && ExtractReply(p.payload) == RequestPayload()
    ensures (p.payload.srcPort - localPort) % 0x1_0000 == 0
    ensures (p.payload.dstPort - remote.host.port) % 0x1_0000 == 0
  {
    Packet(SCIONAddress(localIA, localHost), SCIONAddress(remote.ia, remoteHost), path,
           UDPPayload(ToUint16(localPort), ToUint16(remote.host.port), RequestPayload()))
  }

  /** The reply bytes of a received payload: the datagram's bytes, unchanged
      whatever its ports, for a UDP payload, and no bytes (not an error) for any
      other kind. */
  function ExtractReply(p: Payload): (r: Bytes)
    ensures p.UDPPayload? ==> r == p.bytes
    ensures p.OtherPayload? ==> r == []
  {
    match p
    case UDPPayload(_, _, bytes) => bytes
    case OtherPayload(_) => []
  }

  /** Extracting the payload of a built request gives back the request bytes,
      and the built datagram runs between the given ports when they are in range. */
  lemma RequestRoundTrip(localIA: IA, localHost: HostAddr, remote: UDPAddr, remoteHost: HostAddr,
                         path: Option<DataplanePath>, localPort: int)
    requires 0 <= localPort < 0x1_0000 && 0 <= remote.host.port < 0x1_0000
    ensures var p := BuildPacket(localIA, localHost, remote, remoteHost, path, localPort);
      && ExtractReply(p.payload) == RequestPayload()
      && p.payload.srcPort == localPort
      && p.payload.dstPort == remote.host.port
  {
  }

  /** The packet does not depend on the next hop or path stored in the remote
      address: its path is the one passed in. */
  lemma BuildIgnoresRemoteRoute(localIA: IA, localHost: HostAddr, remote: UDPAddr, remoteHost: HostAddr,
                                path: Option<DataplanePath>, localPort: int, nextHop: Option<NetUDPAddr>,
                                route: Option<DataplanePath>)
    ensures BuildPacket(localIA, localHost, remote, remoteHost, path, localPort)
         == BuildPacket(localIA, localHost, remote.(nextHop := nextHop, path := route), remoteHost, path, localPort)
  {
  }
}
