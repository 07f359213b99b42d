/** Log records, modelled abstractly as a level and a message naming the log
    site together with the values it reports. The exact text layout of the
    tracing library is not modelled. */
module Logging {
  import opened Ipv4
  import opened NodeRecord

  datatype Level = Info | Warn | Error

  /** An I/O error, known only by its description. */
  datatype IoError = IoError(description: string)

  datatype Msg =
    // Supervisor (src/bin/server/mod.rs)
    | NodeIdIs(id: NodeId)
    | Base64Enr(base64: string)
    | EnrEndpoint(ip: Addr, udpPort: Port)
    | EnrNotPrinted
    | CidrAllowed(local: Addr, cidr: Cidr)
    | CidrMismatch(local: Addr, cidr: Cidr)
    | CidrIpv4Only
    | DiscoveryListening(listenIp: Addr, listenPort: Port)
    | AwaitingTermination
    | ReceivedSigterm
    | ReceivedSigint
    // Echo responder (src/bin/server/echo.rs)
    | EchoRunning(bindAddr: string)
    | WriteFailed(writeError: IoError)
    | AcceptFailed(acceptError: IoError)
    // Event observer (src/bin/server/events.rs)
    | SocketAddressUpdated(socket: SocketAddr)
    | PeerDiscovered(discovered: NodeId)
    | AddedWithEnr(enrText: string)
    | AddedWithNodeId(inserted: NodeId)
    | SessionWith(peerEnrText: string, peerAddr: SocketAddr)
    | TalkRequestFrom(requester: NodeId)

  datatype LogRecord = LogRecord(level: Level, msg: Msg)
}
