/** Tunnels and sessions (the table structs of l2tvpp.h). */
module Objects {
  import opened Bytes

  /** The parts of an outer address that the plugin looks at: only IPv4 is supported. */
  datatype Address = V4(ip4: Ip4) | V6(octets: seq<byte>)

  datatype Tunnel = Tunnel(
    localIp: Ip4, peerIp: Ip4, localPort: u16, peerPort: u16,
    localTid: u16,   // in packets from the LAC
    peerTid: u16,    // in packets to the LAC
    nSessions: u32)

  datatype Session = Session(
    tunnelIndex: nat, localTid: u16,
    localSid: u16,   // in packets from the LAC
    peerSid: u16,    // in packets to the LAC
    acfc: bool, pfc: bool,
    swIf: nat)       // the session interface
}
