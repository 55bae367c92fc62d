/** How each session prepares its UDP socket before its loop starts. */
module Sockets {
  import opened Net
  import opened Cmdline

  /** One socket-setup call, in the order the session issues it. */
  datatype SocketOp =
    | Bind(local: SocketAddr)        // `UdpSocket::bind`
    | JoinGroup(group: IpAddr)       // `join_multicast_v4` / `join_multicast_v6`, any interface
    | Connect(remote: SocketAddr)    // `connect`: fixes the default destination
    | Duplicate                      // `try_clone`: a second handle for the receiver thread

  /** The setup calls of the session `s` selects, from socket creation up to its first loop iteration. */
  function Setup(s: Session): (ops: seq<SocketOp>)
    ensures |ops| == 2
    ensures ops[0] == Bind(SocketAddr(Wildcard(s.group), if s.cmd.Listen? then s.port else 0))
    ensures ops[1].JoinGroup? <==> s.cmd.Listen?
    ensures ops[1].Connect? <==> s.cmd.Send?
    ensures ops[1] == Duplicate <==> s.cmd.Ping?
    ensures ops[1].JoinGroup? ==> ops[1].group == s.group
    ensures ops[1].Connect? ==> ops[1].remote == SocketAddr(s.group, s.port)
  {
    match s.cmd
    case Listen => [Bind(SocketAddr(Wildcard(s.group), s.port)), JoinGroup(s.group)]
    case Send => [Bind(SocketAddr(Wildcard(s.group), 0)), Connect(SocketAddr(s.group, s.port))]
    case Ping => [Bind(SocketAddr(Wildcard(s.group), 0)), Duplicate]
  }

  /** Every address a session binds is the unspecified address of the group's own family:
      IPv4 groups never use IPv6 calls and vice versa, and no socket binds a multicast address. */
  lemma SetupMatchesFamily(s: Session, i: nat)
    requires i < |Setup(s)| && Setup(s)[i].Bind?
    ensures Setup(s)[i].local.ip.V4? <==> s.group.V4?
    ensures !IsMulticast(Setup(s)[i].local.ip)
  {
  }
}
