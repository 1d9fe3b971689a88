/** Routing of user messages, directly or through the leader. */
module RoutingRules {
  import opened Types
  import opened Messaging
  import opened ConnectionTable

  const FORWARDED_USER_DATA: u16 := 0x0030

  /** The internal message that carries user data to the leader. */
  datatype Forwarded = Forwarded(fromPeer: PeerId, msgType: u16, flags: byte, payload: seq<byte>)

  /** The serialization library, known by its two entry points. */
  datatype Postcard = Postcard(encode: Forwarded -> seq<byte>, decode: seq<byte> -> Option<Forwarded>)

  datatype Libraries = Libraries(lz4: Lz4, postcard: Postcard)

  ghost predicate Faithful(lib: Libraries) {
    Inverse(lib.lz4) && forall m :: lib.postcard.decode(lib.postcard.encode(m)) == Some(m)
  }

  datatype MessageTarget = ToAll | ToPeer(peer: PeerId) | ToLeader

  datatype ForwardTarget = ForwardToPeer(peer: PeerId) | ForwardToAll

  /** What a router sees of its node at one moment. */
  datatype View = View(
    id: PeerId,
    centralized: bool,
    autoForward: bool,
    threshold: u32,
    maxSize: u32,
    isLeader: bool,
    leaderId: Option<PeerId>,
    capacity: nat,
    table: Table)

  datatype Routed = Routed(table: Table, result: Result<()>)

  /** What reaches the application. */
  datatype Delivery = Delivery(from: PeerId, data: seq<byte>, msgType: u16, flags: byte)

  function Encode(lib: Libraries, v: View, msgType: u16, data: seq<byte>, flags: byte): Result<RawPacket> {
    EncodePacket(lib.lz4, msgType, data, ClearLowBit(flags), v.threshold, v.maxSize)
  }

  function EncodeForwarded(lib: Libraries, m: Forwarded, maxSize: u32): Result<RawPacket> {
    var payload := lib.postcard.encode(m);
    if Truncated(|payload|) > maxSize then Err(MessageTooLarge(Truncated(|payload|)))
    else Ok(RawPacket(FORWARDED_USER_DATA, 0, payload))
  }

  function SendTo(v: View, peer: PeerId, packet: Result<RawPacket>): Routed {
    match packet
    case Err(e) => Routed(v.table, Err(e))
    case Ok(p) => Routed(SendToPeer(v.capacity, v.table, peer, p), SendResult(v.capacity, v.table, peer, p))
  }

  function SendToAll(v: View, packet: Result<RawPacket>, exclude: set<PeerId>): Routed {
    match packet
    case Err(e) => Routed(v.table, Err(e))
    case Ok(p) => Routed(Broadcast(v.capacity, v.table, p, exclude), Ok(()))
  }

  function RouteMessage(lib: Libraries, v: View, target: MessageTarget, msgType: u16, data: seq<byte>, flags: byte)
    : Routed
  {
    if msgType < USER_MESSAGE_START then Routed(v.table, Err(InvalidArgument))
    else
      match target
      case ToAll =>
        if v.centralized && !v.isLeader then
          if v.leaderId.None? then Routed(v.table, Err(NotLeader))
          else
            var envelope := Forwarded(v.id, msgType, ClearLowBit(flags), data);
            SendTo(v, v.leaderId.value, EncodeForwarded(lib, envelope, v.maxSize))
        else SendToAll(v, Encode(lib, v, msgType, data, flags), {})
      case ToPeer(peer) => SendTo(v, peer, Encode(lib, v, msgType, data, flags))
      case ToLeader =>
        if v.isLeader then Routed(v.table, Ok(()))
        else if v.leaderId.None? then Routed(v.table, Err(NotLeader))
        else SendTo(v, v.leaderId.value, Encode(lib, v, msgType, data, flags))
  }

  function ForwardMessage(lib: Libraries, v: View, from: PeerId, target: ForwardTarget, msgType: u16, flags: byte,
                          payload: seq<byte>): Routed
  {
    if msgType < USER_MESSAGE_START then Routed(v.table, Err(InvalidArgument))
    else if !v.isLeader then Routed(v.table, Err(NotLeader))
    else
      match target
      case ForwardToPeer(peer) => SendTo(v, peer, Encode(lib, v, msgType, payload, flags))
      case ForwardToAll => SendToAll(v, Encode(lib, v, msgType, payload, flags), {from})
  }

  /** A leader that forwards automatically passes the data on; a failure to do so is only logged. */
  function HandleForwarded(lib: Libraries, v: View, m: Forwarded): Table {
    if v.isLeader && v.autoForward then
      ForwardMessage(lib, v, m.fromPeer, ForwardToAll, m.msgType, m.flags, m.payload).table
    else v.table
  }

  function UserPacket(m: Forwarded): RawPacket {
    RawPacket(m.msgType, m.flags, m.payload)
  }

  /** The table after a packet from `src` was handled. */
  function TableAfter(lib: Libraries, v: View, packet: RawPacket): Table {
    if packet.IsInternal() && lib.postcard.decode(packet.payload).Some? then
      HandleForwarded(lib, v, lib.postcard.decode(packet.payload).value)
    else v.table
  }

  /** What the application at the receiving node is given for a packet from `src`. */
  function Delivered(lib: Libraries, src: PeerId, packet: RawPacket): Option<Delivery> {
    if packet.IsInternal() then
      match lib.postcard.decode(packet.payload)
      case None => None
      case Some(m) =>
        var data := DecodePayload(lib.lz4, UserPacket(m));
        Some(Delivery(m.fromPeer, if data.Ok? then data.value else m.payload, m.msgType, m.flags))
    else
      match DecodePayload(lib.lz4, packet)
      case Ok(data) => Some(Delivery(src, data, packet.msgType, packet.flags))
      case Err(_) => None
  }
}

/** The session router as a mutable object over its transport and election module. */
module SessionRouters {
  import opened Types
  import opened Messaging
  import opened RoutingRules
  import Rules = RoutingRules
  import Transport
  import ElectionRules
  import LeaderElections

  class SessionRouter {
    const localPeerId: PeerId
    const transport: Transport.TransportManager
    const leaderElection: LeaderElections.LeaderElection
    const maxMessageSize: u32
    const lib: Libraries

    var centralizedMode: bool
    var autoForward: bool
    var compressionThreshold: u32

    constructor (localPeerId: PeerId, transport: Transport.TransportManager,
                 leaderElection: LeaderElections.LeaderElection, lib: Libraries,
                 autoForward: bool, compressionThreshold: u32, maxMessageSize: u32)
      ensures this.localPeerId == localPeerId && this.transport == transport && this.leaderElection == leaderElection
      ensures this.lib == lib && this.maxMessageSize == maxMessageSize
      ensures !centralizedMode && this.autoForward == autoForward && this.compressionThreshold == compressionThreshold
    {
      this.localPeerId, this.transport, this.leaderElection := localPeerId, transport, leaderElection;
      this.lib, this.maxMessageSize := lib, maxMessageSize;
      centralizedMode, this.autoForward, this.compressionThreshold := false, autoForward, compressionThreshold;
    }

    function CurrentView(): View
      reads this, transport, leaderElection
    {
      View(localPeerId, centralizedMode, autoForward, compressionThreshold, maxMessageSize,
           leaderElection.role == ElectionRules.Leader, leaderElection.leaderId, transport.capacity, transport.State())
    }

    method SetCentralized(enable: bool)
      modifies this
      ensures CurrentView() == old(CurrentView()).(centralized := enable)
    {
      centralizedMode := enable;
    }

    method SetAutoForward(enable: bool)
      modifies this
      ensures CurrentView() == old(CurrentView()).(autoForward := enable)
    {
      autoForward := enable;
    }

    method SetCompressionThreshold(threshold: u32)
      modifies this
      ensures CurrentView() == old(CurrentView()).(threshold := threshold)
    {
      compressionThreshold := threshold;
    }

    method RouteMessage(target: MessageTarget, msgType: u16, data: seq<byte>, userFlags: byte) returns (r: Result<()>)
      modifies transport
      ensures Routed(transport.State(), r)
              == Rules.RouteMessage(lib, old(CurrentView()), target, msgType, data, userFlags)
    {
      if msgType < USER_MESSAGE_START { return Err(InvalidArgument); }
      var cleanFlags := ClearLowBit(userFlags);
      match target
      case ToAll =>
        if centralizedMode && leaderElection.role != ElectionRules.Leader {
          if leaderElection.leaderId.None? { return Err(NotLeader); }
          var envelope := Forwarded(localPeerId, msgType, cleanFlags, data);
          r := SendPacket(leaderElection.leaderId.value, EncodeForwarded(lib, envelope, maxMessageSize));
        } else {
          var packet := EncodePacket(lib.lz4, msgType, data, cleanFlags, compressionThreshold, maxMessageSize);
          if packet.Err? { return Err(packet.error); }
          var _ := transport.Broadcast(packet.value, {});
          return Ok(());
        }
      case ToPeer(peerId) =>
        r := SendPacket(peerId, EncodePacket(lib.lz4, msgType, data, cleanFlags, compressionThreshold, maxMessageSize));
      case ToLeader =>
        if leaderElection.role == ElectionRules.Leader { return Ok(()); }
        if leaderElection.leaderId.None? { return Err(NotLeader); }
        r := SendPacket(leaderElection.leaderId.value,
                        EncodePacket(lib.lz4, msgType, data, cleanFlags, compressionThreshold, maxMessageSize));
    }

    method SendPacket(peerId: PeerId, packet: Result<RawPacket>) returns (r: Result<()>)
      modifies transport
      ensures Routed(transport.State(), r) == SendTo(old(CurrentView()), peerId, packet)
    {
      match packet
      case Err(e) => return Err(e);
      case Ok(p) => r := transport.SendToPeer(peerId, p);
    }

    method ForwardMessage(fromPeerId: PeerId, target: ForwardTarget, msgType: u16, flags: byte, payload: seq<byte>)
      returns (r: Result<()>)
      modifies transport
      ensures Routed(transport.State(), r)
              == Rules.ForwardMessage(lib, old(CurrentView()), fromPeerId, target, msgType, flags, payload)
    {
      if msgType < USER_MESSAGE_START { return Err(InvalidArgument); }
      if leaderElection.role != ElectionRules.Leader { return Err(NotLeader); }
      var packet := EncodePacket(lib.lz4, msgType, payload, ClearLowBit(flags), compressionThreshold, maxMessageSize);
      if packet.Err? { return Err(packet.error); }
      match target
      case ForwardToPeer(peerId) => r := transport.SendToPeer(peerId, packet.value);
      case ForwardToAll =>
        var _ := transport.Broadcast(packet.value, {fromPeerId});
        return Ok(());
    }

    method HandleForwardedUserData(m: Forwarded) returns (packet: RawPacket)
      modifies transport
      ensures transport.State() == HandleForwarded(lib, old(CurrentView()), m)
      ensures packet == UserPacket(m)
    {
      if leaderElection.role == ElectionRules.Leader && autoForward {
        var _ := ForwardMessage(m.fromPeer, ForwardToAll, m.msgType, m.flags, m.payload);
      }
      return RawPacket(m.msgType, m.flags, m.payload);
    }
  }
}
