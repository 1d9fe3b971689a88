/** Broadcasting through the leader delivers what broadcasting directly delivers.
    Packets get from queue to queue through the codecs of both ends. */
module RoutingEquivalence {
  import opened Types
  import opened Messaging
  import opened Codec
  import opened ConnectionTable
  import opened RoutingRules

  type Network = map<PeerId, View>

  // --- the setting -----------------------------------------------------------

  predicate HasRoom(capacity: nat, s: Sender) {
    Refusal(capacity, s).None?
  }

  predicate LinkReady(v: View, q: PeerId)
    requires q in v.table.connections
  {
    var c := v.table.connections[q];
    && c.status == Connected && HasRoom(v.capacity, c.controlTx)
    && (c.dataTx.Some? ==> HasRoom(v.capacity, c.dataTx.value))
  }

  /** `v` is connected to exactly the other nodes, over links with room. */
  ghost predicate Linked(v: View, others: set<PeerId>) {
    v.table.connections.Keys == others && forall q {:trigger LinkReady(v, q)} | q in others :: LinkReady(v, q)
  }

  ghost predicate MeshNode(net: Network, leader: PeerId, x: PeerId)
    requires x in net
  {
    && net[x].id == x && Linked(net[x], net.Keys - {x})
    && net[x].leaderId == Some(leader) && (net[x].isLeader <==> x == leader)
  }

  /** A full mesh whose nodes agree on one leader, which agrees. */
  ghost predicate Mesh(net: Network, leader: PeerId) {
    leader in net && forall x {:trigger MeshNode(net, leader, x)} | x in net :: MeshNode(net, leader, x)
  }

  predicate Within(v: View, m: UserMessage) {
    |m.data| <= v.maxSize
  }

  /** A user message within the size limit of every node. */
  ghost predicate Sendable(net: Network, m: UserMessage) {
    m.msgType >= USER_MESSAGE_START && forall x {:trigger Within(net[x], m)} | x in net :: Within(net[x], m)
  }

  function EnvelopeOf(o: PeerId, m: UserMessage): Forwarded {
    Forwarded(o, m.msgType, ClearLowBit(m.flags), m.data)
  }

  function EnvelopePacket(lib: Libraries, o: PeerId, m: UserMessage): RawPacket {
    RawPacket(FORWARDED_USER_DATA, 0, lib.postcard.encode(EnvelopeOf(o, m)))
  }

  /** The router queues an envelope by its length cut to 32 bits. */
  predicate EnvelopeQueued(lib: Libraries, v: View, m: UserMessage) {
    Truncated(|EnvelopePacket(lib, v.id, m).payload|) <= v.maxSize
  }

  /** The envelope is within the limits of the originator and of the leader. */
  predicate EnvelopeFits(lib: Libraries, v: View, leader: View, m: UserMessage) {
    |EnvelopePacket(lib, v.id, m).payload| <= v.maxSize && |EnvelopePacket(lib, v.id, m).payload| <= leader.maxSize
  }

  // --- what goes out and what arrives ----------------------------------------

  function Appended(before: Sender, after: Sender): seq<RawPacket> {
    if |before.queue| <= |after.queue| then after.queue[|before.queue|..] else []
  }

  /** The packets newly queued for `q`. */
  function Sent(before: Table, after: Table, q: PeerId): seq<RawPacket> {
    if q in before.connections && q in after.connections then
      var b, a := before.connections[q], after.connections[q];
      Appended(b.controlTx, a.controlTx)
      + if b.dataTx.Some? && a.dataTx.Some? then Appended(b.dataTx.value, a.dataTx.value) else []
    else []
  }

  /** What a writer with this limit frames before it stops at a packet over it. */
  function Written(maxSize: u32, packets: seq<RawPacket>): (r: seq<RawPacket>)
    ensures forall p | p in r :: !Refused(maxSize, p)
  {
    if packets == [] || Refused(maxSize, packets[0]) then [] else [packets[0]] + Written(maxSize, packets[1..])
  }

  /** What comes out of the reader's decoder. */
  function Carried(writerMax: u32, readerMax: u32, packets: seq<RawPacket>): seq<RawPacket> {
    DecodeAll(readerMax, FrameAll(Written(writerMax, packets))).packets
  }

  /** The packets that node `w` receives from `v` once those newly queued for it have crossed. */
  function Received(v: View, after: Table, w: View): seq<RawPacket> {
    if w.id in v.table.connections && w.id in after.connections then
      var b, a := v.table.connections[w.id], after.connections[w.id];
      Carried(v.maxSize, w.maxSize, Appended(b.controlTx, a.controlTx))
      + Carried(v.maxSize, w.maxSize,
          if b.dataTx.Some? && a.dataTx.Some? then Appended(b.dataTx.value, a.dataTx.value) else [])
    else []
  }

  lemma CarriedNone(writerMax: u32, readerMax: u32)
    ensures Carried(writerMax, readerMax, []) == []
  {
    assert FrameAll([]) == [];
  }

  lemma CarriedOne(writerMax: u32, readerMax: u32, p: RawPacket)
    ensures Carried(writerMax, readerMax, [p]) == if Refused(writerMax, p) || Refused(readerMax, p) then [] else [p]
  {
    assert [p][1..] == [];
    if Refused(writerMax, p) {
      assert Written(writerMax, [p]) == [];
      CarriedNone(writerMax, readerMax);
    } else {
      assert Written(writerMax, [p]) == [p] + Written(writerMax, []);
      assert FrameAll([p]) == Frame(p) + FrameAll([]);
      DecodeFrame(readerMax, p, []);
      assert DecodeAll(readerMax, []) == Stream([], [], None);
    }
  }

  /** A single packet queued on either channel arrives if both codecs let it pass. */
  lemma ReceivedOne(v: View, after: Table, w: View, packets: seq<RawPacket>)
    requires Sent(v.table, after, w.id) == packets && |packets| <= 1
    ensures Received(v, after, w) ==
              if packets == [] || Refused(v.maxSize, packets[0]) || Refused(w.maxSize, packets[0]) then [] else packets
  {
    if w.id in v.table.connections && w.id in after.connections {
      var b, a := v.table.connections[w.id], after.connections[w.id];
      OneOfTwo(v.maxSize, w.maxSize, Appended(b.controlTx, a.controlTx),
               if b.dataTx.Some? && a.dataTx.Some? then Appended(b.dataTx.value, a.dataTx.value) else [], packets);
    }
  }

  lemma OneOfTwo(writerMax: u32, readerMax: u32, x: seq<RawPacket>, y: seq<RawPacket>, packets: seq<RawPacket>)
    requires x + y == packets && |packets| <= 1
    ensures Carried(writerMax, readerMax, x) + Carried(writerMax, readerMax, y) ==
              if packets == [] || Refused(writerMax, packets[0]) || Refused(readerMax, packets[0]) then [] else packets
  {
    CarriedNone(writerMax, readerMax);
    if packets != [] {
      CarriedOne(writerMax, readerMax, packets[0]);
      assert packets == [packets[0]];
      assert (x == [] && y == packets) || (x == packets && y == []);
    }
  }

  function Arrivals(lib: Libraries, src: PeerId, packets: seq<RawPacket>): seq<Delivery> {
    if packets == [] then []
    else
      (match Delivered(lib, src, packets[0]) case Some(d) => [d] case None => []) + Arrivals(lib, src, packets[1..])
  }

  function TablesAfter(lib: Libraries, v: View, packets: seq<RawPacket>): Table
    decreases |packets|
  {
    if packets == [] then v.table
    else TablesAfter(lib, v.(table := TableAfter(lib, v, packets[0])), packets[1..])
  }

  function Broadcasted(lib: Libraries, v: View, centralized: bool, m: UserMessage): Table {
    RouteMessage(lib, v.(centralized := centralized), ToAll, m.msgType, m.data, m.flags).table
  }

  /** Deliveries at `q` when `o` broadcasts directly. */
  function Direct(lib: Libraries, net: Network, o: PeerId, m: UserMessage, q: PeerId): seq<Delivery>
    requires o in net && q in net
  {
    Arrivals(lib, o, Received(net[o], Broadcasted(lib, net[o], false, m), net[q]))
  }

  /** Deliveries at `q` when `o` broadcasts in centralized mode: what arrives from
      `o`, and what the leader passes on after handling what arrived at it. */
  function Central(lib: Libraries, net: Network, leader: PeerId, o: PeerId, m: UserMessage, q: PeerId): seq<Delivery>
    requires o in net && leader in net && q in net
  {
    var t := Broadcasted(lib, net[o], true, m);
    Arrivals(lib, o, Received(net[o], t, net[q]))
    + Arrivals(lib, leader,
        Received(net[leader], TablesAfter(lib, net[leader], Received(net[o], t, net[leader])), net[q]))
  }

  /** One copy with this content; the reported sender and the compression bit are left open. */
  predicate OneCopy(ds: seq<Delivery>, m: UserMessage) {
    |ds| == 1 && ds[0].data == m.data && ds[0].msgType == m.msgType && ds[0].flags / 2 == m.flags / 2
  }

  /** What `q` should get from a broadcast of `o`: one copy, or nothing at `o` itself. */
  predicate AsBroadcast(ds: seq<Delivery>, o: PeerId, m: UserMessage, q: PeerId) {
    if q == o then ds == [] else OneCopy(ds, m)
  }

  ghost predicate DirectReachesEveryone(lib: Libraries, net: Network, o: PeerId, m: UserMessage)
    requires o in net
  {
    forall q {:trigger Direct(lib, net, o, m, q)} | q in net :: AsBroadcast(Direct(lib, net, o, m, q), o, m, q)
  }

  ghost predicate CentralReachesEveryone(lib: Libraries, net: Network, leader: PeerId, o: PeerId, m: UserMessage)
    requires o in net && leader in net
  {
    forall q {:trigger Central(lib, net, leader, o, m, q)} | q in net ::
      AsBroadcast(Central(lib, net, leader, o, m, q), o, m, q)
  }

  // --- links -----------------------------------------------------------------

  lemma PostAppends(v: View, q: PeerId, packet: RawPacket)
    requires q in v.table.connections && LinkReady(v, q)
    ensures var b, a := v.table.connections[q], Post(v.capacity, v.table.connections[q], packet);
            Appended(b.controlTx, a.controlTx)
            + (if b.dataTx.Some? && a.dataTx.Some? then Appended(b.dataTx.value, a.dataTx.value) else []) == [packet]
  {
  }

  /** Posting to some peers puts one packet on each of their links and none on any other. */
  lemma PostedLinks(v: View, others: set<PeerId>, peers: set<PeerId>, packet: RawPacket, q: PeerId)
    requires Linked(v, others)
    ensures var after := v.table.(connections := PostTo(v.capacity, v.table.connections, peers, packet));
            Sent(v.table, after, q) == if q in others && q in peers then [packet] else []
  {
    if q in others {
      assert LinkReady(v, q);
      PostAppends(v, q, packet);
    }
  }

  lemma BroadcastLinks(v: View, others: set<PeerId>, exclude: set<PeerId>, packet: RawPacket, q: PeerId)
    requires Linked(v, others)
    ensures Sent(v.table, Broadcast(v.capacity, v.table, packet, exclude), q) ==
              if q in others && q !in exclude then [packet] else []
  {
    if q in others { assert LinkReady(v, q); }
    PostedLinks(v, others, Targets(v.table.connections, exclude), packet, q);
  }

  lemma NothingSent(t: Table, q: PeerId)
    ensures Sent(t, t, q) == []
  {
  }

  lemma OneArrival(lib: Libraries, src: PeerId, packet: RawPacket)
    ensures Arrivals(lib, src, [packet]) == match Delivered(lib, src, packet) case Some(d) => [d] case None => []
  {
    assert [packet][1..] == [];
  }

  /** The packet encoded by a node within whose limit the message is arrives as one
      copy at every other such node. */
  lemma PacketArrives(lib: Libraries, v: View, w: View, src: PeerId, m: UserMessage)
    requires Faithful(lib) && m.msgType >= USER_MESSAGE_START && Within(v, m) && Within(w, m)
    ensures Encode(lib, v, m.msgType, m.data, m.flags).Ok?
    ensures var p := Encode(lib, v, m.msgType, m.data, m.flags).value;
            OneCopy(Arrivals(lib, src, [p]), m) && !Refused(v.maxSize, p) && !Refused(w.maxSize, p)
  {
    EncodedPacket(lib.lz4, m.msgType, m.data, ClearLowBit(m.flags), v.threshold, v.maxSize);
    OneArrival(lib, src, Encode(lib, v, m.msgType, m.data, m.flags).value);
  }

  // --- direct broadcast ------------------------------------------------------

  lemma DirectLinks(lib: Libraries, net: Network, leader: PeerId, o: PeerId, m: UserMessage, q: PeerId)
    requires Faithful(lib) && Mesh(net, leader) && o in net && Sendable(net, m) && q in net
    ensures Encode(lib, net[o], m.msgType, m.data, m.flags).Ok?
    ensures Received(net[o], Broadcasted(lib, net[o], false, m), net[q]) ==
              if q != o then [Encode(lib, net[o], m.msgType, m.data, m.flags).value] else []
  {
    assert MeshNode(net, leader, o) && MeshNode(net, leader, q);
    var v := net[o];
    assert Within(net[o], m) && Within(net[q], m);
    PacketArrives(lib, v, net[q], o, m);
    var p := Encode(lib, v, m.msgType, m.data, m.flags).value;
    BroadcastLinks(v, net.Keys - {o}, {}, p, q);
    ReceivedOne(v, Broadcasted(lib, v, false, m), net[q], if q != o then [p] else []);
  }

  lemma DirectReachesEveryoneOnce(lib: Libraries, net: Network, leader: PeerId, o: PeerId, m: UserMessage)
    requires Faithful(lib) && Mesh(net, leader) && o in net && Sendable(net, m)
    ensures DirectReachesEveryone(lib, net, o, m)
  {
    forall q | q in net ensures AsBroadcast(Direct(lib, net, o, m, q), o, m, q) {
      DirectLinks(lib, net, leader, o, m, q);
      assert Within(net[o], m) && Within(net[q], m);
      PacketArrives(lib, net[o], net[q], o, m);
    }
  }

  // --- unicast ---------------------------------------------------------------

  /** A message to one peer, or to the leader, reaches that node alone; the leader's
      message to the leader goes nowhere and reports success, while a node's message
      to itself by name is an error. */
  lemma UnicastReachesItsTargetOnly(lib: Libraries, net: Network, leader: PeerId, o: PeerId, target: MessageTarget,
                                    m: UserMessage, q: PeerId)
    requires Faithful(lib) && Mesh(net, leader) && o in net && Sendable(net, m) && q in net
    requires !target.ToAll? && (target.ToPeer? ==> target.peer in net)
    ensures var r := RouteMessage(lib, net[o], target, m.msgType, m.data, m.flags);
            var dst := if target.ToPeer? then target.peer else leader;
            var ds := Arrivals(lib, o, Received(net[o], r.table, net[q]));
            && (r.result.Ok? <==> target != ToPeer(o))
            && (if q == dst && dst != o then OneCopy(ds, m) else ds == [])
  {
    assert MeshNode(net, leader, o) && MeshNode(net, leader, q);
    var v, dst := net[o], if target.ToPeer? then target.peer else leader;
    var r := RouteMessage(lib, v, target, m.msgType, m.data, m.flags);
    assert Within(net[o], m) && Within(net[q], m);
    PacketArrives(lib, v, net[q], o, m);
    var p := Encode(lib, v, m.msgType, m.data, m.flags).value;
    if target == ToLeader && o == leader {
      NothingSent(v.table, q);
      ReceivedOne(v, r.table, net[q], []);
    } else {
      if dst != o { assert LinkReady(v, dst); }
      PostedLinks(v, net.Keys - {o}, {dst}, p, q);
      ReceivedOne(v, r.table, net[q], if q == dst && dst != o then [p] else []);
    }
  }

  /** The application is given every user packet whose payload decodes, and every
      forwarded message, as it is if its payload does not decode. */
  lemma DeliveredExactly(lib: Libraries, src: PeerId, packet: RawPacket)
    ensures !packet.IsInternal() ==>
              (Delivered(lib, src, packet) == None <==>
                 packet.IsCompressed() && lib.lz4.decompress(packet.payload) == None)
    ensures packet.IsInternal() && lib.postcard.decode(packet.payload).Some? ==>
              var m, d := lib.postcard.decode(packet.payload).value, Delivered(lib, src, packet);
              && d.Some? && d.value.from == m.fromPeer && d.value.msgType == m.msgType && d.value.flags == m.flags
              && (m.flags % 2 == 0 || lib.lz4.decompress(m.payload) == None ==> d.value.data == m.payload)
  {
    DecodingFailsExactly(lib.lz4, packet);
    if packet.IsInternal() && lib.postcard.decode(packet.payload).Some? {
      DecodingFailsExactly(lib.lz4, UserPacket(lib.postcard.decode(packet.payload).value));
    }
  }

  // --- results ---------------------------------------------------------------

  /** Why a message is not routed: its type first, then a missing leader when one is
      needed; and whatever fails leaves every queue alone. */
  lemma RoutingFailsExactly(lib: Libraries, v: View, target: MessageTarget, msgType: u16, data: seq<byte>, flags: byte)
    ensures var r := RouteMessage(lib, v, target, msgType, data, flags);
            && (r.result.Err? ==> r.table == v.table)
            && (r.result == Err(InvalidArgument) <==> msgType < USER_MESSAGE_START)
            && (r.result == Err(NotLeader) <==>
                  && msgType >= USER_MESSAGE_START && !v.isLeader && v.leaderId == None
                  && (target.ToLeader? || (target.ToAll? && v.centralized)))
            && (target.ToAll? && (v.isLeader || !v.centralized) ==>
                  (r.result == Ok(()) <==> msgType >= USER_MESSAGE_START && Truncated(|data|) <= v.maxSize))
            && (target.ToLeader? && v.isLeader && msgType >= USER_MESSAGE_START ==> r == Routed(v.table, Ok(())))
  {
    EncodingFailsExactly(lib.lz4, msgType, data, ClearLowBit(flags), v.threshold, v.maxSize);
    match target
    case ToAll =>
      if v.leaderId.Some? {
        var envelope := Forwarded(v.id, msgType, ClearLowBit(flags), data);
        SendFails(v, v.leaderId.value, EncodeForwarded(lib, envelope, v.maxSize));
      }
    case ToPeer(peer) => SendFails(v, peer, Encode(lib, v, msgType, data, flags));
    case ToLeader => if v.leaderId.Some? { SendFails(v, v.leaderId.value, Encode(lib, v, msgType, data, flags)); }
  }

  lemma SendFails(v: View, peer: PeerId, packet: Result<RawPacket>)
    ensures var r := SendTo(v, peer, packet);
            && (r.result.Err? ==> r.table == v.table)
            && (packet.Err? ==> r.result == Err(packet.error))
            && (packet.Ok? && r.result.Err? ==> !r.result.error.InvalidArgument? && !r.result.error.NotLeader?)
  {
    if packet.Ok? { SendIsAllOrNothing(v.capacity, v.table, peer, packet.value); }
  }

  /** Only a leader forwards; a failure leaves every queue alone, and a broadcast fails only by its message. */
  lemma ForwardingFailsExactly(lib: Libraries, v: View, from: PeerId, target: ForwardTarget, msgType: u16, flags: byte,
                               payload: seq<byte>)
    ensures var r := ForwardMessage(lib, v, from, target, msgType, flags, payload);
            && (r.result.Err? ==> r.table == v.table)
            && (r.result == Err(InvalidArgument) <==> msgType < USER_MESSAGE_START)
            && (r.result == Err(NotLeader) <==> msgType >= USER_MESSAGE_START && !v.isLeader)
            && (target.ForwardToAll? && v.isLeader && msgType >= USER_MESSAGE_START ==>
                  (r.result == Ok(()) <==> Truncated(|payload|) <= v.maxSize))
  {
    EncodingFailsExactly(lib.lz4, msgType, payload, ClearLowBit(flags), v.threshold, v.maxSize);
    if target.ForwardToPeer? { SendFails(v, target.peer, Encode(lib, v, msgType, payload, flags)); }
  }

  /** What the leader forwards reaches the named peer alone, or everybody but itself
      and the node it came from. */
  lemma ForwardReachesItsTargets(lib: Libraries, net: Network, leader: PeerId, from: PeerId, target: ForwardTarget,
                                 m: UserMessage, q: PeerId)
    requires Faithful(lib) && Mesh(net, leader) && Sendable(net, m) && q in net
    requires target.ForwardToPeer? ==> target.peer in net
    ensures var r := ForwardMessage(lib, net[leader], from, target, m.msgType, m.flags, m.data);
            var ds := Arrivals(lib, leader, Received(net[leader], r.table, net[q]));
            if q != leader && (if target.ForwardToPeer? then q == target.peer else q != from) then OneCopy(ds, m)
            else ds == []
  {
    assert MeshNode(net, leader, leader) && MeshNode(net, leader, q);
    assert Within(net[leader], m) && Within(net[q], m);
    var v := net[leader];
    var r := ForwardMessage(lib, v, from, target, m.msgType, m.flags, m.data);
    PacketArrives(lib, v, net[q], leader, m);
    var p := Encode(lib, v, m.msgType, m.data, m.flags).value;
    match target
    case ForwardToPeer(peer) =>
      PostedLinks(v, net.Keys - {leader}, {peer}, p, q);
      ReceivedOne(v, r.table, net[q], if q != leader && q == peer then [p] else []);
    case ForwardToAll =>
      BroadcastLinks(v, net.Keys - {leader}, {from}, p, q);
      ReceivedOne(v, r.table, net[q], if q != leader && q != from then [p] else []);
  }

  // --- centralized broadcast -------------------------------------------------

  lemma EnvelopeRoute(lib: Libraries, v: View, leader: PeerId, m: UserMessage)
    requires !v.isLeader && v.leaderId == Some(leader) && m.msgType >= USER_MESSAGE_START
    ensures Broadcasted(lib, v, true, m) ==
              if EnvelopeQueued(lib, v, m) then SendToPeer(v.capacity, v.table, leader, EnvelopePacket(lib, v.id, m))
              else v.table
  {
  }

  lemma EnvelopeSent(lib: Libraries, net: Network, leader: PeerId, o: PeerId, m: UserMessage, q: PeerId)
    requires Mesh(net, leader) && o in net && o != leader && m.msgType >= USER_MESSAGE_START && q in net
    ensures Sent(net[o].table, Broadcasted(lib, net[o], true, m), q) ==
              if q == leader && EnvelopeQueued(lib, net[o], m) then [EnvelopePacket(lib, o, m)] else []
  {
    assert MeshNode(net, leader, o) && MeshNode(net, leader, q);
    var v := net[o];
    EnvelopeRoute(lib, v, leader, m);
    if EnvelopeQueued(lib, v, m) {
      PostedLinks(v, net.Keys - {o}, {leader}, EnvelopePacket(lib, o, m), q);
    } else {
      NothingSent(v.table, q);
    }
  }

  /** One too long is queued by its low 32 bits at most, and then refused. */
  lemma EnvelopeCrosses(lib: Libraries, v: View, after: Table, w: View, m: UserMessage)
    requires Sent(v.table, after, w.id) == if EnvelopeQueued(lib, v, m) then [EnvelopePacket(lib, v.id, m)] else []
    ensures Received(v, after, w) == if EnvelopeFits(lib, v, w, m) then [EnvelopePacket(lib, v.id, m)] else []
  {
    ReceivedOne(v, after, w, if EnvelopeQueued(lib, v, m) then [EnvelopePacket(lib, v.id, m)] else []);
  }

  /** From a follower, the envelope gets to the leader alone, and only if it fits. */
  lemma EnvelopeLinks(lib: Libraries, net: Network, leader: PeerId, o: PeerId, m: UserMessage, q: PeerId)
    requires Mesh(net, leader) && o in net && o != leader && m.msgType >= USER_MESSAGE_START && q in net
    ensures Received(net[o], Broadcasted(lib, net[o], true, m), net[q]) ==
              if q == leader && EnvelopeFits(lib, net[o], net[leader], m) then [EnvelopePacket(lib, o, m)] else []
  {
    assert MeshNode(net, leader, o) && MeshNode(net, leader, q);
    EnvelopeSent(lib, net, leader, o, m, q);
    var after := Broadcasted(lib, net[o], true, m);
    if q == leader {
      EnvelopeCrosses(lib, net[o], after, net[q], m);
    } else {
      ReceivedOne(net[o], after, net[q], []);
    }
  }

  /** The leader hands the enveloped message to its own application, once. */
  lemma EnvelopeArrives(lib: Libraries, src: PeerId, o: PeerId, m: UserMessage)
    requires Faithful(lib)
    ensures OneCopy(Arrivals(lib, src, [EnvelopePacket(lib, o, m)]), m)
  {
    OneArrival(lib, src, EnvelopePacket(lib, o, m));
  }

  /** A forwarding leader passes it on to everyone but the originator. */
  lemma ForwardLinks(lib: Libraries, net: Network, leader: PeerId, o: PeerId, m: UserMessage, q: PeerId)
    requires Faithful(lib) && Mesh(net, leader) && o in net && o != leader && Sendable(net, m) && q in net
    ensures Encode(lib, net[leader], m.msgType, m.data, ClearLowBit(m.flags)).Ok?
    ensures var v := net[leader];
            Received(v, TablesAfter(lib, v, [EnvelopePacket(lib, o, m)]), net[q]) ==
              if v.autoForward && q != leader && q != o then
                [Encode(lib, v, m.msgType, m.data, ClearLowBit(m.flags)).value]
              else []
  {
    assert MeshNode(net, leader, leader) && MeshNode(net, leader, q);
    var v, envelope := net[leader], EnvelopePacket(lib, o, m);
    assert [envelope][1..] == [];
    var clean := UserMessage(m.msgType, m.data, ClearLowBit(m.flags));
    assert Within(net[leader], m) && Within(net[q], m);
    PacketArrives(lib, v, net[q], leader, clean);
    var p := Encode(lib, v, m.msgType, m.data, clean.flags).value;
    if v.autoForward {
      BroadcastLinks(v, net.Keys - {leader}, {o}, p, q);
      ReceivedOne(v, TablesAfter(lib, v, [envelope]), net[q], if q != leader && q != o then [p] else []);
    } else {
      NothingSent(v.table, q);
      ReceivedOne(v, v.table, net[q], []);
    }
  }

  /** The envelope arrives at the leader, and everywhere else what the leader forwards. */
  predicate Reached(lib: Libraries, net: Network, leader: PeerId, o: PeerId, m: UserMessage, q: PeerId)
    requires o in net && leader in net
  {
    q != o && EnvelopeFits(lib, net[o], net[leader], m) && (q == leader || net[leader].autoForward)
  }

  /** What a follower's centralized broadcast delivers at each node. */
  lemma CentralFromFollower(lib: Libraries, net: Network, leader: PeerId, o: PeerId, m: UserMessage, q: PeerId)
    requires Faithful(lib) && Mesh(net, leader) && o in net && o != leader && Sendable(net, m) && q in net
    ensures var ds := Central(lib, net, leader, o, m, q);
            if Reached(lib, net, leader, o, m, q) then OneCopy(ds, m) else ds == []
  {
    assert MeshNode(net, leader, leader) && MeshNode(net, leader, q);
    EnvelopeLinks(lib, net, leader, o, m, q);
    EnvelopeLinks(lib, net, leader, o, m, leader);
    if EnvelopeFits(lib, net[o], net[leader], m) {
      ForwardLinks(lib, net, leader, o, m, q);
      EnvelopeArrives(lib, o, o, m);
      assert Within(net[leader], m);
      PacketArrives(lib, net[leader], net[leader], leader, UserMessage(m.msgType, m.data, ClearLowBit(m.flags)));
    } else {
      NothingSent(net[leader].table, q);
      ReceivedOne(net[leader], net[leader].table, net[q], []);
    }
  }

  /** The leader's own centralized broadcast is the direct one. */
  lemma CentralFromLeader(lib: Libraries, net: Network, leader: PeerId, m: UserMessage, q: PeerId)
    requires Faithful(lib) && Mesh(net, leader) && Sendable(net, m) && q in net
    ensures Central(lib, net, leader, leader, m, q) == Direct(lib, net, leader, m, q)
  {
    assert MeshNode(net, leader, leader) && MeshNode(net, leader, q);
    var v := net[leader];
    assert Broadcasted(lib, v, true, m) == Broadcasted(lib, v, false, m);
    DirectLinks(lib, net, leader, leader, m, leader);
    NothingSent(v.table, q);
    ReceivedOne(v, v.table, net[q], []);
  }

  /** Both modes deliver exactly one copy to every node but the originator, with
      equal payload, type and user flags, and the condition on the centralized
      mode is exact: the originator leads, or its envelope is within the limits of
      both and the leader forwards automatically (or has nobody to forward to). */
  lemma CentralizedBroadcastIsEquivalentExactly(lib: Libraries, net: Network, leader: PeerId, o: PeerId, m: UserMessage)
    requires Faithful(lib) && Mesh(net, leader) && o in net && Sendable(net, m)
    ensures DirectReachesEveryone(lib, net, o, m)
    ensures CentralReachesEveryone(lib, net, leader, o, m) <==>
              || o == leader
              || (EnvelopeFits(lib, net[o], net[leader], m) && (net[leader].autoForward || net.Keys == {o, leader}))
  {
    DirectReachesEveryoneOnce(lib, net, leader, o, m);
    if o == leader {
      forall q | q in net ensures AsBroadcast(Central(lib, net, leader, o, m, q), o, m, q) {
        CentralFromLeader(lib, net, leader, m, q);
      }
    } else {
      FollowerReachesEveryoneExactly(lib, net, leader, o, m);
    }
  }

  lemma FollowerReachesEveryoneExactly(lib: Libraries, net: Network, leader: PeerId, o: PeerId, m: UserMessage)
    requires Faithful(lib) && Mesh(net, leader) && o in net && o != leader && Sendable(net, m)
    ensures CentralReachesEveryone(lib, net, leader, o, m) <==>
              EnvelopeFits(lib, net[o], net[leader], m) && (net[leader].autoForward || net.Keys == {o, leader})
  {
    forall q | q in net
      ensures AsBroadcast(Central(lib, net, leader, o, m, q), o, m, q) <==> q == o || Reached(lib, net, leader, o, m, q)
    {
      CentralFromFollower(lib, net, leader, o, m, q);
    }
    AllReached(lib, net, leader, o, m);
  }

  lemma AllReached(lib: Libraries, net: Network, leader: PeerId, o: PeerId, m: UserMessage)
    requires o in net && leader in net && o != leader
    ensures (forall q | q in net :: q == o || Reached(lib, net, leader, o, m, q)) <==>
              EnvelopeFits(lib, net[o], net[leader], m) && (net[leader].autoForward || net.Keys == {o, leader})
  {
    if forall q | q in net :: q == o || Reached(lib, net, leader, o, m, q) {
      assert Reached(lib, net, leader, o, m, leader);
      assert net[leader].autoForward || forall q | q in net :: q == o || q == leader;
    }
  }
}
