/** What the transport's lock-protected sections do to the connection table, to
    the cancellation tokens and to the data-channel read tasks. */
module ConnectionTable {
  import opened Types
  import opened Messaging

  datatype Kind = Control | Data

  /** A cancellation token, named by the channel it was made for. */
  datatype Token = Token(kind: Kind, peer: PeerId, serial: nat)

  /** The sending half of a bounded queue; closed once its writer has stopped. */
  datatype Sender = Sender(queue: seq<RawPacket>, closed: bool)

  datatype PeerConnection = PeerConnection(
    controlTx: Sender,
    dataTx: Option<Sender>,
    controlCancel: Token,
    dataCancel: Option<Token>,
    status: PeerStatus,
    shouldReconnect: bool)

  /** `controlReaders` are the control-channel read tasks that have not yet cleaned
      up, by their own token. `readers` are the data-channel read tasks still in their loop, by their own
      token; `clearing` those past the loop and past the token check, about to
      take the lock. `rootCancelled` cancels every token, present and future. */
  datatype Table = Table(
    connections: map<PeerId, PeerConnection>,
    cancelled: set<Token>,
    rootCancelled: bool,
    nextSerial: nat,
    controlReaders: set<Token>,
    readers: set<Token>,
    clearing: set<Token>)

  const Empty := Table(map[], {}, false, 0, {}, {}, {})

  predicate IsCancelled(t: Table, token: Token) {
    t.rootCancelled || token in t.cancelled
  }

  function SetOf(o: Option<Token>): set<Token> {
    if o.Some? then {o.value} else {}
  }

  /** Both tokens of a connection. */
  function TokensOf(c: PeerConnection): set<Token> {
    {c.controlCancel} + SetOf(c.dataCancel)
  }

  function Fresh(t: Table, kind: Kind, peer: PeerId): Token {
    Token(kind, peer, t.nextSerial)
  }

  function RegisterConnection(t: Table, peer: PeerId): Table {
    var t1 := t.(nextSerial := t.nextSerial + 1);
    if peer in t.connections then t1
    else
      t1.(connections := t.connections[peer :=
            PeerConnection(Sender([], false), None, Fresh(t, Control, peer), None, Connected, true)],
          controlReaders := t.controlReaders + {Fresh(t, Control, peer)})
  }

  function RegisterDataChannel(t: Table, peer: PeerId): Table {
    var token := Fresh(t, Data, peer);
    var t1 := t.(nextSerial := t.nextSerial + 1);
    if peer !in t.connections then t1
    else
      var conn := t.connections[peer];
      t1.(cancelled := t.cancelled + SetOf(conn.dataCancel),
          connections := t.connections[peer := conn.(dataTx := Some(Sender([], false)), dataCancel := Some(token))],
          readers := t.readers + {token})
  }

  /** A peer that says goodbye is not to be reconnected. */
  function SetShouldReconnect(t: Table, peer: PeerId, wants: bool): Table {
    if peer !in t.connections then t
    else t.(connections := t.connections[peer := t.connections[peer].(shouldReconnect := wants)])
  }

  /** Cancel whatever is registered for the peer and forget it. */
  function Drop(t: Table, peer: PeerId): Table {
    if peer !in t.connections then t
    else t.(cancelled := t.cancelled + TokensOf(t.connections[peer]), connections := t.connections - {peer})
  }

  /** A control read task ends: whatever is registered for its peer by then is dropped. */
  function ControlEnds(t: Table, reader: Token): Table {
    if reader !in t.controlReaders then t
    else Drop(t.(controlReaders := t.controlReaders - {reader}), reader.peer)
  }

  /** Whether the end of a control read task starts a reconnect loop. */
  predicate StartsReconnect(t: Table, reader: Token, autoReconnect: bool) {
    && reader.peer in t.connections && t.connections[reader.peer].shouldReconnect
    && !t.rootCancelled && autoReconnect
  }

  function Shutdown(t: Table): Table {
    t.(cancelled := t.cancelled + TokensAt(t.connections, t.connections.Keys), connections := map[])
  }

  function TokensAt(connections: map<PeerId, PeerConnection>, peers: set<PeerId>): set<Token> {
    set p, token | p in peers && p in connections && token in TokensOf(connections[p]) :: token
  }

  /** `cancelled` is what was cancelled `before` and the tokens of all peers not in `remaining`. */
  ghost predicate CancelledSoFar(connections: map<PeerId, PeerConnection>, before: set<Token>, remaining: set<PeerId>,
                                 cancelled: set<Token>)
  {
    cancelled == before + TokensAt(connections, connections.Keys - remaining)
  }

  lemma NothingCancelledYet(connections: map<PeerId, PeerConnection>, before: set<Token>)
    ensures CancelledSoFar(connections, before, connections.Keys, before)
  {
    assert connections.Keys - connections.Keys == {};
    assert TokensAt(connections, {}) == {};
  }

  lemma CancelledOneMore(connections: map<PeerId, PeerConnection>, before: set<Token>, remaining: set<PeerId>,
                         cancelled: set<Token>, p: PeerId)
    requires CancelledSoFar(connections, before, remaining, cancelled)
    requires p in remaining && remaining <= connections.Keys
    ensures CancelledSoFar(connections, before, remaining - {p}, cancelled + TokensOf(connections[p]))
  {
    var done := connections.Keys - remaining;
    assert connections.Keys - (remaining - {p}) == done + {p};
    assert TokensAt(connections, done + {p}) == TokensAt(connections, done) + TokensOf(connections[p]);
  }

  function ClearData(t: Table, peer: PeerId): Table {
    if peer !in t.connections then t
    else t.(connections := t.connections[peer := t.connections[peer].(dataTx := None, dataCancel := None)])
  }

  /** A read task leaves its loop: it stops if it was cancelled, and else goes on to clear. */
  function ReaderChecks(t: Table, reader: Token): Table {
    if reader !in t.readers then t
    else
      t.(readers := t.readers - {reader},
         clearing := if IsCancelled(t, reader) then t.clearing else t.clearing + {reader})
  }

  function ReaderClears(t: Table, reader: Token): Table {
    if reader !in t.clearing then t
    else ClearData(t.(clearing := t.clearing - {reader}), reader.peer)
  }

  // --- what the write tasks do to the queues ---------------------------------

  function OnSender(t: Table, peer: PeerId, kind: Kind, change: Sender -> Sender): Table {
    if peer !in t.connections then t
    else
      var c := t.connections[peer];
      match kind
      case Control => t.(connections := t.connections[peer := c.(controlTx := change(c.controlTx))])
      case Data =>
        if c.dataTx.None? then t
        else t.(connections := t.connections[peer := c.(dataTx := Some(change(c.dataTx.value)))])
  }

  function Taken(s: Sender): Sender {
    if s.queue == [] then s else s.(queue := s.queue[1..])
  }

  function Closed(s: Sender): Sender {
    Sender([], true)
  }

  // --- sending ---------------------------------------------------------------

  function Refusal(capacity: nat, s: Sender): Option<NetworkError> {
    if s.closed then Some(ConnectionFailed) else if |s.queue| >= capacity then Some(SendQueueFull) else None
  }

  function Push(capacity: nat, s: Sender, packet: RawPacket): Sender {
    if Refusal(capacity, s).None? then s.(queue := s.queue + [packet]) else s
  }

  /** User packets take the data channel if there is one. */
  predicate UsesData(c: PeerConnection, packet: RawPacket) {
    !packet.IsInternal() && c.dataTx.Some?
  }

  function PostRefusal(capacity: nat, c: PeerConnection, packet: RawPacket): Option<NetworkError> {
    Refusal(capacity, if UsesData(c, packet) then c.dataTx.value else c.controlTx)
  }

  function Post(capacity: nat, c: PeerConnection, packet: RawPacket): PeerConnection {
    if UsesData(c, packet) then c.(dataTx := Some(Push(capacity, c.dataTx.value, packet)))
    else c.(controlTx := Push(capacity, c.controlTx, packet))
  }

  predicate IsTarget(c: PeerConnection, peer: PeerId, exclude: set<PeerId>) {
    c.status == Connected && peer !in exclude
  }

  function Targets(connections: map<PeerId, PeerConnection>, exclude: set<PeerId>): set<PeerId> {
    set p | p in connections && IsTarget(connections[p], p, exclude)
  }

  function PostTo(capacity: nat, connections: map<PeerId, PeerConnection>, peers: set<PeerId>, packet: RawPacket)
    : map<PeerId, PeerConnection>
  {
    map p | p in connections ::
      if p in peers then Post(capacity, connections[p], packet) else connections[p]
  }

  function SendToPeer(capacity: nat, t: Table, peer: PeerId, packet: RawPacket): Table {
    t.(connections := PostTo(capacity, t.connections, {peer}, packet))
  }

  function SendResult(capacity: nat, t: Table, peer: PeerId, packet: RawPacket): Result<()> {
    if peer !in t.connections then Err(PeerNotFound(peer))
    else
      match PostRefusal(capacity, t.connections[peer], packet)
      case Some(e) => Err(e)
      case None => Ok(())
  }

  /** `errors` reports each of `peers` whose queue refuses the packet once, with the reason, and nobody else. */
  ghost predicate Reports(capacity: nat, connections: map<PeerId, PeerConnection>, peers: set<PeerId>,
                          packet: RawPacket, errors: seq<(PeerId, NetworkError)>)
    requires peers <= connections.Keys
  {
    && (forall p, e :: (p, e) in errors <==> p in peers && PostRefusal(capacity, connections[p], packet) == Some(e))
    && (forall i, j | 0 <= i < j < |errors| :: errors[i].0 != errors[j].0)
  }

  function ErrorOf(p: PeerId, refusal: Option<NetworkError>): seq<(PeerId, NetworkError)> {
    if refusal.Some? then [(p, refusal.value)] else []
  }

  lemma ReportOneMore(capacity: nat, connections: map<PeerId, PeerConnection>, peers: set<PeerId>, p: PeerId,
                      packet: RawPacket, errors: seq<(PeerId, NetworkError)>)
    requires p in connections && p !in peers && peers <= connections.Keys
    requires Reports(capacity, connections, peers, packet, errors)
    ensures Reports(capacity, connections, peers + {p}, packet,
                    errors + ErrorOf(p, PostRefusal(capacity, connections[p], packet)))
  {
    forall i | 0 <= i < |errors| ensures errors[i].0 != p { assert (errors[i].0, errors[i].1) in errors; }
  }

  /** All targets but those in `remaining` have been served: `now` is the table, `errors` the report. */
  ghost predicate SentSoFar(capacity: nat, before: map<PeerId, PeerConnection>, targets: set<PeerId>,
                            remaining: set<PeerId>, packet: RawPacket, now: map<PeerId, PeerConnection>,
                            errors: seq<(PeerId, NetworkError)>)
    requires targets <= before.Keys
  {
    && now == PostTo(capacity, before, targets - remaining, packet)
    && Reports(capacity, before, targets - remaining, packet, errors)
  }

  lemma NothingSentYet(capacity: nat, before: map<PeerId, PeerConnection>, targets: set<PeerId>, packet: RawPacket)
    requires targets <= before.Keys
    ensures SentSoFar(capacity, before, targets, targets, packet, before, [])
  {
    assert targets - targets == {};
    assert PostTo(capacity, before, {}, packet) == before;
  }

  lemma SentOneMore(capacity: nat, before: map<PeerId, PeerConnection>, targets: set<PeerId>,
                    remaining: set<PeerId>, packet: RawPacket, now: map<PeerId, PeerConnection>,
                    errors: seq<(PeerId, NetworkError)>, p: PeerId)
    requires targets <= before.Keys && remaining <= targets && p in remaining
    requires SentSoFar(capacity, before, targets, remaining, packet, now, errors)
    ensures p in now
    ensures SentSoFar(capacity, before, targets, remaining - {p}, packet,
                      now[p := Post(capacity, now[p], packet)],
                      errors + ErrorOf(p, PostRefusal(capacity, now[p], packet)))
  {
    var done := targets - remaining;
    assert targets - (remaining - {p}) == done + {p};
    assert now[p] == before[p];
    assert now[p := Post(capacity, now[p], packet)] == PostTo(capacity, before, done + {p}, packet);
    ReportOneMore(capacity, before, done, p, packet, errors);
  }

  function Broadcast(capacity: nat, t: Table, packet: RawPacket, exclude: set<PeerId>): Table {
    t.(connections := PostTo(capacity, t.connections, Targets(t.connections, exclude), packet))
  }

  // --- what sending guarantees -----------------------------------------------

  function Grown(s: Sender, packet: RawPacket): Sender {
    s.(queue := s.queue + [packet])
  }

  /** Sending is all or nothing: an error leaves the table alone, and success puts
      the packet at the end of exactly one queue. Internal packets only ever join
      the control queue, and user packets do so only without a data channel. */
  lemma SendIsAllOrNothing(capacity: nat, t: Table, peer: PeerId, packet: RawPacket)
    ensures var d, r := SendToPeer(capacity, t, peer, packet), SendResult(capacity, t, peer, packet);
            && (r.Err? ==> d == t)
            && (r.Ok? ==>
                  && peer in t.connections
                  && var c := t.connections[peer];
                     || ((packet.IsInternal() || c.dataTx.None?)
                         && d == t.(connections := t.connections[peer := c.(controlTx := Grown(c.controlTx, packet))]))
                     || (!packet.IsInternal() && c.dataTx.Some?
                         && d == t.(connections :=
                              t.connections[peer := c.(dataTx := Some(Grown(c.dataTx.value, packet)))])))
  {
    var d := SendToPeer(capacity, t, peer, packet);
    if peer in t.connections {
      assert d.connections == t.connections[peer := Post(capacity, t.connections[peer], packet)];
      assert t.connections == t.connections[peer := t.connections[peer]];
    } else {
      assert d.connections == t.connections;
    }
  }

  /** A queue takes a packet if and only if it is open and has room, and the refusal says which failed. */
  lemma RefusedExactly(capacity: nat, s: Sender)
    ensures Refusal(capacity, s) == None <==> !s.closed && |s.queue| < capacity
    ensures Refusal(capacity, s) == Some(ConnectionFailed) <==> s.closed
    ensures Refusal(capacity, s) == Some(SendQueueFull) <==> !s.closed && |s.queue| >= capacity
  {
  }

  /** A newly registered peer can be reached at once, by name and by broadcast, and is
      to be reconnected; a peer already known is not touched, and neither is anyone else. */
  lemma RegisteredPeerIsReachable(t: Table, p: PeerId, capacity: nat, packet: RawPacket)
    requires capacity > 0
    ensures var d := RegisterConnection(t, p);
            && (p in t.connections ==> d.connections == t.connections)
            && (p !in t.connections ==>
                  && p in d.connections && d.connections - {p} == t.connections
                  && p in Targets(d.connections, {}) && SendResult(capacity, d, p, packet) == Ok(())
                  && d.connections[p].shouldReconnect && d.connections[p].dataTx == None
                  && d.connections[p].controlCancel in d.controlReaders)
  {
    var d := RegisterConnection(t, p);
    if p !in t.connections { assert d.connections - {p} == t.connections; }
  }

  /** A newly opened data channel takes over the peer's user packets at once, replaces
      the previous one, and leaves the control channel and everyone else alone. */
  lemma OpenedDataChannelCarries(t: Table, p: PeerId, capacity: nat, packet: RawPacket)
    requires capacity > 0 && p in t.connections && !packet.IsInternal()
    ensures var d := RegisterDataChannel(t, p);
            var e := SendToPeer(capacity, d, p, packet);
            && d.connections.Keys == t.connections.Keys && d.connections - {p} == t.connections - {p}
            && d.connections[p].controlTx == t.connections[p].controlTx
            && d.cancelled == t.cancelled + SetOf(t.connections[p].dataCancel)
            && SendResult(capacity, d, p, packet) == Ok(())
            && e.connections[p].dataTx == Some(Sender([packet], false))
            && e.connections[p].controlTx == t.connections[p].controlTx
  {
    var d := RegisterDataChannel(t, p);
    assert d.connections - {p} == t.connections - {p};
    assert [] + [packet] == [packet];
  }

  /** A data channel for a peer that is no longer registered is abandoned. */
  lemma DataChannelNeedsAPeer(t: Table, p: PeerId)
    requires p !in t.connections
    ensures RegisterDataChannel(t, p) == t.(nextSerial := t.nextSerial + 1)
  {
  }

  /** A dropped peer is unknown from then on, its channels are told to stop, and nobody
      else notices. */
  lemma DroppedPeerIsGone(t: Table, p: PeerId, capacity: nat, packet: RawPacket)
    ensures var d := Drop(t, p);
            && d.connections == t.connections - {p} && SendResult(capacity, d, p, packet) == Err(PeerNotFound(p))
            && d.cancelled == t.cancelled + (if p in t.connections then TokensOf(t.connections[p]) else {})
            && d.readers == t.readers && d.controlReaders == t.controlReaders
  {
    if p !in t.connections { assert t.connections - {p} == t.connections; }
  }
}
