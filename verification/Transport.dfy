/** The transport manager as the object it is: a connection map changed in place. */
module Transport {
  import opened Types
  import opened Messaging
  import opened ConnectionTable
  import Rules = ConnectionTable

  class TransportManager {
    const capacity: nat
    const localPeerId: PeerId

    var connections: map<PeerId, PeerConnection>
    var autoReconnect: bool

    /** Tokens and read tasks, as in `Table`. */
    var cancelled: set<Token>
    var rootCancelled: bool
    var nextSerial: nat
    var controlReaders: set<Token>
    var readers: set<Token>
    var clearing: set<Token>

    function State(): Table
      reads this
    {
      Table(connections, cancelled, rootCancelled, nextSerial, controlReaders, readers, clearing)
    }

    constructor (localPeerId: PeerId, capacity: nat, autoReconnect: bool)
      ensures this.localPeerId == localPeerId && this.capacity == capacity && this.autoReconnect == autoReconnect
      ensures State() == Empty
    {
      this.localPeerId, this.capacity, this.autoReconnect := localPeerId, capacity, autoReconnect;
      connections, cancelled, rootCancelled, nextSerial := map[], {}, false, 0;
      controlReaders, readers, clearing := {}, {}, {};
    }

    method ChildToken(kind: Kind, peerId: PeerId) returns (token: Token)
      modifies this`nextSerial
      ensures token == Fresh(old(State()), kind, peerId) && nextSerial == old(nextSerial) + 1
    {
      token := Token(kind, peerId, nextSerial);
      nextSerial := nextSerial + 1;
    }

    method CancelBoth(conn: PeerConnection)
      modifies this`cancelled
      ensures cancelled == old(cancelled) + TokensOf(conn)
    {
      cancelled := cancelled + {conn.controlCancel};
      if conn.dataCancel.Some? { cancelled := cancelled + {conn.dataCancel.value}; }
    }

    method RegisterConnection(peerId: PeerId) returns (r: Result<()>)
      modifies this
      ensures State() == Rules.RegisterConnection(old(State()), peerId) && autoReconnect == old(autoReconnect)
      ensures r == if peerId in old(connections) then Err(DuplicatePeerId(peerId)) else Ok(())
    {
      var token := ChildToken(Control, peerId);
      if peerId in connections { return Err(DuplicatePeerId(peerId)); }
      connections := connections[peerId := PeerConnection(Sender([], false), None, token, None, Connected, true)];
      controlReaders := controlReaders + {token};
      return Ok(());
    }

    method RegisterDataChannel(peerId: PeerId)
      modifies this
      ensures State() == Rules.RegisterDataChannel(old(State()), peerId) && autoReconnect == old(autoReconnect)
    {
      var token := ChildToken(Data, peerId);
      if peerId !in connections { return; }
      var conn := connections[peerId];
      if conn.dataCancel.Some? { cancelled := cancelled + {conn.dataCancel.value}; }
      connections := connections[peerId := conn.(dataTx := Some(Sender([], false)), dataCancel := Some(token))];
      readers := readers + {token};
    }

    /** The end of a control read task; says whether a reconnect loop is started. */
    method ControlCleanup(reader: Token) returns (reconnect: bool)
      requires reader in controlReaders
      modifies this
      ensures State() == ControlEnds(old(State()), reader) && autoReconnect == old(autoReconnect)
      ensures reconnect <==> StartsReconnect(old(State()), reader, autoReconnect)
    {
      reconnect := false;
      controlReaders := controlReaders - {reader};
      if reader.peer in connections {
        var conn := connections[reader.peer];
        CancelBoth(conn);
        reconnect := conn.shouldReconnect && !rootCancelled && autoReconnect;
        connections := connections - {reader.peer};
      }
    }

    method SetShouldReconnect(peerId: PeerId, wants: bool)
      modifies this
      ensures State() == Rules.SetShouldReconnect(old(State()), peerId, wants) && autoReconnect == old(autoReconnect)
    {
      if peerId in connections {
        connections := connections[peerId := connections[peerId].(shouldReconnect := wants)];
      }
    }

    /** After the farewell message, which dies with the queue it is put in unless the writer is quick. */
    method DisconnectPeer(peerId: PeerId)
      modifies this
      ensures State() == Drop(old(State()), peerId) && autoReconnect == old(autoReconnect)
    {
      if peerId in connections { CancelBoth(connections[peerId]); }
      connections := connections - {peerId};
    }

    method ReaderChecks(reader: Token)
      requires reader in readers
      modifies this
      ensures State() == Rules.ReaderChecks(old(State()), reader) && autoReconnect == old(autoReconnect)
    {
      readers := readers - {reader};
      if !(rootCancelled || reader in cancelled) { clearing := clearing + {reader}; }
    }

    method ReaderClears(reader: Token)
      requires reader in clearing
      modifies this
      ensures State() == Rules.ReaderClears(old(State()), reader) && autoReconnect == old(autoReconnect)
    {
      clearing := clearing - {reader};
      if reader.peer in connections {
        connections := connections[reader.peer := connections[reader.peer].(dataTx := None, dataCancel := None)];
      }
    }

    method CancelAll()
      modifies this`cancelled
      ensures cancelled == old(cancelled) + TokensAt(connections, connections.Keys)
    {
      var remaining := connections.Keys;
      NothingCancelledYet(connections, cancelled);
      while remaining != {}
        invariant remaining <= connections.Keys
        invariant CancelledSoFar(connections, old(cancelled), remaining, cancelled)
        decreases |remaining|
      {
        var p :| p in remaining;
        CancelledOneMore(connections, old(cancelled), remaining, cancelled, p);
        CancelBoth(connections[p]);
        remaining := remaining - {p};
      }
      assert connections.Keys - {} == connections.Keys;
    }

    method Shutdown()
      modifies this
      ensures State() == Rules.Shutdown(old(State())) && autoReconnect == old(autoReconnect)
    {
      CancelAll();
      connections := map[];
    }

    method SendToPeer(peerId: PeerId, packet: RawPacket) returns (r: Result<()>)
      modifies this
      ensures State() == Rules.SendToPeer(capacity, old(State()), peerId, packet) && autoReconnect == old(autoReconnect)
      ensures r == SendResult(capacity, old(State()), peerId, packet)
    {
      if peerId !in connections {
        assert connections == PostTo(capacity, connections, {peerId}, packet);
        return Err(PeerNotFound(peerId));
      }
      var refusal := SendOn(peerId, packet);
      assert connections == PostTo(capacity, old(connections), {peerId}, packet);
      return match refusal case Some(e) => Err(e) case None => Ok(());
    }

    /** Put a packet in a bounded queue, or say why not. */
    method TrySend(tx: Sender, packet: RawPacket) returns (after: Sender, refusal: Option<NetworkError>)
      ensures refusal == None <==> !tx.closed && |tx.queue| < capacity
      ensures refusal == None ==> after == tx.(queue := tx.queue + [packet])
      ensures refusal != None ==> after == tx && refusal == Some(if tx.closed then ConnectionFailed else SendQueueFull)
    {
      if tx.closed { return tx, Some(ConnectionFailed); }
      if |tx.queue| >= capacity { return tx, Some(SendQueueFull); }
      return tx.(queue := tx.queue + [packet]), None;
    }

    /** Choose the channel and send. */
    method SendOn(peerId: PeerId, packet: RawPacket) returns (refusal: Option<NetworkError>)
      requires peerId in connections
      modifies this`connections
      ensures connections == old(connections)[peerId := Post(capacity, old(connections)[peerId], packet)]
      ensures refusal == PostRefusal(capacity, old(connections)[peerId], packet)
    {
      var conn := connections[peerId];
      if packet.IsInternal() || conn.dataTx.None? {
        var tx, r := TrySend(conn.controlTx, packet);
        connections, refusal := connections[peerId := conn.(controlTx := tx)], r;
      } else {
        var tx, r := TrySend(conn.dataTx.value, packet);
        connections, refusal := connections[peerId := conn.(dataTx := Some(tx))], r;
      }
    }

    /** Send to every peer of `targets`, and collect the refusals. */
    method SendToAll(targets: set<PeerId>, packet: RawPacket) returns (errors: seq<(PeerId, NetworkError)>)
      requires targets <= connections.Keys
      modifies this`connections
      ensures connections == PostTo(capacity, old(connections), targets, packet)
      ensures Reports(capacity, old(connections), targets, packet, errors)
    {
      errors := [];
      var remaining := targets;
      ghost var before := connections;
      NothingSentYet(capacity, before, targets, packet);
      while remaining != {}
        invariant remaining <= targets
        invariant SentSoFar(capacity, before, targets, remaining, packet, connections, errors)
        decreases |remaining|
      {
        var p :| p in remaining;
        SentOneMore(capacity, before, targets, remaining, packet, connections, errors, p);
        var refusal := SendOn(p, packet);
        errors := errors + ErrorOf(p, refusal);
        remaining := remaining - {p};
      }
      assert targets - {} == targets;
    }

    /** One copy for every target with room; everyone else is reported once, with the reason. */
    method Broadcast(packet: RawPacket, exclude: set<PeerId>) returns (errors: seq<(PeerId, NetworkError)>)
      modifies this
      ensures State() == Rules.Broadcast(capacity, old(State()), packet, exclude) && autoReconnect == old(autoReconnect)
      ensures Reports(capacity, old(connections), Targets(old(connections), exclude), packet, errors)
    {
      errors := SendToAll(Targets(connections, exclude), packet);
    }
  }
}
