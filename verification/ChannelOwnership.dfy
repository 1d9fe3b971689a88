/** Who owns a peer's data channel, over every interleaving of the transport's
    lock-protected sections. */
module ChannelOwnership {
  import opened Types
  import opened Messaging
  import opened ConnectionTable

  datatype Step =
    | Connect(peer: PeerId)
    | OpenData(peer: PeerId)
    | Disconnect(peer: PeerId)
    | SetReconnect(peer: PeerId, wants: bool)
    | ControlEnds(reader: Token)
    | DataEnds(reader: Token)
    | DataChecks(reader: Token)
    | DataClears(reader: Token)
    | Shutdown
    | CancelRoot
    | Send(capacity: nat, peer: PeerId, packet: RawPacket)
    | SendAll(capacity: nat, packet: RawPacket, exclude: set<PeerId>)
    | WriterTakes(peer: PeerId, kind: Kind)
    | WriterStops(peer: PeerId, kind: Kind)

  /** `DataEnds` is a read task's check and clear without interruption; `DataChecks`
      and `DataClears` are the two apart, as the code takes them. */
  function Apply(t: Table, step: Step): Table {
    match step
    case Connect(p) => RegisterConnection(t, p)
    case OpenData(p) => RegisterDataChannel(t, p)
    case Disconnect(p) => Drop(t, p)
    case SetReconnect(p, wants) => SetShouldReconnect(t, p, wants)
    case ControlEnds(r) => ConnectionTable.ControlEnds(t, r)
    case DataEnds(r) => if r in t.readers then ReaderClears(ReaderChecks(t, r), r) else t
    case DataChecks(r) => ReaderChecks(t, r)
    case DataClears(r) => ReaderClears(t, r)
    case Shutdown => ConnectionTable.Shutdown(t)
    case CancelRoot => t.(rootCancelled := true)
    case Send(capacity, p, packet) => SendToPeer(capacity, t, p, packet)
    case SendAll(capacity, packet, exclude) => Broadcast(capacity, t, packet, exclude)
    case WriterTakes(p, kind) => OnSender(t, p, kind, Taken)
    case WriterStops(p, kind) => OnSender(t, p, kind, Closed)
  }

  function Exec(t: Table, steps: seq<Step>): Table {
    if steps == [] then t else Apply(Exec(t, steps[..|steps| - 1]), steps[|steps| - 1])
  }

  lemma ExecSnoc(t: Table, steps: seq<Step>, step: Step)
    ensures Exec(t, steps + [step]) == Apply(Exec(t, steps), step)
  {
    assert (steps + [step])[..|steps|] == steps;
  }

  lemma ExecPair(a: Step, b: Step)
    ensures Exec(Empty, [a, b]) == Apply(Apply(Empty, a), b)
  {
    ExecSnoc(Empty, [], a);
    ExecSnoc(Empty, [a], b);
    assert [] + [a] == [a] && [a] + [b] == [a, b];
  }

  /** A clear that takes the lock finds its token still uncancelled. */
  predicate Prompt(t: Table, step: Step) {
    step.DataClears? && step.reader in t.clearing ==> !IsCancelled(t, step.reader)
  }

  ghost predicate PromptRun(t: Table, steps: seq<Step>) {
    steps != [] ==>
      var front := steps[..|steps| - 1];
      PromptRun(t, front) && Prompt(Exec(t, front), steps[|steps| - 1])
  }

  // --- the invariant ---------------------------------------------------------

  /** What holds of a registered connection in every run. */
  predicate ConnectionOk(t: Table, p: PeerId)
    requires p in t.connections
  {
    var c := t.connections[p];
    && (c.dataTx.Some? <==> c.dataCancel.Some?)
    && c.controlCancel.kind == Control && c.controlCancel.peer == p && c.controlCancel.serial < t.nextSerial
    && c.controlCancel !in t.cancelled
    && (c.dataCancel.Some? ==>
          && c.dataCancel.value.kind == Data && c.dataCancel.value.peer == p
          && c.dataCancel.value.serial < t.nextSerial && c.dataCancel.value !in t.cancelled)
  }

  ghost predicate ConnectionsOk(t: Table) {
    && (forall p {:trigger ConnectionOk(t, p)} | p in t.connections :: ConnectionOk(t, p))
    && (forall token | token in t.cancelled :: token.serial < t.nextSerial)
  }

  /** A read task whose token is not cancelled is the registered channel of its peer. */
  predicate ReaderOk(t: Table, r: Token) {
    && r.kind == Data && r.serial < t.nextSerial
    && (r !in t.cancelled ==> r.peer in t.connections && t.connections[r.peer].dataCancel == Some(r))
  }

  ghost predicate ReadersOk(t: Table) {
    forall r {:trigger ReaderOk(t, r)} | r in t.readers + t.clearing :: ReaderOk(t, r)
  }

  ghost predicate Owned(t: Table) {
    ConnectionsOk(t) && ReadersOk(t)
  }

  // --- every step keeps it ---------------------------------------------------

  lemma ConnectKeeps(t: Table, p: PeerId)
    requires ConnectionsOk(t)
    ensures var d := RegisterConnection(t, p); ConnectionsOk(d) && (ReadersOk(t) ==> ReadersOk(d))
  {
    var d := RegisterConnection(t, p);
    forall q | q in d.connections ensures ConnectionOk(d, q) {
      if q in t.connections { assert ConnectionOk(t, q); }
    }
    if ReadersOk(t) {
      forall r | r in d.readers + d.clearing ensures ReaderOk(d, r) { assert ReaderOk(t, r); }
    }
  }

  lemma OpenKeeps(t: Table, p: PeerId)
    requires ConnectionsOk(t)
    ensures var d := RegisterDataChannel(t, p); ConnectionsOk(d) && (ReadersOk(t) ==> ReadersOk(d))
  {
    var d := RegisterDataChannel(t, p);
    if p in t.connections { assert ConnectionOk(t, p); }
    forall q | q in d.connections ensures ConnectionOk(d, q) { assert ConnectionOk(t, q); }
    if ReadersOk(t) {
      forall r | r in d.readers + d.clearing ensures ReaderOk(d, r) {
        if r in t.readers + t.clearing { assert ReaderOk(t, r); }
      }
    }
  }

  /** Dropping a connection cancels its reader with it. */
  lemma DropKeeps(t: Table, p: PeerId)
    requires ConnectionsOk(t)
    ensures var d := Drop(t, p); ConnectionsOk(d) && (ReadersOk(t) ==> ReadersOk(d))
  {
    var d := Drop(t, p);
    if p in t.connections { assert ConnectionOk(t, p); }
    forall q | q in d.connections ensures ConnectionOk(d, q) { assert ConnectionOk(t, q); }
    if ReadersOk(t) {
      forall r | r in d.readers + d.clearing ensures ReaderOk(d, r) { assert ReaderOk(t, r); }
    }
  }

  lemma ControlKeeps(t: Table, reader: Token)
    requires ConnectionsOk(t)
    ensures var d := ConnectionTable.ControlEnds(t, reader); ConnectionsOk(d) && (ReadersOk(t) ==> ReadersOk(d))
  {
    if reader in t.controlReaders {
      var t1 := t.(controlReaders := t.controlReaders - {reader});
      forall q | q in t1.connections ensures ConnectionOk(t1, q) { assert ConnectionOk(t, q); }
      if ReadersOk(t) {
        forall r | r in t1.readers + t1.clearing ensures ReaderOk(t1, r) { assert ReaderOk(t, r); }
      }
      DropKeeps(t1, reader.peer);
    }
  }

  lemma ShutdownKeeps(t: Table)
    requires ConnectionsOk(t)
    ensures var d := ConnectionTable.Shutdown(t); ConnectionsOk(d) && (ReadersOk(t) ==> ReadersOk(d))
  {
    var d := ConnectionTable.Shutdown(t);
    forall token | token in d.cancelled ensures token.serial < d.nextSerial {
      if token !in t.cancelled {
        var p :| p in t.connections && token in TokensOf(t.connections[p]);
        assert ConnectionOk(t, p);
      }
    }
    if ReadersOk(t) {
      forall r | r in d.readers + d.clearing ensures ReaderOk(d, r) {
        assert ReaderOk(t, r);
        if r !in t.cancelled { assert r in TokensOf(t.connections[r.peer]); }
      }
    }
  }

  /** Leaving the loop moves a task or ends it; what stays was there before. */
  lemma CheckKeeps(t: Table, reader: Token)
    requires ConnectionsOk(t)
    ensures var d := ReaderChecks(t, reader); ConnectionsOk(d) && (ReadersOk(t) ==> ReadersOk(d))
  {
    var d := ReaderChecks(t, reader);
    forall q | q in d.connections ensures ConnectionOk(d, q) { assert ConnectionOk(t, q); }
    if ReadersOk(t) {
      forall r | r in d.readers + d.clearing ensures ReaderOk(d, r) { assert ReaderOk(t, r); }
    }
  }

  lemma ClearKeepsConnections(t: Table, reader: Token)
    requires ConnectionsOk(t)
    ensures ConnectionsOk(ReaderClears(t, reader))
  {
    var d := ReaderClears(t, reader);
    forall q | q in d.connections ensures ConnectionOk(d, q) { assert ConnectionOk(t, q); }
  }

  /** A prompt clear takes away only the channel of the task that clears. */
  lemma ClearKeepsReaders(t: Table, reader: Token)
    requires Owned(t) && reader !in t.readers
    requires reader in t.clearing ==> reader !in t.cancelled
    ensures ReadersOk(ReaderClears(t, reader))
  {
    var d := ReaderClears(t, reader);
    if reader in t.clearing { assert ReaderOk(t, reader); }
    forall r | r in d.readers + d.clearing ensures ReaderOk(d, r) { assert ReaderOk(t, r); }
  }

  /** Steps that touch no token and no read task. */
  predicate IsOther(step: Step) {
    || step.Send? || step.SendAll? || step.CancelRoot? || step.WriterTakes? || step.WriterStops?
    || step.SetReconnect?
  }

  /** Same peers with the same tokens and kinds of channel, and the same tasks. */
  ghost predicate SameChannels(t: Table, d: Table) {
    && d.connections.Keys == t.connections.Keys
    && (forall p {:trigger d.connections[p]} | p in d.connections ::
          && d.connections[p].controlCancel == t.connections[p].controlCancel
          && d.connections[p].dataCancel == t.connections[p].dataCancel
          && d.connections[p].dataTx.Some? == t.connections[p].dataTx.Some?)
    && d.cancelled == t.cancelled && d.nextSerial == t.nextSerial
    && d.readers == t.readers && d.clearing == t.clearing && d.controlReaders == t.controlReaders
  }

  lemma PostShape(capacity: nat, t: Table, peers: set<PeerId>, packet: RawPacket)
    ensures SameChannels(t, t.(connections := PostTo(capacity, t.connections, peers, packet)))
  {
  }

  lemma WriterShape(t: Table, p: PeerId, kind: Kind, change: Sender -> Sender)
    ensures SameChannels(t, OnSender(t, p, kind, change))
  {
  }

  lemma WordShape(t: Table, p: PeerId, wants: bool)
    ensures SameChannels(t, SetShouldReconnect(t, p, wants))
  {
  }

  lemma OtherShape(t: Table, step: Step)
    requires IsOther(step)
    ensures SameChannels(t, Apply(t, step))
  {
    match step
    case Send(capacity, p, packet) => PostShape(capacity, t, {p}, packet);
    case SendAll(capacity, packet, exclude) => PostShape(capacity, t, Targets(t.connections, exclude), packet);
    case WriterTakes(p, kind) => WriterShape(t, p, kind, Taken);
    case WriterStops(p, kind) => WriterShape(t, p, kind, Closed);
    case SetReconnect(p, wants) => WordShape(t, p, wants);
    case CancelRoot =>
  }

  lemma OtherKeeps(t: Table, step: Step)
    requires ConnectionsOk(t) && IsOther(step)
    ensures var d := Apply(t, step); ConnectionsOk(d) && (ReadersOk(t) ==> ReadersOk(d))
  {
    OtherShape(t, step);
    SameChannelsKeep(t, Apply(t, step));
  }

  lemma SameChannelsKeep(t: Table, d: Table)
    requires ConnectionsOk(t) && SameChannels(t, d)
    ensures ConnectionsOk(d) && (ReadersOk(t) ==> ReadersOk(d))
  {
    forall q | q in d.connections ensures ConnectionOk(d, q) { assert ConnectionOk(t, q); }
    if ReadersOk(t) {
      forall r | r in d.readers + d.clearing ensures ReaderOk(d, r) { assert ReaderOk(t, r); }
    }
  }

  /** A task is in its loop or past it, never both. */
  predicate Split(t: Table) {
    t.readers !! t.clearing && forall r | r in t.readers + t.clearing :: r.serial < t.nextSerial
  }

  lemma SplitStep(t: Table, step: Step)
    requires Split(t)
    ensures Split(Apply(t, step))
  {
  }

  lemma ConnectionsStep(t: Table, step: Step)
    requires ConnectionsOk(t)
    ensures ConnectionsOk(Apply(t, step))
  {
    match step
    case Connect(p) => ConnectKeeps(t, p);
    case OpenData(p) => OpenKeeps(t, p);
    case Disconnect(p) => DropKeeps(t, p);
    case ControlEnds(r) => ControlKeeps(t, r);
    case DataEnds(r) =>
      CheckKeeps(t, r);
      ClearKeepsConnections(ReaderChecks(t, r), r);
    case DataChecks(r) => CheckKeeps(t, r);
    case DataClears(r) => ClearKeepsConnections(t, r);
    case Shutdown => ShutdownKeeps(t);
    case _ => OtherKeeps(t, step);
  }

  lemma {:induction false} ConnectionsInEveryRun(steps: seq<Step>)
    ensures ConnectionsOk(Exec(Empty, steps))
  {
    if steps != [] {
      ConnectionsInEveryRun(steps[..|steps| - 1]);
      ConnectionsStep(Exec(Empty, steps[..|steps| - 1]), steps[|steps| - 1]);
    }
  }

  lemma ReadersStep(t: Table, step: Step)
    requires Owned(t) && Split(t) && Prompt(t, step)
    ensures ReadersOk(Apply(t, step))
  {
    match step
    case Connect(p) => ConnectKeeps(t, p);
    case OpenData(p) => OpenKeeps(t, p);
    case Disconnect(p) => DropKeeps(t, p);
    case ControlEnds(r) => ControlKeeps(t, r);
    case DataEnds(r) =>
      CheckKeeps(t, r);
      if r in t.readers { ClearKeepsReaders(ReaderChecks(t, r), r); }
    case DataChecks(r) => CheckKeeps(t, r);
    case DataClears(r) => if r in t.clearing { ClearKeepsReaders(t, r); }
    case Shutdown => ShutdownKeeps(t);
    case _ => OtherKeeps(t, step);
  }

  lemma {:induction false} OwnedInEveryRun(steps: seq<Step>)
    requires PromptRun(Empty, steps)
    ensures Owned(Exec(Empty, steps)) && Split(Exec(Empty, steps))
  {
    if steps != [] {
      var front := steps[..|steps| - 1];
      OwnedInEveryRun(front);
      ConnectionsStep(Exec(Empty, front), steps[|steps| - 1]);
      ReadersStep(Exec(Empty, front), steps[|steps| - 1]);
      SplitStep(Exec(Empty, front), steps[|steps| - 1]);
    }
  }

  // --- queues ----------------------------------------------------------------

  /** Queues are within capacity, and no internal packet waits in a data queue. */
  predicate QueuesOk(capacity: nat, c: PeerConnection) {
    && |c.controlTx.queue| <= capacity
    && (c.dataTx.Some? ==>
          |c.dataTx.value.queue| <= capacity && forall packet | packet in c.dataTx.value.queue :: !packet.IsInternal())
  }

  ghost predicate AllQueuesOk(capacity: nat, t: Table) {
    forall p {:trigger QueuesOk(capacity, t.connections[p])} | p in t.connections ::
      QueuesOk(capacity, t.connections[p])
  }

  predicate UsesCapacity(capacity: nat, step: Step) {
    step.Send? || step.SendAll? ==> step.capacity == capacity
  }

  lemma PostKeepsQueues(capacity: nat, c: PeerConnection, packet: RawPacket)
    requires QueuesOk(capacity, c)
    ensures QueuesOk(capacity, Post(capacity, c, packet))
  {
  }

  lemma WriterKeepsQueues(capacity: nat, t: Table, p: PeerId, kind: Kind)
    requires AllQueuesOk(capacity, t)
    ensures AllQueuesOk(capacity, OnSender(t, p, kind, Taken)) && AllQueuesOk(capacity, OnSender(t, p, kind, Closed))
  {
    if p in t.connections {
      var c := t.connections[p];
      assert QueuesOk(capacity, c);
      if c.dataTx.Some? {
        forall packet | packet in Taken(c.dataTx.value).queue ensures !packet.IsInternal() {
          assert packet in c.dataTx.value.queue;
        }
      }
    }
    forall d | d in {OnSender(t, p, kind, Taken), OnSender(t, p, kind, Closed)} ensures AllQueuesOk(capacity, d) {
      forall q | q in d.connections ensures QueuesOk(capacity, d.connections[q]) {
        assert QueuesOk(capacity, t.connections[q]);
      }
    }
  }

  lemma QueuesStep(capacity: nat, t: Table, step: Step)
    requires AllQueuesOk(capacity, t) && UsesCapacity(capacity, step)
    ensures AllQueuesOk(capacity, Apply(t, step))
  {
    var d := Apply(t, step);
    if step.WriterTakes? || step.WriterStops? {
      WriterKeepsQueues(capacity, t, step.peer, step.kind);
    } else {
      forall q | q in d.connections ensures QueuesOk(capacity, d.connections[q]) {
        if q in t.connections {
          assert QueuesOk(capacity, t.connections[q]);
          if step.Send? || step.SendAll? { PostKeepsQueues(capacity, t.connections[q], step.packet); }
        }
      }
    }
  }

  /** In every run every queue stays within its bound, and election and membership
      traffic never waits behind user data on a data channel. */
  lemma {:induction false} QueuesInEveryRun(capacity: nat, steps: seq<Step>)
    requires forall step | step in steps :: UsesCapacity(capacity, step)
    ensures AllQueuesOk(capacity, Exec(Empty, steps))
  {
    if steps != [] {
      var front, last := steps[..|steps| - 1], steps[|steps| - 1];
      forall step | step in front ensures UsesCapacity(capacity, step) { assert step in steps; }
      QueuesInEveryRun(capacity, front);
      assert last in steps;
      QueuesStep(capacity, Exec(Empty, front), last);
    }
  }

  // --- what follows ----------------------------------------------------------

  /** In every run whatever, a connection has a data sender exactly when it has a data token. */
  lemma SenderAndTokenTogether(steps: seq<Step>, p: PeerId)
    requires p in Exec(Empty, steps).connections
    ensures var c := Exec(Empty, steps).connections[p]; c.dataTx.Some? <==> c.dataCancel.Some?
  {
    ConnectionsInEveryRun(steps);
    assert ConnectionOk(Exec(Empty, steps), p);
  }

  /** A live read task that has not been cancelled is the registered channel of its peer. */
  lemma LiveReaderIsRegistered(steps: seq<Step>, r: Token)
    requires PromptRun(Empty, steps)
    requires var t := Exec(Empty, steps); r in t.readers && !IsCancelled(t, r)
    ensures var t := Exec(Empty, steps);
            r.peer in t.connections && t.connections[r.peer].dataTx.Some? && t.connections[r.peer].dataCancel == Some(r)
  {
    OwnedInEveryRun(steps);
    var t := Exec(Empty, steps);
    assert ReaderOk(t, r) && ConnectionOk(t, r.peer);
  }

  /** So its cleanup clears its own channel if it clears any, and touches nothing else. */
  lemma CleanupClearsOnlyItsOwn(steps: seq<Step>, r: Token, p: PeerId)
    requires PromptRun(Empty, steps)
    requires r in Exec(Empty, steps).readers && p in Exec(Empty, steps).connections
    ensures var t := Exec(Empty, steps);
            var d := Apply(t, DataEnds(r));
            && p in d.connections
            && (d.connections[p] != t.connections[p] <==> !IsCancelled(t, r) && p == r.peer)
            && (d.connections[p] != t.connections[p] ==>
                  && t.connections[p].dataCancel == Some(r)
                  && d.connections[p] == t.connections[p].(dataTx := None, dataCancel := None))
  {
    OwnedInEveryRun(steps);
    assert ReaderOk(Exec(Empty, steps), r);
  }

  /** When a clear is late it may hit another channel: given ownership so far, it
      breaks ownership exactly when the peer has another live, uncancelled reader. */
  lemma LateClearBreaksExactly(t: Table, r: Token)
    requires Owned(t) && r in t.clearing && r !in t.readers
    ensures ReadersOk(Apply(t, DataClears(r))) <==>
              !exists other | other in t.readers + t.clearing ::
                 other != r && other.peer == r.peer && other !in t.cancelled
  {
    var d := Apply(t, DataClears(r));
    assert ReaderOk(t, r);
    if other :| other in t.readers + t.clearing && other != r && other.peer == r.peer && other !in t.cancelled {
      assert ReaderOk(t, other);
      assert !ReaderOk(d, other);
      assert other in d.readers + d.clearing;
    } else {
      forall o | o in d.readers + d.clearing ensures ReaderOk(d, o) { assert ReaderOk(t, o); }
    }
  }

  /** And that happens: the check is made, a newer channel is registered, and
      only then does the old task take the lock and clear the newer channel. */
  lemma LateClearCanHitANewerChannel(p: PeerId)
    ensures var first, second := Token(Data, p, 1), Token(Data, p, 2);
            var t := Exec(Empty, [Connect(p), OpenData(p), DataChecks(first), OpenData(p), DataClears(first)]);
            && second in t.readers && !IsCancelled(t, second)
            && p in t.connections && t.connections[p].dataTx == None
  {
    var first := Token(Data, p, 1);
    var front := [Connect(p), OpenData(p)];
    ExecPair(Connect(p), OpenData(p));
    ExecSnoc(Empty, front, DataChecks(first));
    ExecSnoc(Empty, front + [DataChecks(first)], OpenData(p));
    ExecSnoc(Empty, front + [DataChecks(first)] + [OpenData(p)], DataClears(first));
    assert front + [DataChecks(first)] + [OpenData(p)] + [DataClears(first)]
        == [Connect(p), OpenData(p), DataChecks(first), OpenData(p), DataClears(first)];
    assert p in Exec(Empty, front).connections && first in Exec(Empty, front).readers;
  }

  // --- control channels ------------------------------------------------------

  /** Every connection is watched by the live read task of its own token, and a live
      read task that was not cancelled watches the registered connection. */
  predicate WatchedOk(t: Table, p: PeerId)
    requires p in t.connections
  {
    t.connections[p].controlCancel in t.controlReaders && ConnectionOk(t, p)
  }

  predicate WatcherOk(t: Table, r: Token) {
    && r.kind == Control && r.serial < t.nextSerial
    && (r !in t.cancelled ==> r.peer in t.connections && t.connections[r.peer].controlCancel == r)
  }

  ghost predicate Watched(t: Table) {
    && (forall p {:trigger WatchedOk(t, p)} | p in t.connections :: WatchedOk(t, p))
    && (forall r {:trigger WatcherOk(t, r)} | r in t.controlReaders :: WatcherOk(t, r))
  }

  lemma DropKeepsWatch(t: Table, p: PeerId)
    requires Watched(t)
    ensures Watched(Drop(t, p))
  {
    var d := Drop(t, p);
    forall q | q in d.connections ensures WatchedOk(d, q) {
      assert WatchedOk(t, q);
      if p in t.connections { assert WatchedOk(t, p); }
    }
    forall r | r in d.controlReaders ensures WatcherOk(d, r) { assert WatcherOk(t, r); }
  }

  /** Ending a control task takes its connection along, whichever that is by then. */
  lemma ControlEndsKeepsWatch(t: Table, reader: Token)
    requires Watched(t)
    ensures Watched(ConnectionTable.ControlEnds(t, reader))
  {
    var d := ConnectionTable.ControlEnds(t, reader);
    if reader in t.controlReaders {
      assert WatcherOk(t, reader);
      if reader.peer in t.connections { assert WatchedOk(t, reader.peer); }
      forall q | q in d.connections ensures WatchedOk(d, q) { assert WatchedOk(t, q); }
      forall r | r in d.controlReaders ensures WatcherOk(d, r) { assert WatcherOk(t, r); }
    }
  }

  lemma ConnectKeepsWatch(t: Table, p: PeerId)
    requires Watched(t) && ConnectionsOk(t)
    ensures Watched(RegisterConnection(t, p))
  {
    var d := RegisterConnection(t, p);
    forall q | q in d.connections ensures WatchedOk(d, q) { if q in t.connections { assert WatchedOk(t, q); } }
    forall r | r in d.controlReaders ensures WatcherOk(d, r) { if r in t.controlReaders { assert WatcherOk(t, r); } }
  }

  lemma ShutdownKeepsWatch(t: Table)
    requires Watched(t)
    ensures Watched(ConnectionTable.Shutdown(t))
  {
    var d := ConnectionTable.Shutdown(t);
    forall r | r in d.controlReaders ensures WatcherOk(d, r) {
      assert WatcherOk(t, r);
      if r !in t.cancelled { assert r in TokensOf(t.connections[r.peer]); }
    }
  }

  /** All other steps leave control tokens and control tasks alone. */
  lemma OtherKeepsWatch(t: Table, step: Step)
    requires Watched(t) && ConnectionsOk(t) && ConnectionsOk(Apply(t, step))
    requires !step.Connect? && !step.Disconnect? && !step.ControlEnds? && !step.Shutdown?
    ensures Watched(Apply(t, step))
  {
    var d := Apply(t, step);
    SameControl(t, step);
    forall q | q in d.connections ensures WatchedOk(d, q) { assert WatchedOk(t, q) && ConnectionOk(d, q); }
    forall r | r in d.controlReaders ensures WatcherOk(d, r) { assert WatcherOk(t, r); }
  }

  lemma SameControl(t: Table, step: Step)
    requires ConnectionsOk(t)
    requires !step.Connect? && !step.Disconnect? && !step.ControlEnds? && !step.Shutdown?
    ensures var d := Apply(t, step);
            && d.controlReaders == t.controlReaders && d.nextSerial >= t.nextSerial
            && d.connections.Keys == t.connections.Keys
            && (forall q | q in d.connections :: d.connections[q].controlCancel == t.connections[q].controlCancel)
            && (forall r | r in d.cancelled && r !in t.cancelled :: r.kind == Data)
            && t.cancelled <= d.cancelled
  {
    if step.OpenData? && step.peer in t.connections { assert ConnectionOk(t, step.peer); }
  }

  lemma WatchStep(t: Table, step: Step)
    requires Watched(t) && ConnectionsOk(t)
    ensures Watched(Apply(t, step))
  {
    match step
    case Connect(p) => ConnectKeepsWatch(t, p);
    case Disconnect(p) => DropKeepsWatch(t, p);
    case ControlEnds(r) => ControlEndsKeepsWatch(t, r);
    case Shutdown => ShutdownKeepsWatch(t);
    case _ =>
      ConnectionsStep(t, step);
      OtherKeepsWatch(t, step);
  }

  /** In every run whatever: no connection is without its own live control task, and
      a live, uncancelled control task is the registered one of its peer. */
  lemma {:induction false} WatchedInEveryRun(steps: seq<Step>)
    ensures Watched(Exec(Empty, steps)) && ConnectionsOk(Exec(Empty, steps))
  {
    ConnectionsInEveryRun(steps);
    if steps != [] {
      var front := steps[..|steps| - 1];
      WatchedInEveryRun(front);
      WatchStep(Exec(Empty, front), steps[|steps| - 1]);
    }
  }

  /** What a control task's cleanup takes away, exactly: the connection registered
      for its peer; a connection that is not its own if and only if the one
      registered by then has another token. */
  lemma ControlCleanupRemovesExactly(t: Table, r: Token, p: PeerId)
    requires r in t.controlReaders && p in t.connections
    ensures var d := Apply(t, ControlEnds(r));
            && (p !in d.connections <==> p == r.peer)
            && (p in d.connections ==> d.connections[p] == t.connections[p])
            && ((exists q | q in t.connections :: q !in d.connections && t.connections[q].controlCancel != r)
                  <==> r.peer in t.connections && t.connections[r.peer].controlCancel != r)
  {
    var d := Apply(t, ControlEnds(r));
    forall q | q in t.connections ensures q !in d.connections <==> q == r.peer {}
  }

  /** A peer registers again only after the control task of its previous connection has cleaned up. */
  predicate Patient(t: Table, step: Step) {
    step.Connect? && step.peer !in t.connections ==> forall r | r in t.controlReaders :: r.peer != step.peer
  }

  ghost predicate PatientRun(t: Table, steps: seq<Step>) {
    steps != [] ==>
      var front := steps[..|steps| - 1];
      PatientRun(t, front) && Patient(Exec(t, front), steps[|steps| - 1])
  }

  /** Whatever connection the task's peer has is the task's own. */
  predicate OwnsIfAny(t: Table, r: Token) {
    r.peer in t.connections ==> t.connections[r.peer].controlCancel == r
  }

  ghost predicate AllOwn(t: Table) {
    forall r {:trigger OwnsIfAny(t, r)} | r in t.controlReaders :: OwnsIfAny(t, r)
  }

  ghost predicate CleanupsRemoveOwn(t: Table) {
    forall r, p {:trigger Apply(t, ControlEnds(r)), t.connections[p]} | r in t.controlReaders && p in t.connections ::
      p !in Apply(t, ControlEnds(r)).connections ==> t.connections[p].controlCancel == r
  }

  lemma OwnStep(t: Table, step: Step)
    requires AllOwn(t) && ConnectionsOk(t) && Patient(t, step)
    ensures AllOwn(Apply(t, step))
  {
    var d := Apply(t, step);
    if !step.Connect? && !step.Disconnect? && !step.ControlEnds? && !step.Shutdown? { SameControl(t, step); }
    forall r | r in d.controlReaders ensures OwnsIfAny(d, r) {
      if r in t.controlReaders { assert OwnsIfAny(t, r); }
    }
  }

  /** In every patient run a control task, cancelled or not, removes only its own connection. */
  lemma {:induction false} PatientCleanupRemovesOnlyItsOwn(steps: seq<Step>)
    requires PatientRun(Empty, steps)
    ensures AllOwn(Exec(Empty, steps)) && CleanupsRemoveOwn(Exec(Empty, steps))
  {
    var t := Exec(Empty, steps);
    if steps != [] {
      var front := steps[..|steps| - 1];
      PatientCleanupRemovesOnlyItsOwn(front);
      ConnectionsInEveryRun(front);
      OwnStep(Exec(Empty, front), steps[|steps| - 1]);
    }
    forall r, p | r in t.controlReaders && p in t.connections && p !in Apply(t, ControlEnds(r)).connections
      ensures t.connections[p].controlCancel == r
    {
      assert OwnsIfAny(t, r);
      ControlCleanupRemovesExactly(t, r, p);
    }
  }

  /** Without patience it goes wrong: the read task of a connection dropped by hand,
      still to clean up, cancels and removes the connection made after it. */
  lemma LateControlCleanupRemovesANewerConnection(p: PeerId)
    ensures var first, second := Token(Control, p, 0), Token(Control, p, 1);
            var steps := [Connect(p), Disconnect(p), Connect(p)];
            var t, d := Exec(Empty, steps), Exec(Empty, steps + [ControlEnds(first)]);
            && first in t.controlReaders && second in t.controlReaders
            && p in t.connections && t.connections[p].controlCancel == second && !IsCancelled(t, second)
            && p !in d.connections && IsCancelled(d, second)
  {
    var steps := [Connect(p), Disconnect(p), Connect(p)];
    ExecPair(Connect(p), Disconnect(p));
    ExecSnoc(Empty, [Connect(p), Disconnect(p)], Connect(p));
    assert [Connect(p), Disconnect(p)] + [Connect(p)] == steps;
    ExecSnoc(Empty, steps, ControlEnds(Token(Control, p, 0)));
  }

  // --- reachable and reconnected ---------------------------------------------

  ghost predicate AllConnected(t: Table) {
    forall p {:trigger t.connections[p]} | p in t.connections :: t.connections[p].status == Connected
  }

  lemma ConnectedStep(t: Table, step: Step)
    requires AllConnected(t)
    ensures AllConnected(Apply(t, step))
  {
    var d := Apply(t, step);
    forall p | p in d.connections ensures d.connections[p].status == Connected {
      if p in t.connections { assert t.connections[p].status == Connected; }
    }
  }

  /** In every run every registered peer is a target of every broadcast that does not exclude it. */
  lemma {:induction false} RegisteredPeersAreTargets(steps: seq<Step>, exclude: set<PeerId>)
    ensures AllConnected(Exec(Empty, steps))
    ensures var conns := Exec(Empty, steps).connections; Targets(conns, exclude) == conns.Keys - exclude
  {
    if steps != [] {
      RegisteredPeersAreTargets(steps[..|steps| - 1], exclude);
      ConnectedStep(Exec(Empty, steps[..|steps| - 1]), steps[|steps| - 1]);
    }
  }

  /** What was last said about reconnecting to `p`: registering asks for it, and a
      later word about a registered peer decides. */
  predicate WantsReconnect(steps: seq<Step>, p: PeerId) {
    if steps == [] then true
    else
      var front, last := steps[..|steps| - 1], steps[|steps| - 1];
      if last == Connect(p) && p !in Exec(Empty, front).connections then true
      else if last.SetReconnect? && last.peer == p then last.wants
      else WantsReconnect(front, p)
  }

  lemma WantStep(t: Table, step: Step, p: PeerId)
    requires p in Apply(t, step).connections
    ensures var wants := Apply(t, step).connections[p].shouldReconnect;
            if step == Connect(p) && p !in t.connections then wants
            else if step.SetReconnect? && step.peer == p then wants == step.wants
            else p in t.connections && wants == t.connections[p].shouldReconnect
  {
  }

  lemma {:induction false} ReconnectWanted(steps: seq<Step>, p: PeerId)
    requires p in Exec(Empty, steps).connections
    ensures Exec(Empty, steps).connections[p].shouldReconnect <==> WantsReconnect(steps, p)
  {
    if steps != [] {
      var front, last := steps[..|steps| - 1], steps[|steps| - 1];
      var t := Exec(Empty, front);
      WantStep(t, last, p);
      if p in t.connections { ReconnectWanted(front, p); }
    }
  }

  /** In every run, a control task whose connection was not dropped starts a reconnect loop
      if and only if reconnecting is switched on, the last word about its peer was not
      against it, and the node is not shutting down. */
  lemma ReconnectStartsExactly(steps: seq<Step>, r: Token, autoReconnect: bool)
    requires r in Exec(Empty, steps).controlReaders && r !in Exec(Empty, steps).cancelled
    ensures StartsReconnect(Exec(Empty, steps), r, autoReconnect) <==>
              autoReconnect && WantsReconnect(steps, r.peer) && CancelRoot !in steps
  {
    WatchedInEveryRun(steps);
    assert WatcherOk(Exec(Empty, steps), r);
    ReconnectWanted(steps, r.peer);
    RootCancelledExactly(steps);
  }

  lemma {:induction false} RootCancelledExactly(steps: seq<Step>)
    ensures Exec(Empty, steps).rootCancelled <==> CancelRoot in steps
  {
    if steps != [] {
      var front, last := steps[..|steps| - 1], steps[|steps| - 1];
      RootCancelledExactly(front);
      assert steps == front + [last];
      OnlyCancelRootCancels(Exec(Empty, front), last);
    }
  }

  lemma OnlyCancelRootCancels(t: Table, step: Step)
    ensures Apply(t, step).rootCancelled <==> t.rootCancelled || step == CancelRoot
  {
  }

  /** Once the node shuts down every token counts as cancelled, so no read task that
      leaves its loop from then on clears anything. */
  lemma NobodyClearsAfterCancelRoot(steps: seq<Step>, r: Token)
    requires CancelRoot in steps
    ensures IsCancelled(Exec(Empty, steps), r)
    ensures Apply(Exec(Empty, steps), DataChecks(r)).clearing == Exec(Empty, steps).clearing
  {
    RootCancelledExactly(steps);
  }

  /** After a shutdown nothing is registered, nothing can be sent to, and every control
      and data read task still in its loop has been told to stop. */
  lemma ShutdownStopsEverything(steps: seq<Step>, r: Token)
    requires PromptRun(Empty, steps)
    ensures var d := Exec(Empty, steps + [Shutdown]);
            && d.connections == map[] && Targets(d.connections, {}) == {}
            && (r in d.controlReaders + d.readers ==> r in d.cancelled)
  {
    ExecSnoc(Empty, steps, Shutdown);
    var d := Exec(Empty, steps + [Shutdown]);
    OwnedInEveryRun(steps);
    WatchedInEveryRun(steps + [Shutdown]);
    ShutdownKeeps(Exec(Empty, steps));
    if r in d.controlReaders { assert WatcherOk(d, r); }
    if r in d.readers { assert ReaderOk(d, r); }
  }
}
