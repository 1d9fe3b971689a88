/** How a node's message handler and timers drive its election module, and that
    what they do is exactly what the cluster's steps say. */
module NodeDriver {
  import opened Types
  import opened ElectionRules
  import Rules = ElectionRules
  import N = NodeRuns
  import opened Cluster
  import opened LeaderElections

  /** A packet handed to the transport. The reply to a heartbeat only refreshes a
      timestamp where it arrives, so it is no message of the cluster. */
  datatype Outgoing =
    | ToPeer(peer: PeerId, msg: Message)
    | Broadcast(msg: Message)
    | HeartbeatResponse(peer: PeerId, term: u64)

  /** What handling `msg` from `src` sends, when nothing else touches the node meanwhile. */
  function Replies(me: PeerId, s: ElectionState, src: PeerId, msg: Message, peers: nat): seq<Outgoing> {
    match msg
    case RequestVote(term, candidateId) =>
      var r := Rules.HandleRequestVote(s, term, candidateId).reply;
      [ToPeer(src, VoteResponse(r.term, me, r.granted))]
    case VoteResponse(term, voterId, granted) =>
      if Rules.HandleVoteResponse(me, s, term, voterId, granted, peers).reply then [Broadcast(Heartbeat(term, me))]
      else []
    case Heartbeat(term, _) => [HeartbeatResponse(src, term)]
    case LeaderAssign(_, _, _) => []
  }

  /** The election timer acts only on an enabled node that follows nobody. */
  predicate Due(s: ElectionState) {
    s.role != Leader && s.autoElectionEnabled && s.leaderId.None?
  }

  function TimerSends(me: PeerId, s: ElectionState, peers: nat): seq<Outgoing> {
    var h := Rules.StartElection(me, s, peers);
    if !Due(s) then []
    else if h.reply.Some? then [Broadcast(RequestVote(h.reply.value.term, h.reply.value.candidateId))]
    else if h.state.role == Leader then [Broadcast(Heartbeat(h.state.currentTerm, me))]
    else []
  }

  class Node {
    const election: LeaderElection
    var outbox: seq<Outgoing>

    constructor (election: LeaderElection)
      ensures this.election == election && outbox == []
    {
      this.election, outbox := election, [];
    }

    method HandleMessage(src: PeerId, msg: Message, connectedPeers: nat)
      modifies this, election
      ensures election.Did(old(election.notices),
                N.React(election.localPeerId, election.recovery, old(election.State()), EventFor(msg, connectedPeers)))
      ensures outbox == old(outbox) + Replies(election.localPeerId, old(election.State()), src, msg, connectedPeers)
      ensures msg.Heartbeat? ==> outbox == old(outbox) + [HeartbeatResponse(src, msg.term)]
    {
      match msg
      case Heartbeat(term, leaderId) =>
        var _ := election.HandleHeartbeat(term, leaderId);
        outbox := outbox + [HeartbeatResponse(src, term)];
      case RequestVote(term, candidateId) =>
        var r := election.HandleRequestVote(term, candidateId);
        outbox := outbox + [ToPeer(src, VoteResponse(r.term, election.localPeerId, r.granted))];
      case VoteResponse(term, voterId, granted) =>
        var becameLeader := election.HandleVoteResponse(term, voterId, granted, connectedPeers);
        if becameLeader {
          outbox := outbox + [Broadcast(Heartbeat(election.currentTerm, election.localPeerId))];
        }
      case LeaderAssign(term, leaderId, _) =>
        election.HandleLeaderAssign(term, leaderId);
    }

    /** A manual assignment and the broadcast that announces it. */
    method SetLeader(leaderId: PeerId)
      modifies this, election
      ensures election.Did(old(election.notices),
                Rules.SetLeader(election.localPeerId, old(election.State()), leaderId))
      ensures outbox == old(outbox) + [Broadcast(LeaderAssign(election.currentTerm, leaderId, election.localPeerId))]
    {
      var a := election.SetLeader(leaderId);
      outbox := outbox + [Broadcast(LeaderAssign(a.term, a.leaderId, a.assignerId))];
    }

    method HeartbeatTick()
      modifies this
      ensures outbox == old(outbox) +
                if election.role == Leader then [Broadcast(Heartbeat(election.currentTerm, election.localPeerId))]
                else []
    {
      if election.role != Leader { return; }
      outbox := outbox + [Broadcast(Heartbeat(election.currentTerm, election.localPeerId))];
    }

    method ElectionTick(connectedPeers: nat)
      modifies this, election
      ensures old(election.role) == Leader || !old(election.autoElectionEnabled) || old(election.leaderId) != None ==>
                election.State() == old(election.State()) && election.notices == old(election.notices)
                && outbox == old(outbox)
      ensures old(election.role) != Leader && old(election.autoElectionEnabled) && old(election.leaderId) == None ==>
                election.Did(old(election.notices),
                  Rules.StartElection(election.localPeerId, old(election.State()), connectedPeers))
      ensures outbox == old(outbox) + TimerSends(election.localPeerId, old(election.State()), connectedPeers)
    {
      if election.role == Leader || !election.autoElectionEnabled || election.leaderId.Some? { return; }
      var request := election.StartElection(connectedPeers);
      if request.Some? {
        outbox := outbox + [Broadcast(RequestVote(request.value.term, request.value.candidateId))];
      } else if election.role == Leader {
        outbox := outbox + [Broadcast(Heartbeat(election.currentTerm, election.localPeerId))];
      }
    }
  }

  // --- the same, seen from the cluster ---------------------------------------

  function Envelopes(c: Cluster, src: PeerId, out: seq<Outgoing>): set<Envelope> {
    if out == [] then {}
    else (match out[0]
          case ToPeer(peer, msg) => {Envelope(src, peer, msg)}
          case Broadcast(msg) => ToAll(c.nodes.Keys, src, msg)
          case HeartbeatResponse(_, _) => {}) + Envelopes(c, src, out[1..])
  }

  lemma TwoSteps(c: Cluster, a: Step, b: Step)
    ensures Exec(c, [a, b]) == Apply(Apply(c, a), b)
  {
    ExecSnoc(c, [], a);
    ExecSnoc(c, [a], b);
    assert [] + [a] == [a] && [a] + [b] == [a, b];
  }

  /** An armed node sends its heartbeat to everybody; an unarmed one sends nothing. */
  lemma OwedHeartbeat(c: Cluster, i: PeerId)
    requires i in c.nodes
    ensures var d := Apply(c, HeartbeatSend(i));
            && d.nodes == c.nodes && d.armed == c.armed - multiset{i}
            && d.network == c.network +
                 (if i in c.armed then ToAll(c.nodes.Keys, i, Heartbeat(c.nodes[i].state.currentTerm, i)) else {})
  {
    assert c.nodes[i := c.nodes[i]] == c.nodes;
    if i !in c.armed {
      assert c.armed - multiset{i} == c.armed;
      assert c.network + {} == c.network;
    }
  }

  /** The messages a delivery itself adds, and whether it leaves a heartbeat owed. */
  lemma DeliveryShape(c: Cluster, e: Envelope, peers: nat)
    requires e in c.network && e.dst in c.nodes
    ensures var d, s := Apply(c, Deliver(e, peers)), c.nodes[e.dst].state;
            && d.nodes[e.dst] == N.Next(e.dst, Hold, c.nodes[e.dst], EventFor(e.msg, peers))
            && Leaves(c, d, e, Replies(e.dst, s, e.src, e.msg, peers))
  {
    if e.msg.RequestVote? {
      var r := Rules.HandleRequestVote(c.nodes[e.dst].state, e.msg.term, e.msg.candidateId).reply;
      EnvelopesOfOne(c, e.dst, e.src, VoteResponse(r.term, e.dst, r.granted));
    }
  }

  /** `d` has the replies of `c` to `e` under way: vote responses sent, heartbeats owed. */
  predicate Leaves(c: Cluster, d: Cluster, e: Envelope, replies: seq<Outgoing>) {
    if e.msg.RequestVote? then
      d.armed == c.armed && d.network == c.network + Envelopes(c, e.dst, replies)
    else
      && d.network == c.network
      && d.armed == if e.msg.VoteResponse? && replies != [] then c.armed + multiset{e.dst} else c.armed
  }

  lemma WinnerKeepsTerm(me: PeerId, s: ElectionState, msg: Message, src: PeerId, peers: nat)
    requires msg.VoteResponse? && Replies(me, s, src, msg, peers) != []
    ensures N.React(me, Hold, s, EventFor(msg, peers)).state.currentTerm == msg.term
  {
  }

  lemma EnvelopesOfOne(c: Cluster, src: PeerId, peer: PeerId, msg: Message)
    ensures Envelopes(c, src, [ToPeer(peer, msg)]) == {Envelope(src, peer, msg)}
    ensures Envelopes(c, src, [Broadcast(msg)]) == ToAll(c.nodes.Keys, src, msg)
    ensures Envelopes(c, src, [HeartbeatResponse(peer, msg.term)]) == {}
  {
    assert [ToPeer(peer, msg)][1..] == [] && [Broadcast(msg)][1..] == [];
    assert [HeartbeatResponse(peer, msg.term)][1..] == [];
  }

  /** Handling a message without interruption is its delivery and, if the node
      became leader by it, the heartbeat it then owes. */
  lemma HandlingIsDelivery(c: Cluster, e: Envelope, peers: nat)
    requires e in c.network && e.dst in c.nodes && e.dst !in c.armed
    ensures var d := Exec(c, [Deliver(e, peers), HeartbeatSend(e.dst)]);
            && d.nodes[e.dst] == N.Next(e.dst, Hold, c.nodes[e.dst], EventFor(e.msg, peers))
            && d.network == c.network + Envelopes(c, e.dst, Replies(e.dst, c.nodes[e.dst].state, e.src, e.msg, peers))
            && d.armed == c.armed
  {
    var c1 := Apply(c, Deliver(e, peers));
    var replies := Replies(e.dst, c.nodes[e.dst].state, e.src, e.msg, peers);
    DeliveryShape(c, e, peers);
    TwoSteps(c, Deliver(e, peers), HeartbeatSend(e.dst));
    OwedHeartbeat(c1, e.dst);
    Settle(c, c1, e, peers, replies);
  }

  lemma Settle(c: Cluster, c1: Cluster, e: Envelope, peers: nat, replies: seq<Outgoing>)
    requires e.dst in c.nodes && e.dst !in c.armed && c1.nodes.Keys == c.nodes.Keys
    requires replies == Replies(e.dst, c.nodes[e.dst].state, e.src, e.msg, peers)
    requires c1.nodes[e.dst] == N.Next(e.dst, Hold, c.nodes[e.dst], EventFor(e.msg, peers))
    requires Leaves(c, c1, e, replies)
    ensures c1.armed - multiset{e.dst} == c.armed
    ensures var beat := Heartbeat(c1.nodes[e.dst].state.currentTerm, e.dst);
            c1.network + (if e.dst in c1.armed then ToAll(c1.nodes.Keys, e.dst, beat) else {})
            == c.network + Envelopes(c, e.dst, replies)
  {
    if e.msg.VoteResponse? && replies != [] {
      WinnerKeepsTerm(e.dst, c.nodes[e.dst].state, e.msg, e.src, peers);
      EnvelopesOfOne(c, e.dst, e.dst, Heartbeat(e.msg.term, e.dst));
    }
    if e.msg.Heartbeat? { EnvelopesOfOne(c, e.dst, e.src, e.msg); }
  }

  /** A due election timer is a timeout step followed by the heartbeat it may owe. */
  lemma TimerIsTimeout(c: Cluster, i: PeerId, peers: nat)
    requires i in c.nodes && i !in c.armed && Due(c.nodes[i].state)
    ensures var d := Exec(c, [ElectionTimeout(i, peers), HeartbeatSend(i)]);
            && d.nodes[i] == N.Next(i, Hold, c.nodes[i], N.StartElection(peers))
            && d.network == c.network + Envelopes(c, i, TimerSends(i, c.nodes[i].state, peers))
            && d.armed == c.armed
  {
    TwoSteps(c, ElectionTimeout(i, peers), HeartbeatSend(i));
    var c1 := Apply(c, ElectionTimeout(i, peers));
    TimeoutShape(c, i, peers);
    OwedHeartbeat(c1, i);
    EnvelopesOfOne(c, i, i, Heartbeat(c1.nodes[i].state.currentTerm, i));
  }

  lemma TimeoutTrace(c: Cluster, i: PeerId, peers: nat)
    requires i in c.nodes
    ensures Apply(c, ElectionTimeout(i, peers)).nodes[i] == N.Next(i, Hold, c.nodes[i], N.StartElection(peers))
  {
  }

  function RequestOf(r: Option<VoteRequest>): seq<Outgoing> {
    if r.Some? then [Broadcast(RequestVote(r.value.term, r.value.candidateId))] else []
  }

  lemma TimeoutMessages(c: Cluster, i: PeerId, peers: nat)
    requires i in c.nodes && Due(c.nodes[i].state)
    ensures var step, r := ElectionTimeout(i, peers), Rules.StartElection(i, c.nodes[i].state, peers).reply;
            Sent(c, step) == Envelopes(c, i, RequestOf(r))
  {
    var r := Rules.StartElection(i, c.nodes[i].state, peers).reply;
    if r.Some? { EnvelopesOfOne(c, i, i, RequestVote(r.value.term, r.value.candidateId)); }
  }

  /** A due timer's sends are the request of a candidacy, or the heartbeat of a win. */
  lemma TimerSendsShape(me: PeerId, s: ElectionState, peers: nat)
    requires Due(s)
    ensures var h := Rules.StartElection(me, s, peers);
            && (h.state.role == Leader ==>
                  h.reply.None? && TimerSends(me, s, peers) == [Broadcast(Heartbeat(h.state.currentTerm, me))])
            && (h.state.role != Leader ==> TimerSends(me, s, peers) == RequestOf(h.reply))
  {
  }

  lemma TimeoutArms(c: Cluster, i: PeerId, peers: nat)
    requires i in c.nodes
    ensures var h := Rules.StartElection(i, c.nodes[i].state, peers);
            ArmedAfter(c, ElectionTimeout(i, peers)) ==
              if h.reply.None? && h.state.role == Leader then c.armed + multiset{i} else c.armed
  {
  }

  lemma TimeoutShape(c: Cluster, i: PeerId, peers: nat)
    requires i in c.nodes && Due(c.nodes[i].state)
    ensures var d, s := Apply(c, ElectionTimeout(i, peers)), c.nodes[i].state;
            && d.nodes[i] == N.Next(i, Hold, c.nodes[i], N.StartElection(peers))
            && (if d.nodes[i].state.role == Leader then
                  && d.network == c.network && d.armed == c.armed + multiset{i}
                  && TimerSends(i, s, peers) == [Broadcast(Heartbeat(d.nodes[i].state.currentTerm, i))]
                else
                  d.network == c.network + Envelopes(c, i, TimerSends(i, s, peers)) && d.armed == c.armed)
  {
    TimeoutTrace(c, i, peers);
    TimeoutMessages(c, i, peers);
    TimerSendsShape(i, c.nodes[i].state, peers);
    TimeoutArms(c, i, peers);
    assert c.network + {} == c.network;
  }
}
