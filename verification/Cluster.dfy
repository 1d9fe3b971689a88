/** A cluster of election modules joined by a network that may lose, duplicate
    and reorder messages: a sent message stays in the set and may be delivered
    never, once or many times, at any later point. */
module Cluster {
  import opened Types
  import opened ElectionRules
  import Rules = ElectionRules
  import N = NodeRuns

  datatype Message =
    | RequestVote(term: u64, candidateId: PeerId)
    | VoteResponse(term: u64, voterId: PeerId, granted: bool)
    | Heartbeat(term: u64, leaderId: PeerId)
    | LeaderAssign(term: u64, leaderId: PeerId, assignerId: PeerId)

  datatype Envelope = Envelope(src: PeerId, dst: PeerId, msg: Message)

  /** A tally that made `leader` Leader in `term`, with the votes it counted. */
  datatype Win = Win(leader: PeerId, term: u64, quorum: set<PeerId>)

  /** `armed` holds the nodes that have checked they lead and are about to read
      their term and send a heartbeat: the check and the read take the lock
      separately. `wins` is history: written by steps and read by none. */
  datatype Cluster = Cluster(
    nodes: map<PeerId, N.Trace>,
    network: set<Envelope>,
    armed: multiset<PeerId>,
    wins: set<Win>)

  /** `peers` is the count of connected peers the node sees at that moment. */
  datatype Step =
    | ElectionTimeout(node: PeerId, peers: nat)
    | Deliver(envelope: Envelope, peers: nat)
    | HeartbeatCheck(node: PeerId)
    | HeartbeatSend(node: PeerId)
    | ToggleAuto(node: PeerId, enable: bool)
    | AssignLeader(node: PeerId, leader: PeerId)
    | Departure(node: PeerId, peer: PeerId, recovery: Recovery)

  function Start(ids: set<PeerId>): (c: Cluster)
    ensures c.nodes.Keys == ids
  {
    Cluster(map i | i in ids :: N.Trace(Initial(true), [], {}), {}, multiset{}, {})
  }

  /** A broadcast: one copy for every other node. */
  function ToAll(ids: set<PeerId>, src: PeerId, msg: Message): set<Envelope> {
    set dst | dst in ids && dst != src :: Envelope(src, dst, msg)
  }

  /** The node a step happens at. */
  function NodeOf(step: Step): PeerId {
    if step.Deliver? then step.envelope.dst else step.node
  }

  function RecoveryOf(step: Step): Recovery {
    if step.Departure? then step.recovery else Hold
  }

  function EventFor(msg: Message, peers: nat): N.Event {
    match msg
    case RequestVote(term, candidateId) => N.RequestVote(term, candidateId)
    case VoteResponse(term, voterId, granted) => N.VoteResponse(term, voterId, granted, peers)
    case Heartbeat(term, leaderId) => N.Heartbeat(term, leaderId)
    case LeaderAssign(term, leaderId, _) => N.LeaderAssign(term, leaderId)
  }

  /** The call a step makes into the election module of its node, if it makes one. */
  function EventOf(step: Step): Option<N.Event> {
    match step
    case ElectionTimeout(_, peers) => Some(N.StartElection(peers))
    case Deliver(e, peers) => Some(EventFor(e.msg, peers))
    case HeartbeatCheck(_) => None
    case HeartbeatSend(_) => None
    case ToggleAuto(_, enable) => Some(N.EnableAutoElection(enable))
    case AssignLeader(_, leader) => Some(N.SetLeader(leader))
    case Departure(_, peer, _) => Some(N.PeerLeft(peer))
  }

  predicate Possible(c: Cluster, step: Step) {
    && NodeOf(step) in c.nodes
    && (step.Deliver? ==> step.envelope in c.network)
    && (step.HeartbeatSend? ==> step.node in c.armed)
  }

  /** The trace of the step's node afterwards. */
  function TraceAfter(c: Cluster, step: Step): N.Trace
    requires Possible(c, step)
  {
    var t := c.nodes[NodeOf(step)];
    match EventOf(step)
    case None => t
    case Some(e) => N.Next(NodeOf(step), RecoveryOf(step), t, e)
  }

  /** The messages the step sends. */
  function Sent(c: Cluster, step: Step): set<Envelope>
    requires Possible(c, step)
  {
    var i, all := NodeOf(step), c.nodes.Keys;
    var s := c.nodes[i].state;
    match step
    case ElectionTimeout(_, peers) =>
      var r := Rules.StartElection(i, s, peers).reply;
      if r.Some? then ToAll(all, i, RequestVote(r.value.term, r.value.candidateId)) else {}
    case Deliver(e, _) =>
      if e.msg.RequestVote? then
        var r := Rules.HandleRequestVote(s, e.msg.term, e.msg.candidateId).reply;
        {Envelope(i, e.src, VoteResponse(r.term, i, r.granted))}
      else {}
    case HeartbeatSend(_) => ToAll(all, i, Heartbeat(s.currentTerm, i))
    case AssignLeader(_, leader) =>
      var a := Rules.SetLeader(i, s, leader).reply;
      ToAll(all, i, LeaderAssign(a.term, a.leaderId, a.assignerId))
    case _ => {}
  }

  /** The tally the step completes, if any. */
  function WinsOf(c: Cluster, step: Step): set<Win>
    requires Possible(c, step)
  {
    var i := NodeOf(step);
    var s := c.nodes[i].state;
    match step
    case ElectionTimeout(_, peers) =>
      var h := Rules.StartElection(i, s, peers);
      if h.notices != [] then {Win(i, h.state.currentTerm, {i})} else {}
    case Deliver(e, peers) =>
      if e.msg.VoteResponse?
         && Rules.HandleVoteResponse(i, s, e.msg.term, e.msg.voterId, e.msg.granted, peers).reply then
        {Win(i, e.msg.term, s.votesReceived + if e.msg.granted then {e.msg.voterId} else {})}
      else {}
    case _ => {}
  }

  /** Winning a vote, a timeout at a leader and the heartbeat timer's check arm a
      node for a heartbeat; sending it disarms. */
  function ArmedAfter(c: Cluster, step: Step): multiset<PeerId>
    requires Possible(c, step)
  {
    var i := NodeOf(step);
    var s := c.nodes[i].state;
    match step
    case ElectionTimeout(_, peers) =>
      var h := Rules.StartElection(i, s, peers);
      if h.reply.None? && h.state.role == Leader then c.armed + multiset{i} else c.armed
    case Deliver(_, _) => if WinsOf(c, step) != {} then c.armed + multiset{i} else c.armed
    case HeartbeatCheck(_) => if s.role == Leader then c.armed + multiset{i} else c.armed
    case HeartbeatSend(_) => c.armed - multiset{i}
    case _ => c.armed
  }

  /** One step; a step that is not possible in `c` changes nothing. */
  function Apply(c: Cluster, step: Step): (d: Cluster)
    ensures d.nodes.Keys == c.nodes.Keys
  {
    if !Possible(c, step) then c
    else
      Cluster(c.nodes[NodeOf(step) := TraceAfter(c, step)], c.network + Sent(c, step),
              ArmedAfter(c, step), c.wins + WinsOf(c, step))
  }

  function Exec(c: Cluster, steps: seq<Step>): (d: Cluster)
    ensures d.nodes.Keys == c.nodes.Keys
  {
    if steps == [] then c else Apply(Exec(c, steps[..|steps| - 1]), steps[|steps| - 1])
  }

  lemma ExecSnoc(c: Cluster, steps: seq<Step>, step: Step)
    ensures Exec(c, steps + [step]) == Apply(Exec(c, steps), step)
  {
    assert (steps + [step])[..|steps|] == steps;
  }

  lemma {:induction false} ExecConcat(c: Cluster, a: seq<Step>, b: seq<Step>)
    ensures Exec(c, a + b) == Exec(Exec(c, a), b)
  {
    if b == [] {
      assert a + b == a;
    } else {
      var front := b[..|b| - 1];
      assert a + b == (a + front) + [b[|b| - 1]];
      ExecSnoc(c, a + front, b[|b| - 1]);
      ExecConcat(c, a, front);
    }
  }

  predicate Leads(c: Cluster, p: PeerId, term: u64) {
    p in c.nodes && c.nodes[p].state.role == Leader && c.nodes[p].state.currentTerm == term
  }
}
