/** What every operation of the election module computes, as functions of the
    guarded state. The class `LeaderElection` is proved against these. */
module ElectionRules {
  import opened Types

  datatype Role = Follower | Candidate | Leader

  datatype Recovery = Hold | AutoElect

  datatype ElectionState = ElectionState(
    role: Role,
    currentTerm: u64,
    votedFor: Option<PeerId>,
    votesReceived: set<PeerId>,
    leaderId: Option<PeerId>,
    autoElectionEnabled: bool,
    manualOverride: bool)

  /** State after an operation, its reply, and the leader-change notices it attempts to send. */
  datatype Handled<+R> = Handled(state: ElectionState, reply: R, notices: seq<Option<PeerId>>)

  datatype VoteRequest = VoteRequest(term: u64, candidateId: PeerId)
  datatype VoteReply = VoteReply(term: u64, granted: bool)
  datatype Assignment = Assignment(term: u64, leaderId: PeerId, assignerId: PeerId)

  function Initial(autoElectionEnabled: bool): ElectionState {
    ElectionState(Follower, 0, None, {}, None, autoElectionEnabled, false)
  }

  function MajorityThreshold(totalNodes: nat): nat {
    if totalNodes <= 2 then 1 else totalNodes / 2 + 1
  }

  /** `current_term += 1` on a `u64`: release builds wrap around, debug builds panic at the maximum. */
  function NextTerm(term: u64): u64 {
    if term == U64_MAX then 0 else term + 1
  }

  function BecomeLeader(me: PeerId, s: ElectionState): ElectionState {
    s.(role := Leader, leaderId := Some(me), votesReceived := {})
  }

  /** Adopt a term seen in a message: forget the vote and fall back to Follower. */
  function AdoptTerm(s: ElectionState, term: u64): ElectionState {
    s.(currentTerm := term, votedFor := None, role := Follower, votesReceived := {})
  }

  function LeaderNotice(before: Option<PeerId>, now: PeerId): seq<Option<PeerId>> {
    if before == Some(now) then [] else [Some(now)]
  }

  function StartElection(me: PeerId, s: ElectionState, connectedPeers: nat): Handled<Option<VoteRequest>> {
    if !s.autoElectionEnabled || s.manualOverride then
      Handled(s, None, [])
    else
      var candidacy := s.(currentTerm := NextTerm(s.currentTerm), role := Candidate,
                          votedFor := Some(me), votesReceived := {me});
      if |candidacy.votesReceived| >= MajorityThreshold(1 + connectedPeers) then
        Handled(BecomeLeader(me, candidacy), None, [Some(me)])
      else
        Handled(candidacy, Some(VoteRequest(candidacy.currentTerm, me)), [])
  }

  function HandleRequestVote(s: ElectionState, term: u64, candidateId: PeerId): Handled<VoteReply> {
    if term < s.currentTerm then
      Handled(s, VoteReply(s.currentTerm, false), [])
    else
      var s1 := if term > s.currentTerm then AdoptTerm(s, term) else s;
      var granted := s1.votedFor.None? || s1.votedFor == Some(candidateId);
      Handled(if granted then s1.(votedFor := Some(candidateId)) else s1, VoteReply(s1.currentTerm, granted), [])
  }

  function HandleVoteResponse(me: PeerId, s: ElectionState, term: u64, voterId: PeerId, granted: bool,
                              connectedPeers: nat): Handled<bool>
  {
    if term > s.currentTerm then
      Handled(AdoptTerm(s, term), false, [])
    else if s.role != Candidate || term != s.currentTerm then
      Handled(s, false, [])
    else
      var tallied := if granted then s.(votesReceived := s.votesReceived + {voterId}) else s;
      if |tallied.votesReceived| >= MajorityThreshold(1 + connectedPeers) then
        Handled(BecomeLeader(me, tallied), true, [Some(me)])
      else
        Handled(tallied, false, [])
  }

  function HandleHeartbeat(me: PeerId, s: ElectionState, term: u64, leaderId: PeerId): Handled<bool> {
    if term < s.currentTerm then
      Handled(s, false, [])
    else if s.manualOverride && s.leaderId.Some? && s.leaderId.value != leaderId then
      Handled(s, false, [])
    else if term == s.currentTerm && s.role == Leader && !Less(me, leaderId) then
      Handled(s, false, [])
    else
      var s1 := if term > s.currentTerm then s.(currentTerm := term, votedFor := None) else s;
      var s2 := if s1.role != Follower then s1.(role := Follower, votesReceived := {}) else s1;
      Handled(s2.(leaderId := Some(leaderId)), true, LeaderNotice(s.leaderId, leaderId))
  }

  /** The part shared by a local and a received assignment, once the term is settled. */
  function Assign(me: PeerId, s: ElectionState, leaderId: PeerId): ElectionState {
    s.(leaderId := Some(leaderId), manualOverride := true,
       role := if leaderId == me then Leader else Follower, votedFor := None, votesReceived := {})
  }

  function HandleLeaderAssign(me: PeerId, s: ElectionState, term: u64, leaderId: PeerId): Handled<()> {
    var s1 := if term > s.currentTerm then s.(currentTerm := term) else s;
    Handled(Assign(me, s1, leaderId), (), LeaderNotice(s.leaderId, leaderId))
  }

  function SetLeader(me: PeerId, s: ElectionState, leaderId: PeerId): Handled<Assignment> {
    var s1 := s.(currentTerm := NextTerm(s.currentTerm));
    Handled(Assign(me, s1, leaderId), Assignment(s1.currentTerm, leaderId, me), LeaderNotice(s.leaderId, leaderId))
  }

  function EnableAutoElection(s: ElectionState, enable: bool): Handled<()> {
    Handled(s.(autoElectionEnabled := enable,
               manualOverride := if enable && s.leaderId.None? then false else s.manualOverride), (), [])
  }

  function HandlePeerLeft(recovery: Recovery, s: ElectionState, peerId: PeerId): Handled<()> {
    if s.leaderId != Some(peerId) then
      Handled(s, (), [])
    else
      var override := s.manualOverride && recovery == Hold;
      Handled(s.(leaderId := None, manualOverride := override), (), [None])
  }

  /** The threshold is a strict majority of the counted nodes except for exactly two
      nodes, and never more than the least majority. */
  lemma ThresholdIsMajority(totalNodes: nat)
    ensures 2 * MajorityThreshold(totalNodes) > totalNodes <==> totalNodes != 2
    ensures 2 * (MajorityThreshold(totalNodes) - 1) <= totalNodes && MajorityThreshold(totalNodes) >= 1
  {
  }
}
