/** The election module as the mutable object it is: every method updates the
    guarded fields branch by branch and is proved to compute its rule. */
module LeaderElections {
  import opened Types
  import opened ElectionRules

  class LeaderElection {
    const localPeerId: PeerId
    const recovery: Recovery

    var role: Role
    var currentTerm: u64
    var votedFor: Option<PeerId>
    var votesReceived: set<PeerId>
    var leaderId: Option<PeerId>
    var autoElectionEnabled: bool
    var manualOverride: bool

    /** Every leader-change notice handed to the notification channel, oldest first. */
    var notices: seq<Option<PeerId>>

    function State(): ElectionState
      reads this
    {
      ElectionState(role, currentTerm, votedFor, votesReceived, leaderId, autoElectionEnabled, manualOverride)
    }

    /** The object moved from state `before` with notices `sent` to what `h` prescribes. */
    ghost predicate Did<R>(before: seq<Option<PeerId>>, h: Handled<R>)
      reads this
    {
      State() == h.state && notices == before + h.notices
    }

    constructor (localPeerId: PeerId, autoElectionEnabled: bool, recovery: Recovery)
      ensures this.localPeerId == localPeerId && this.recovery == recovery
      ensures State() == Initial(autoElectionEnabled) && notices == []
    {
      this.localPeerId, this.recovery := localPeerId, recovery;
      role, currentTerm, votedFor, votesReceived, leaderId := Follower, 0, None, {}, None;
      this.autoElectionEnabled, manualOverride := autoElectionEnabled, false;
      notices := [];
    }

    method StartElection(connectedPeers: nat) returns (r: Option<VoteRequest>)
      modifies this
      ensures var h := ElectionRules.StartElection(localPeerId, old(State()), connectedPeers);
              Did(old(notices), h) && r == h.reply
    {
      if !autoElectionEnabled || manualOverride { return None; }
      currentTerm := NextTerm(currentTerm);
      role := Candidate;
      votedFor := Some(localPeerId);
      votesReceived := {};
      votesReceived := votesReceived + {localPeerId};
      assert votesReceived == {localPeerId};
      if |votesReceived| >= MajorityThreshold(1 + connectedPeers) {
        BecomeLeaderInner();
        return None;
      }
      return Some(VoteRequest(currentTerm, localPeerId));
    }

    method HandleRequestVote(term: u64, candidateId: PeerId) returns (r: VoteReply)
      modifies this
      ensures var h := ElectionRules.HandleRequestVote(old(State()), term, candidateId);
              Did(old(notices), h) && r == h.reply
    {
      if term < currentTerm { return VoteReply(currentTerm, false); }
      if term > currentTerm { AdoptHigherTerm(term); }
      var granted := match votedFor
        case None => true
        case Some(voted) => voted == candidateId;
      if granted { votedFor := Some(candidateId); }
      return VoteReply(currentTerm, granted);
    }

    method HandleVoteResponse(term: u64, voterId: PeerId, granted: bool, connectedPeers: nat) returns (won: bool)
      modifies this
      ensures var h := ElectionRules.HandleVoteResponse(localPeerId, old(State()), term, voterId, granted,
                                                        connectedPeers);
              Did(old(notices), h) && won == h.reply
    {
      if term > currentTerm {
        AdoptHigherTerm(term);
        return false;
      }
      if role != Candidate || term != currentTerm { return false; }
      if granted { votesReceived := votesReceived + {voterId}; }
      if |votesReceived| >= MajorityThreshold(1 + connectedPeers) {
        BecomeLeaderInner();
        return true;
      }
      return false;
    }

    method HandleHeartbeat(term: u64, leaderId: PeerId) returns (accepted: bool)
      modifies this
      ensures var h := ElectionRules.HandleHeartbeat(localPeerId, old(State()), term, leaderId);
              Did(old(notices), h) && accepted == h.reply
    {
      if term < currentTerm { return false; }
      if manualOverride && this.leaderId.Some? && this.leaderId.value != leaderId { return false; }
      var higherTerm := term > currentTerm;
      if higherTerm { currentTerm, votedFor := term, None; }
      if role == Leader {
        if higherTerm || Less(localPeerId, leaderId) {
          StepDownInner();
        } else {
          return false;
        }
      }
      if role != Follower { role, votesReceived := Follower, {}; }
      var oldLeader := this.leaderId;
      this.leaderId := Some(leaderId);
      if oldLeader != Some(leaderId) { NotifyLeaderChange(Some(leaderId)); }
      return true;
    }

    method HandleLeaderAssign(term: u64, leaderId: PeerId)
      modifies this
      ensures Did(old(notices), ElectionRules.HandleLeaderAssign(localPeerId, old(State()), term, leaderId))
    {
      if term > currentTerm { currentTerm := term; }
      var oldLeader := this.leaderId;
      this.leaderId, manualOverride := Some(leaderId), true;
      role := if leaderId == localPeerId then Leader else Follower;
      votedFor, votesReceived := None, {};
      if oldLeader != Some(leaderId) { NotifyLeaderChange(Some(leaderId)); }
    }

    method SetLeader(leaderId: PeerId) returns (r: Assignment)
      modifies this
      ensures var h := ElectionRules.SetLeader(localPeerId, old(State()), leaderId);
              Did(old(notices), h) && r == h.reply
    {
      currentTerm, manualOverride := NextTerm(currentTerm), true;
      var oldLeader := this.leaderId;
      this.leaderId := Some(leaderId);
      role := if leaderId == localPeerId then Leader else Follower;
      votedFor, votesReceived := None, {};
      r := Assignment(currentTerm, leaderId, localPeerId);
      if oldLeader != Some(leaderId) { NotifyLeaderChange(Some(leaderId)); }
    }

    method EnableAutoElection(enable: bool)
      modifies this
      ensures Did(old(notices), ElectionRules.EnableAutoElection(old(State()), enable))
    {
      autoElectionEnabled := enable;
      if enable && leaderId.None? { manualOverride := false; }
    }

    method HandlePeerLeft(peerId: PeerId)
      modifies this
      ensures Did(old(notices), ElectionRules.HandlePeerLeft(recovery, old(State()), peerId))
    {
      if leaderId != Some(peerId) { return; }
      var wasManual := manualOverride;
      leaderId := None;
      if wasManual {
        match recovery
        case Hold =>
        case AutoElect => manualOverride := false;
      }
      NotifyLeaderChange(None);
    }

    method NotifyLeaderChange(leader: Option<PeerId>)
      modifies this`notices
      ensures notices == old(notices) + [leader]
    {
      notices := notices + [leader];
    }

    method AdoptHigherTerm(term: u64)
      modifies this
      ensures State() == AdoptTerm(old(State()), term) && notices == old(notices)
    {
      currentTerm, votedFor, role, votesReceived := term, None, Follower, {};
    }

    method BecomeLeaderInner()
      modifies this
      ensures State() == BecomeLeader(localPeerId, old(State())) && notices == old(notices) + [Some(localPeerId)]
    {
      role, leaderId, votesReceived := Leader, Some(localPeerId), {};
      NotifyLeaderChange(Some(localPeerId));
    }

    method StepDownInner()
      modifies this
      ensures State() == old(State()).(role := Follower, votesReceived := {}) && notices == old(notices)
    {
      role, votesReceived := Follower, {};
    }
  }
}
