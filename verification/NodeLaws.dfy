/** What each call into the election module means for its caller: when it is
    accepted, what the node is afterwards, and what it leaves alone. */
module NodeLaws {
  import opened Types
  import opened ElectionRules
  import Rules = ElectionRules
  import opened N = NodeRuns

  /** The two switches, which only manual calls may touch. */
  predicate SameSwitches(s: ElectionState, s1: ElectionState) {
    s1.autoElectionEnabled == s.autoElectionEnabled && s1.manualOverride == s.manualOverride
  }

  // --- elections -------------------------------------------------------------

  /** An election starts if and only if it may. It opens the next term with one's
      own vote, and one either stands and asks for votes, or is a quorum alone. */
  lemma ElectionStartsExactly(me: PeerId, s: ElectionState, peers: nat)
    ensures var h := Rules.StartElection(me, s, peers);
            && (h.state != s <==> CanStart(s))
            && (h.state == s ==> h.reply == None && h.notices == [])
            && SameSwitches(s, h.state)
            && (CanStart(s) ==>
                  && h.state.currentTerm == NextTerm(s.currentTerm) && h.state.votedFor == Some(me)
                  && (h.reply == Some(VoteRequest(h.state.currentTerm, me)) <==> peers >= 2)
                  && (peers >= 2 ==>
                        h.state.role == Candidate && h.state.votesReceived == {me} && h.state.leaderId == s.leaderId)
                  && (peers < 2 ==>
                        && h.reply == None && h.state.role == Leader
                        && h.state.votesReceived == {} && h.state.leaderId == Some(me)))
  {
  }

  /** A vote goes to the first node that asks for it in a term, whatever one's role;
      a later term ends any role, and the rest of the state stays as it is. */
  lemma VoteGoesToTheFirstAsker(s: ElectionState, term: u64, candidateId: PeerId)
    ensures var h := Rules.HandleRequestVote(s, term, candidateId);
            && (h.reply.granted <==>
                  || term > s.currentTerm
                  || (term == s.currentTerm && (s.votedFor == None || s.votedFor == Some(candidateId))))
            && h.state.currentTerm == (if term > s.currentTerm then term else s.currentTerm)
            && (if term > s.currentTerm then h.state.role == Follower && h.state.votesReceived == {}
                else h.state.role == s.role && h.state.votesReceived == s.votesReceived)
            && h.state.leaderId == s.leaderId && SameSwitches(s, h.state) && h.notices == []
  {
  }

  /** A response of a later term ends any role, one that does not count changes
      nothing, and one that counts leaves vote and followed leader alone unless it wins. */
  lemma ResponseEffects(me: PeerId, s: ElectionState, term: u64, voterId: PeerId, granted: bool, peers: nat)
    ensures var h := Rules.HandleVoteResponse(me, s, term, voterId, granted, peers);
            && SameSwitches(s, h.state)
            && (term > s.currentTerm ==>
                  && !h.reply && h.state.currentTerm == term && h.state.role == Follower
                  && h.state.votedFor == None && h.state.votesReceived == {} && h.state.leaderId == s.leaderId)
            && (term <= s.currentTerm && !Counts(s, term) ==> !h.reply && h.state == s)
            && (Counts(s, term) ==> h.state.votedFor == s.votedFor && h.state.currentTerm == term)
            && (Counts(s, term) ==> h.state.leaderId == if h.reply then Some(me) else s.leaderId)
  {
  }

  // --- heartbeats ------------------------------------------------------------

  /** A heartbeat is accepted unless it is of an older term, contradicts a manual
      assignment, or comes to a leader of the same term from no greater identifier. */
  lemma HeartbeatAcceptedUnless(me: PeerId, s: ElectionState, term: u64, leaderId: PeerId)
    ensures Rules.HandleHeartbeat(me, s, term, leaderId).reply <==>
              && term >= s.currentTerm
              && !(s.manualOverride && s.leaderId != None && s.leaderId != Some(leaderId))
              && !(s.role == Leader && term == s.currentTerm && !Less(me, leaderId))
  {
  }

  /** So whoever has no override, is in no later term and does not lead that very term
      follows the sender from then on; the vote is gone exactly if the term is later. */
  lemma HeartbeatIsFollowed(me: PeerId, s: ElectionState, term: u64, leaderId: PeerId)
    requires !s.manualOverride && term >= s.currentTerm && !(s.role == Leader && term == s.currentTerm)
    ensures var h := Rules.HandleHeartbeat(me, s, term, leaderId);
            && h.reply && h.state.role == Follower && h.state.leaderId == Some(leaderId) && h.state.currentTerm == term
            && h.state.votedFor == (if term > s.currentTerm then None else s.votedFor)
            && SameSwitches(s, h.state)
  {
  }

  // --- manual assignments ----------------------------------------------------

  /** An assignment received takes effect at once: the node follows the named leader,
      or leads if it is named, and no vote of this term is remembered. */
  lemma ReceivedAssignmentTakesEffect(me: PeerId, s: ElectionState, term: u64, leaderId: PeerId)
    ensures var s1 := Rules.HandleLeaderAssign(me, s, term, leaderId).state;
            && Assigned(s1, leaderId) && s1.role == (if leaderId == me then Leader else Follower)
            && s1.votedFor == None && s1.votesReceived == {} && s1.autoElectionEnabled == s.autoElectionEnabled
            && s1.currentTerm == if term > s.currentTerm then term else s.currentTerm
  {
  }

  /** So does one's own, in the next term, and what is to be broadcast names that
      term, the new leader and oneself as the assigner. */
  lemma OwnAssignmentTakesEffect(me: PeerId, s: ElectionState, leaderId: PeerId)
    ensures var h := Rules.SetLeader(me, s, leaderId);
            && Assigned(h.state, leaderId) && h.state.role == (if leaderId == me then Leader else Follower)
            && h.state.votedFor == None && h.state.votesReceived == {}
            && h.state.autoElectionEnabled == s.autoElectionEnabled
            && h.state.currentTerm == NextTerm(s.currentTerm)
            && h.reply.term == h.state.currentTerm && h.reply.leaderId == leaderId && h.reply.assignerId == me
  {
  }

  /** The toggle sets the switch, and lifts the override only when it enables
      elections at a node that follows nobody; nothing else moves. */
  lemma ToggleSetsTheSwitch(s: ElectionState, enable: bool)
    ensures var s1 := Rules.EnableAutoElection(s, enable).state;
            && s1.autoElectionEnabled == enable
            && (s1.manualOverride <==> s.manualOverride && !(enable && s.leaderId == None))
            && s1.(autoElectionEnabled := s.autoElectionEnabled, manualOverride := s.manualOverride) == s
  {
  }

  // --- departures ------------------------------------------------------------

  /** Only the departure of the followed leader matters. Then the node follows
      nobody, and an override survives exactly under Hold; nothing else moves. */
  lemma DepartureMattersExactly(recovery: Recovery, s: ElectionState, peer: PeerId)
    ensures var h := Rules.HandlePeerLeft(recovery, s, peer);
            && (h.state != s <==> s.leaderId == Some(peer))
            && (s.leaderId == Some(peer) ==>
                  && h.state.leaderId == None && h.notices == [None]
                  && (h.state.manualOverride <==> s.manualOverride && recovery == Hold)
                  && h.state.(leaderId := s.leaderId, manualOverride := s.manualOverride) == s)
  {
  }

  /** After an elected leader has left, elections are free again: whatever the
      strategy, the next start opens a term with the node's own vote. */
  lemma LossOfAnElectedLeaderReopensElections(me: PeerId, recovery: Recovery, t: Trace, leader: PeerId, peers: nat)
    requires RoleInvariant(me, t.state) && !t.state.manualOverride && t.state.autoElectionEnabled
    requires t.state.leaderId == Some(leader) && leader != me
    ensures var left := Next(me, recovery, t, PeerLeft(leader));
            var started := Next(me, recovery, left, N.StartElection(peers)).state;
            && left.state.leaderId == None && left.state.role == t.state.role
            && started.currentTerm == NextTerm(t.state.currentTerm) && started.votedFor == Some(me)
            && started.role == if peers < 2 then Leader else Candidate
  {
  }

  // --- what only some calls can do -------------------------------------------

  predicate Manual(e: Event) {
    e.LeaderAssign? || e.SetLeader?
  }

  /** Only starting an election or assigning a leader makes a new term; every other
      call stays in the node's term or takes the message's. */
  lemma TermIsOwnOrTaken(me: PeerId, recovery: Recovery, s: ElectionState, e: Event)
    requires !e.StartElection? && !e.SetLeader?
    ensures var term := React(me, recovery, s, e).state.currentTerm; term == s.currentTerm || term == TermOf(e)
  {
  }

  /** Only an assignment overrides elections. */
  lemma OnlyAssignmentsOverride(me: PeerId, recovery: Recovery, s: ElectionState, e: Event)
    requires !s.manualOverride
    ensures React(me, recovery, s, e).state.manualOverride <==> Manual(e)
  {
  }

  /** Only a departure or an assignment makes a node follow nobody it followed before. */
  lemma OnlyDepartureUnfollows(me: PeerId, recovery: Recovery, s: ElectionState, e: Event)
    requires s.leaderId != None
    ensures React(me, recovery, s, e).state.leaderId == None <==> e.PeerLeft? && s.leaderId == Some(e.peerId)
  {
  }

  /** A follower goes on following through everything of no later term except another
      leader's heartbeat, an election of its own, an assignment or the leader's departure. */
  lemma FollowerStays(me: PeerId, recovery: Recovery, s: ElectionState, e: Event, leader: PeerId)
    requires s.role == Follower && s.leaderId == Some(leader) && !s.manualOverride
    requires !e.StartElection? && !Manual(e) && e != PeerLeft(leader) && TermOf(e) <= s.currentTerm
    requires e.Heartbeat? && e.term == s.currentTerm ==> e.leaderId == leader
    ensures var s1 := React(me, recovery, s, e).state;
            s1.role == Follower && s1.leaderId == Some(leader) && s1.currentTerm == s.currentTerm
  {
  }

  // --- notices ---------------------------------------------------------------

  /** The call makes the node a leader by election. */
  predicate Wins(me: PeerId, recovery: Recovery, s: ElectionState, e: Event) {
    && ((e.StartElection? && CanStart(s)) || (e.VoteResponse? && s.role == Candidate))
    && React(me, recovery, s, e).state.role == Leader
  }

  /** Observers are told if and only if the followed leader changed or an election
      was won, once per call, and they are told whom the node now follows. */
  lemma NoticesExactly(me: PeerId, recovery: Recovery, s: ElectionState, e: Event)
    ensures var h := React(me, recovery, s, e);
            h.notices == if h.state.leaderId != s.leaderId || Wins(me, recovery, s, e) then [h.state.leaderId] else []
  {
  }

  // --- elections switched off ------------------------------------------------

  predicate SwitchesOn(s: ElectionState, e: Event) {
    e == EnableAutoElection(true)
  }

  lemma SwitchedOffStep(me: PeerId, recovery: Recovery, s: ElectionState, e: Event)
    requires !s.autoElectionEnabled && !SwitchesOn(s, e)
    ensures var s1 := React(me, recovery, s, e).state;
            && !s1.autoElectionEnabled
            && (s1.role == Candidate ==> s.role == Candidate && s1.currentTerm == s.currentTerm)
  {
  }

  /** Once elections are switched off, no run in which they are not switched on
      again opens an election: a node that stands stood before, in that very term. */
  lemma {:induction false} NoElectionWhileSwitchedOff(me: PeerId, recovery: Recovery, t: Trace, es: seq<Event>)
    requires !t.state.autoElectionEnabled && Avoids(me, recovery, t, es, SwitchesOn)
    ensures var s := Run(me, recovery, t, es).state;
            && !s.autoElectionEnabled
            && (s.role == Candidate ==> t.state.role == Candidate && s.currentTerm == t.state.currentTerm)
  {
    if es != [] {
      var front := es[..|es| - 1];
      NoElectionWhileSwitchedOff(me, recovery, t, front);
      SwitchedOffStep(me, recovery, Run(me, recovery, t, front).state, es[|es| - 1]);
    }
  }
}
