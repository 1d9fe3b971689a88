/** Runs of one node under arbitrary calls, in any order and with any arguments. */
module NodeRuns {
  import opened Types
  import Rules = ElectionRules
  import opened ElectionRules

  /** One call into the election module. */
  datatype Event =
    | StartElection(peers: nat)
    | RequestVote(term: u64, candidateId: PeerId)
    | VoteResponse(term: u64, voterId: PeerId, granted: bool, peers: nat)
    | Heartbeat(term: u64, leaderId: PeerId)
    | LeaderAssign(term: u64, leaderId: PeerId)
    | SetLeader(leaderId: PeerId)
    | EnableAutoElection(enable: bool)
    | PeerLeft(peerId: PeerId)

  /** A vote this node gave in `term`: by granting a request or by its own candidacy. */
  datatype Ballot = Ballot(term: u64, candidate: PeerId)

  /** A node's state with everything it has notified and every vote it has given. */
  datatype Trace = Trace(state: ElectionState, notices: seq<Option<PeerId>>, ballots: set<Ballot>)

  function After<R>(h: Handled<R>): Handled<()> {
    Handled(h.state, (), h.notices)
  }

  function React(me: PeerId, recovery: Recovery, s: ElectionState, e: Event): Handled<()> {
    match e
    case StartElection(peers) => After(Rules.StartElection(me, s, peers))
    case RequestVote(term, candidateId) => After(Rules.HandleRequestVote(s, term, candidateId))
    case VoteResponse(term, voterId, granted, peers) =>
      After(Rules.HandleVoteResponse(me, s, term, voterId, granted, peers))
    case Heartbeat(term, leaderId) => After(Rules.HandleHeartbeat(me, s, term, leaderId))
    case LeaderAssign(term, leaderId) => Rules.HandleLeaderAssign(me, s, term, leaderId)
    case SetLeader(leaderId) => After(Rules.SetLeader(me, s, leaderId))
    case EnableAutoElection(enable) => Rules.EnableAutoElection(s, enable)
    case PeerLeft(peerId) => Rules.HandlePeerLeft(recovery, s, peerId)
  }

  predicate CanStart(s: ElectionState) {
    s.autoElectionEnabled && !s.manualOverride
  }

  function BallotsCast(me: PeerId, s: ElectionState, e: Event): set<Ballot> {
    match e
    case StartElection(_) => if CanStart(s) then {Ballot(NextTerm(s.currentTerm), me)} else {}
    case RequestVote(term, candidateId) =>
      var r := Rules.HandleRequestVote(s, term, candidateId).reply;
      if r.granted then {Ballot(r.term, candidateId)} else {}
    case _ => {}
  }

  function Next(me: PeerId, recovery: Recovery, t: Trace, e: Event): Trace {
    var h := React(me, recovery, t.state, e);
    Trace(h.state, t.notices + h.notices, t.ballots + BallotsCast(me, t.state, e))
  }

  function Run(me: PeerId, recovery: Recovery, t: Trace, es: seq<Event>): Trace {
    if es == [] then t
    else Next(me, recovery, Run(me, recovery, t, es[..|es| - 1]), es[|es| - 1])
  }

  /** No step of the run is one that `bad` describes. */
  ghost predicate Avoids(me: PeerId, recovery: Recovery, t: Trace, es: seq<Event>,
                         bad: (ElectionState, Event) -> bool)
  {
    es != [] ==>
      var front := es[..|es| - 1];
      Avoids(me, recovery, t, front, bad) && !bad(Run(me, recovery, t, front).state, es[|es| - 1])
  }

  /** The call increments a term that is already the largest `u64`. */
  predicate Overflows(s: ElectionState, e: Event) {
    s.currentTerm == U64_MAX && (e.SetLeader? || (e.StartElection? && CanStart(s)))
  }

  /** A received assignment of a term the node is already in (or past). */
  predicate Forgets(s: ElectionState, e: Event) {
    e.LeaderAssign? && e.term <= s.currentTerm
  }

  // --- roles -----------------------------------------------------------------

  predicate RoleInvariant(me: PeerId, s: ElectionState) {
    && (s.role == Candidate <==> me in s.votesReceived)
    && (s.role != Candidate ==> s.votesReceived == {})
    && (s.role == Candidate ==> s.votedFor == Some(me) && !s.manualOverride)
    && (s.role == Leader ==> s.leaderId == Some(me))
  }

  /** Every call keeps the role invariant, whatever its arguments, save one: the
      local node reported as having left while it leads. */
  lemma RoleStep(me: PeerId, recovery: Recovery, s: ElectionState, e: Event)
    requires RoleInvariant(me, s)
    ensures RoleInvariant(me, React(me, recovery, s, e).state) <==> !(e == PeerLeft(me) && s.role == Leader)
  {
  }

  lemma {:induction false} RolesInEveryRun(me: PeerId, recovery: Recovery, t: Trace, es: seq<Event>)
    requires RoleInvariant(me, t.state)
    requires PeerLeft(me) !in es
    ensures RoleInvariant(me, Run(me, recovery, t, es).state)
  {
    if es != [] {
      RolesInEveryRun(me, recovery, t, es[..|es| - 1]);
      RoleStep(me, recovery, Run(me, recovery, t, es[..|es| - 1]).state, es[|es| - 1]);
    }
  }

  // --- terms and votes -------------------------------------------------------

  /** A term drops only by wrapping around, and then it always does. */
  lemma TermStep(me: PeerId, recovery: Recovery, s: ElectionState, e: Event)
    ensures React(me, recovery, s, e).state.currentTerm < s.currentTerm <==> Overflows(s, e)
  {
  }

  /** The term an event carries, if it carries one. */
  function TermOf(e: Event): u64 {
    match e
    case RequestVote(term, _) => term
    case VoteResponse(term, _, _, _) => term
    case Heartbeat(term, _) => term
    case LeaderAssign(term, _) => term
    case _ => 0
  }

  lemma TermBound(me: PeerId, recovery: Recovery, s: ElectionState, e: Event, bound: nat)
    requires s.currentTerm <= bound && TermOf(e) <= bound
    ensures React(me, recovery, s, e).state.currentTerm <= bound + 1
  {
  }

  lemma {:induction false} TermsNeverDecrease(me: PeerId, recovery: Recovery, t: Trace, es: seq<Event>, i: nat)
    requires i <= |es|
    requires Avoids(me, recovery, t, es, Overflows)
    ensures Run(me, recovery, t, es[..i]).state.currentTerm <= Run(me, recovery, t, es).state.currentTerm
  {
    if i < |es| {
      var front := es[..|es| - 1];
      assert front[..i] == es[..i];
      TermsNeverDecrease(me, recovery, t, front, i);
      TermStep(me, recovery, Run(me, recovery, t, front).state, es[|es| - 1]);
    } else {
      assert es[..i] == es;
    }
  }

  ghost predicate OnePerTerm(ballots: set<Ballot>) {
    forall b, c | b in ballots && c in ballots && b.term == c.term :: b.candidate == c.candidate
  }

  /** The current vote is the one on record, and nothing is recorded for later terms. */
  ghost predicate BallotsAgree(t: Trace) {
    && OnePerTerm(t.ballots)
    && forall b | b in t.ballots ::
         b.term <= t.state.currentTerm && (b.term == t.state.currentTerm ==> t.state.votedFor == Some(b.candidate))
  }

  lemma BallotStep(me: PeerId, recovery: Recovery, t: Trace, e: Event)
    requires BallotsAgree(t)
    requires !Overflows(t.state, e) && !Forgets(t.state, e)
    ensures BallotsAgree(Next(me, recovery, t, e))
  {
    TermStep(me, recovery, t.state, e);
  }

  lemma {:induction false} BallotsAgreeInEveryRun(me: PeerId, recovery: Recovery, t: Trace, es: seq<Event>)
    requires BallotsAgree(t)
    requires Avoids(me, recovery, t, es, Overflows) && Avoids(me, recovery, t, es, Forgets)
    ensures BallotsAgree(Run(me, recovery, t, es))
  {
    if es != [] {
      BallotsAgreeInEveryRun(me, recovery, t, es[..|es| - 1]);
      BallotStep(me, recovery, Run(me, recovery, t, es[..|es| - 1]), es[|es| - 1]);
    }
  }

  /** From any state on, a node votes for at most one candidate per term, itself
      included, as long as no assignment of a term already reached arrives. */
  lemma VotesOncePerTerm(me: PeerId, recovery: Recovery, s: ElectionState, es: seq<Event>)
    requires Avoids(me, recovery, Trace(s, [], {}), es, Overflows)
    requires Avoids(me, recovery, Trace(s, [], {}), es, Forgets)
    ensures OnePerTerm(Run(me, recovery, Trace(s, [], {}), es).ballots)
  {
    BallotsAgreeInEveryRun(me, recovery, Trace(s, [], {}), es);
  }

  /** That condition is exact: after any other call a rival of the same term is
      refused, after such an assignment every rival of the same term is granted. */
  lemma VoteForgottenExactly(me: PeerId, recovery: Recovery, s: ElectionState, e: Event, chosen: PeerId, rival: PeerId)
    requires s.votedFor == Some(chosen) && rival != chosen
    requires !Overflows(s, e)
    ensures var s1 := React(me, recovery, s, e).state;
            (s1.currentTerm == s.currentTerm && Rules.HandleRequestVote(s1, s.currentTerm, rival).reply.granted)
              <==> Forgets(s, e)
  {
  }

  /** The reply to a request is true to the state: the vote is granted exactly if
      the node is then in the candidate's term with its vote on that candidate. */
  lemma VoteGrantedExactly(s: ElectionState, term: u64, candidateId: PeerId)
    ensures var h := Rules.HandleRequestVote(s, term, candidateId);
            && h.reply.term == h.state.currentTerm >= s.currentTerm
            && (h.reply.granted <==> h.state.currentTerm == term && h.state.votedFor == Some(candidateId))
            && (!h.reply.granted && term <= s.currentTerm ==> h.state == s)
  {
  }

  /** A heartbeat is accepted exactly if the node is then a Follower of its sender
      in its term; a rejected one leaves no trace. */
  lemma HeartbeatAcceptedExactly(me: PeerId, s: ElectionState, term: u64, leaderId: PeerId)
    ensures var h := Rules.HandleHeartbeat(me, s, term, leaderId);
            && (h.reply <==>
                  h.state.role == Follower && h.state.currentTerm == term && h.state.leaderId == Some(leaderId))
            && (!h.reply ==> h.state == s && h.notices == [])
            && (h.reply && term == s.currentTerm ==> h.state.votedFor == s.votedFor)
  {
  }

  /** Requests, heartbeats, toggles and departures neither add a received vote
      nor make a Leader; whoever is still tallying or leading kept its term. */
  lemma QuietStep(me: PeerId, recovery: Recovery, s: ElectionState, e: Event)
    requires RoleInvariant(me, s)
    requires e.RequestVote? || e.Heartbeat? || e.EnableAutoElection? || e.PeerLeft?
    ensures var s1 := React(me, recovery, s, e).state;
            && s1.votesReceived <= s.votesReceived
            && (s1.votesReceived != {} ==> s1.currentTerm == s.currentTerm)
            && (s1.role == Leader ==> s.role == Leader && s1.currentTerm == s.currentTerm)
  {
  }

  /** A heartbeat of the node's own term that names a greater identifier, while nothing overrides it. */
  predicate Outranks(me: PeerId, s: ElectionState, e: Event) {
    e.Heartbeat? && e.term == s.currentTerm && Less(me, e.leaderId) && !s.manualOverride
  }

  /** Without assignments a leader keeps its role, or goes on to a later term,
      exactly if the call is no such heartbeat. */
  lemma LeaderStays(me: PeerId, recovery: Recovery, s: ElectionState, e: Event)
    requires RoleInvariant(me, s)
    requires s.role == Leader && !Overflows(s, e) && !e.LeaderAssign? && !e.SetLeader?
    ensures var s1 := React(me, recovery, s, e).state;
            (s1.currentTerm > s.currentTerm || (s1.currentTerm == s.currentTerm && s1.role == Leader))
              <==> !Outranks(me, s, e)
  {
    LessIrreflexive(me);
  }

  /** Where a followed leader comes from when nothing is assigned by hand. */
  lemma FollowedLeader(me: PeerId, recovery: Recovery, s: ElectionState, e: Event)
    requires !e.LeaderAssign? && !e.SetLeader? && !Overflows(s, e)
    ensures var s1 := React(me, recovery, s, e).state;
            s1.leaderId.Some? ==>
              || (s1.leaderId == s.leaderId && s1.currentTerm >= s.currentTerm)
              || (e.Heartbeat? && s1.leaderId == Some(e.leaderId) && e.term == s1.currentTerm)
              || (s1.leaderId == Some(me) && s1.role == Leader)
  {
  }

  predicate Counts(s: ElectionState, term: u64) {
    s.role == Candidate && term == s.currentTerm
  }

  /** A response that counts either completes the quorum or joins the tally; any
      other response adds no vote and makes no Leader. */
  lemma ResponseStep(me: PeerId, s: ElectionState, term: u64, voterId: PeerId, granted: bool, peers: nat)
    requires RoleInvariant(me, s)
    ensures var h := Rules.HandleVoteResponse(me, s, term, voterId, granted, peers);
            var votes := s.votesReceived + if granted then {voterId} else {};
            if Counts(s, term) then
              && h.state.currentTerm == term && h.state.votesReceived == (if h.reply then {} else votes)
              && (h.state.role == Leader <==> h.reply) && (h.reply <==> |votes| >= MajorityThreshold(1 + peers))
            else
              && !h.reply && h.state.votesReceived <= s.votesReceived
              && (h.state.votesReceived != {} ==> h.state.currentTerm == s.currentTerm)
              && (h.state.role == Leader ==> s.role == Leader && h.state.currentTerm == s.currentTerm)
  {
  }

  predicate Assigned(s: ElectionState, leader: PeerId) {
    s.manualOverride && s.leaderId == Some(leader)
  }

  /** Nothing but a new assignment or the departure of the assigned leader ends
      an assignment, and while it lasts nobody becomes Leader. */
  lemma AssignmentLasts(me: PeerId, recovery: Recovery, s: ElectionState, e: Event, leader: PeerId)
    requires Assigned(s, leader) && RoleInvariant(me, s)
    ensures var s1 := React(me, recovery, s, e).state;
            (Assigned(s1, leader) <==>
               !((e.LeaderAssign? || e.SetLeader?) && e.leaderId != leader) && e != PeerLeft(leader))
            && (Assigned(s1, leader) && !e.LeaderAssign? && !e.SetLeader? && s1.role == Leader ==> s.role == Leader)
  {
  }

  /** A message of a later term that an assigned leader cannot ignore. */
  predicate Unseats(me: PeerId, s: ElectionState, e: Event) {
    TermOf(e) > s.currentTerm && (e.RequestVote? || e.VoteResponse? || (e.Heartbeat? && e.leaderId == me))
  }

  /** While assigned to itself, a leader keeps role and term unless such a message
      arrives, and a node that does not lead does not begin to. */
  lemma AssignedLeaderUnseatedExactly(me: PeerId, recovery: Recovery, s: ElectionState, e: Event)
    requires Assigned(s, me) && RoleInvariant(me, s)
    requires !e.LeaderAssign? && !e.SetLeader? && e != PeerLeft(me)
    ensures var s1 := React(me, recovery, s, e).state;
            && (s1.role == Leader <==> s.role == Leader && !Unseats(me, s, e))
            && (s1.role == Leader ==> s1.currentTerm == s.currentTerm)
  {
    LessIrreflexive(me);
  }

  // --- recovery after a manual leader left -----------------------------------

  predicate Reassigns(s: ElectionState, e: Event) {
    e.SetLeader? || e.LeaderAssign? || e == EnableAutoElection(true)
  }

  lemma {:induction false} OverrideHolds(me: PeerId, t: Trace, es: seq<Event>)
    requires t.state.manualOverride && t.state.role == Follower
    requires Avoids(me, Hold, t, es, Reassigns)
    ensures Run(me, Hold, t, es).state.manualOverride && Run(me, Hold, t, es).state.role == Follower
  {
    if es != [] { OverrideHolds(me, t, es[..|es| - 1]); }
  }

  /** Under Hold, once a manually assigned remote leader has left, the local node
      stays Follower through every run without a new manual decision. */
  lemma HoldRecovery(me: PeerId, t: Trace, leader: PeerId, es: seq<Event>)
    requires RoleInvariant(me, t.state)
    requires t.state.manualOverride && t.state.leaderId == Some(leader) && leader != me
    requires Avoids(me, Hold, Next(me, Hold, t, PeerLeft(leader)), es, Reassigns)
    ensures var left := Next(me, Hold, t, PeerLeft(leader));
            left.state.leaderId == None && left.notices == t.notices + [None]
            && Run(me, Hold, left, es).state.role == Follower
  {
    OverrideHolds(me, Next(me, Hold, t, PeerLeft(leader)), es);
  }

  /** The next enabled election start is let through exactly under AutoElect. */
  lemma RecoveryDecidesElection(me: PeerId, recovery: Recovery, t: Trace, leader: PeerId, peers: nat)
    requires RoleInvariant(me, t.state)
    requires t.state.manualOverride && t.state.leaderId == Some(leader) && leader != me
    requires t.state.autoElectionEnabled
    ensures var left := Next(me, recovery, t, PeerLeft(leader));
            var started := Next(me, recovery, left, StartElection(peers)).state;
            (started.role != Follower <==> recovery == AutoElect)
            && (recovery == AutoElect ==>
                  started.currentTerm == NextTerm(t.state.currentTerm) && started.votedFor == Some(me))
  {
  }

  /** Under Hold it is the toggle that ends the wait, and only when it enables elections. */
  lemma ToggleEndsHold(me: PeerId, t: Trace, leader: PeerId, enable: bool, peers: nat)
    requires RoleInvariant(me, t.state)
    requires t.state.manualOverride && t.state.leaderId == Some(leader) && leader != me
    ensures var toggled := Run(me, Hold, t, [PeerLeft(leader), EnableAutoElection(enable)]);
            Next(me, Hold, toggled, StartElection(peers)).state.role != Follower <==> enable
  {
    var left := Next(me, Hold, t, PeerLeft(leader));
    assert [PeerLeft(leader), EnableAutoElection(enable)][..1] == [PeerLeft(leader)];
    assert Run(me, Hold, t, [PeerLeft(leader)]) == left by { assert [PeerLeft(leader)][..0] == []; }
  }

  // --- observers -------------------------------------------------------------

  predicate LastNoticeIsLeader(t: Trace) {
    t.state.leaderId == if t.notices == [] then None else t.notices[|t.notices| - 1]
  }

  lemma NoticeStep(me: PeerId, recovery: Recovery, t: Trace, e: Event)
    requires LastNoticeIsLeader(t)
    ensures LastNoticeIsLeader(Next(me, recovery, t, e))
  {
  }

  /** Whatever happens, the last notice sent names the leader the node now follows. */
  lemma {:induction false} ObserversKnowTheLeader(me: PeerId, recovery: Recovery, auto: bool, es: seq<Event>)
    ensures LastNoticeIsLeader(Run(me, recovery, Trace(Initial(auto), [], {}), es))
  {
    if es != [] {
      ObserversKnowTheLeader(me, recovery, auto, es[..|es| - 1]);
      NoticeStep(me, recovery, Run(me, recovery, Trace(Initial(auto), [], {}), es[..|es| - 1]), es[|es| - 1]);
    }
  }
}
