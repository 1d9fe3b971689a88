/** Why heartbeat agreement needs the sender to lead when it reads its term: a
    run of three nodes, elections only, in which a deposed leader that had
    already passed its leadership check announces itself in its rival's term. */
module HeartbeatRace {
  import opened Types
  import opened ElectionRules
  import opened Cluster
  import opened ElectionSafety
  import opened QuorumExactness

  function Beat(leader: PeerId, dst: PeerId): Envelope {
    Envelope(leader, dst, Heartbeat(2, leader))
  }

  /** `leader` has told all the others that it leads term 2. */
  predicate Announced(c: Cluster, leader: PeerId) {
    forall v | v in c.nodes && v != leader :: Beat(leader, v) in c.network
  }

  predicate StandsAgain(c: Cluster, b: PeerId) {
    b in c.nodes && c.nodes[b].state == ElectionState(Candidate, 2, Some(b), {b}, None, true, false)
  }

  lemma FirstStand(c: Cluster, b: PeerId)
    requires Fresh(c, b)
    ensures var d := Apply(c, ElectionTimeout(b, 2));
            && Touches(c, d, {b}) && d.armed == c.armed
            && d.nodes[b].state == ElectionState(Candidate, 1, Some(b), {b}, None, true, false)
  {
  }

  lemma SecondStand(c: Cluster, b: PeerId)
    requires b in c.nodes && c.nodes[b].state == ElectionState(Candidate, 1, Some(b), {b}, None, true, false)
    ensures var d := Apply(c, ElectionTimeout(b, 2));
            && Touches(c, d, {b}) && d.armed == c.armed && StandsAgain(d, b)
            && forall v | v in c.nodes && v != b :: Envelope(b, v, RequestVote(2, b)) in d.network
  {
  }

  /** `b` stands twice, reaching term 2, and has asked everybody for their vote. */
  lemma StandTwice(c: Cluster, b: PeerId) returns (steps: seq<Step>)
    requires Fresh(c, b)
    ensures AllUniform(2, steps) && OverflowFree(c, steps)
    ensures var d := Exec(c, steps);
            && Touches(c, d, {b}) && d.armed == c.armed && StandsAgain(d, b)
            && forall v | v in c.nodes && v != b :: Envelope(b, v, RequestVote(2, b)) in d.network
  {
    var step := ElectionTimeout(b, 2);
    FirstStand(c, b);
    SecondStand(Apply(c, step), b);
    Single(c, 2, step);
    Single(Apply(c, step), 2, step);
    Joined(c, 2, [step], [step]);
    steps := [step] + [step];
  }

  /** `a`, leading term 1, gives up its term and votes for `b` in term 2. */
  lemma GiveUp(c: Cluster, a: PeerId, b: PeerId)
    requires Leads(c, a, 1) && a != b && Envelope(b, a, RequestVote(2, b)) in c.network
    ensures var d := Apply(c, Deliver(Envelope(b, a, RequestVote(2, b)), 2));
            && Touches(c, d, {a}) && d.armed == c.armed && d.nodes[a].state.currentTerm == 2
            && Envelope(a, b, VoteResponse(2, a, true)) in d.network
  {
  }

  /** That vote makes `b` the leader of term 2. */
  lemma TakeOver(c: Cluster, a: PeerId, b: PeerId)
    requires StandsAgain(c, b) && a != b && Envelope(a, b, VoteResponse(2, a, true)) in c.network
    ensures var d := Apply(c, Deliver(Envelope(a, b, VoteResponse(2, a, true)), 2));
            Touches(c, d, {b}) && c.armed <= d.armed && Leads(d, b, 2) && !d.nodes[b].state.manualOverride
  {
    assert |{b} + {a}| == 2;
  }

  lemma Depose(c: Cluster, a: PeerId, b: PeerId) returns (steps: seq<Step>)
    requires Leads(c, a, 1) && a != b && StandsAgain(c, b) && Envelope(b, a, RequestVote(2, b)) in c.network
    ensures AllUniform(2, steps) && OverflowFree(c, steps)
    ensures var d := Exec(c, steps);
            && d.nodes.Keys == c.nodes.Keys && c.armed <= d.armed
            && Leads(d, b, 2) && d.nodes[a].state.currentTerm == 2 && !d.nodes[b].state.manualOverride
  {
    var request := Deliver(Envelope(b, a, RequestVote(2, b)), 2);
    var response := Deliver(Envelope(a, b, VoteResponse(2, a, true)), 2);
    GiveUp(c, a, b);
    Single(c, 2, request);
    var rest := Finish(Apply(c, request), a, b, response);
    Joined(c, 2, [request], rest);
    steps := [request] + rest;
  }

  lemma Finish(c: Cluster, a: PeerId, b: PeerId, response: Step) returns (steps: seq<Step>)
    requires StandsAgain(c, b) && a != b && response == Deliver(Envelope(a, b, VoteResponse(2, a, true)), 2)
    requires response.envelope in c.network
    ensures AllUniform(2, steps) && OverflowFree(c, steps)
    ensures var d := Exec(c, steps);
            Touches(c, d, {b}) && c.armed <= d.armed && Leads(d, b, 2) && !d.nodes[b].state.manualOverride
  {
    TakeOver(c, a, b);
    Single(c, 2, response);
    steps := [response];
  }

  lemma SecondElection(c: Cluster, a: PeerId, b: PeerId) returns (steps: seq<Step>)
    requires Leads(c, a, 1) && Fresh(c, b)
    ensures AllUniform(2, steps) && OverflowFree(c, steps)
    ensures var d := Exec(c, steps);
            && d.nodes.Keys == c.nodes.Keys && c.armed <= d.armed
            && Leads(d, b, 2) && d.nodes[a].state.currentTerm == 2 && !d.nodes[b].state.manualOverride
  {
    var first := StandTwice(c, b);
    var rest := Depose(Exec(c, first), a, b);
    Joined(c, 2, first, rest);
    steps := first + rest;
  }

  lemma Announce(c: Cluster, a: PeerId) returns (steps: seq<Step>)
    requires a in c.nodes && a in c.armed && c.nodes[a].state.currentTerm == 2
    ensures AllUniform(2, steps) && OverflowFree(c, steps)
    ensures var d := Exec(c, steps);
            Touches(c, d, {}) && d.armed == c.armed - multiset{a} && Announced(d, a)
  {
    Single(c, 2, HeartbeatSend(a));
    steps := [HeartbeatSend(a)];
  }

  lemma Check(c: Cluster, a: PeerId, term: u64) returns (steps: seq<Step>)
    requires Leads(c, a, term)
    ensures AllUniform(2, steps) && OverflowFree(c, steps)
    ensures var d := Exec(c, steps); Touches(c, d, {}) && d.armed == c.armed + multiset{a}
  {
    Single(c, 2, HeartbeatCheck(a));
    steps := [HeartbeatCheck(a)];
  }

  /** Two heartbeats of one term name different leaders, although every step is
      one of the automatic regime; only one of the two ever led that term. */
  lemma HeartbeatsCanDisagree(ids: set<PeerId>, a: PeerId, b: PeerId) returns (steps: seq<Step>)
    requires |ids| == 3 && a in ids && b in ids && a != b
    ensures AutomaticRun(Start(ids), steps)
    ensures var d := Exec(Start(ids), steps);
            && Leads(d, b, 2) && !d.nodes[b].state.manualOverride
            && Announced(d, a) && Announced(d, b)
  {
    var c0 := Start(ids);
    assert |ids - {a, b}| == 1;
    var v :| v in ids - {a, b};
    var s1 := Campaign(c0, 2, a, {a, v});
    var s2 := Check(Exec(c0, s1), a, 1);
    Joined(c0, 2, s1, s2);
    var s3 := SecondElection(Exec(c0, s1 + s2), a, b);
    Joined(c0, 2, s1 + s2, s3);
    var led := s1 + s2 + s3;
    var rest := BothAnnounce(Exec(c0, led), a, b);
    Joined(c0, 2, led, rest);
    steps := led + rest;
    UniformRunIsAutomatic(ids, 2, steps);
  }

  lemma BothAnnounce(c: Cluster, a: PeerId, b: PeerId) returns (steps: seq<Step>)
    requires Leads(c, b, 2) && a in c.nodes && a in c.armed && c.nodes[a].state.currentTerm == 2
    ensures AllUniform(2, steps) && OverflowFree(c, steps)
    ensures var d := Exec(c, steps);
            Touches(c, d, {}) && Announced(d, a) && Announced(d, b)
  {
    var s1 := Announce(c, a);
    var s2 := Check(Exec(c, s1), b, 2);
    Joined(c, 2, s1, s2);
    var s3 := Announce(Exec(c, s1 + s2), b);
    Joined(c, 2, s1 + s2, s3);
    steps := s1 + s2 + s3;
  }

  /** If the deposed node has the greater identifier, its announcement makes the
      rightful leader step down within its own term. */
  lemma RightfulLeaderCanBeDeposed(ids: set<PeerId>, a: PeerId, b: PeerId) returns (steps: seq<Step>)
    requires |ids| == 3 && a in ids && b in ids && Less(b, a)
    ensures AutomaticRun(Start(ids), steps) && Leads(Exec(Start(ids), steps), b, 2)
    ensures var step := Deliver(Beat(a, b), 2);
            var d := Apply(Exec(Start(ids), steps), step);
            AutomaticStep(Exec(Start(ids), steps), step)
            && d.nodes[b].state.role == Follower && d.nodes[b].state.currentTerm == 2
            && d.nodes[b].state.leaderId == Some(a)
  {
    LessIrreflexive(a);
    steps := HeartbeatsCanDisagree(ids, a, b);
    Yield(Exec(Start(ids), steps), a, b);
  }

  lemma Yield(c: Cluster, a: PeerId, b: PeerId)
    requires Leads(c, b, 2) && !c.nodes[b].state.manualOverride && Beat(a, b) in c.network && Less(b, a)
    requires |c.nodes.Keys| == 3
    ensures var step := Deliver(Beat(a, b), 2);
            var d := Apply(c, step);
            AutomaticStep(c, step)
            && d.nodes[b].state.role == Follower && d.nodes[b].state.currentTerm == 2
            && d.nodes[b].state.leaderId == Some(a)
  {
  }
}
