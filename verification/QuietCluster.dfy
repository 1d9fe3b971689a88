/** While every node follows somebody, the election timers stay silent. */
module QuietCluster {
  import opened Types
  import opened ElectionRules
  import N = NodeRuns
  import Laws = NodeLaws
  import opened Cluster
  import opened ElectionSafety
  import Driver = NodeDriver

  /** The timer of a node that leads, follows somebody or has elections switched off sends nothing. */
  lemma TimerIsSilentExactly(me: PeerId, s: ElectionState, peers: nat)
    ensures s.role == Leader || s.leaderId != None || !s.autoElectionEnabled ==> Driver.TimerSends(me, s, peers) == []
    ensures s.role != Leader && s.leaderId == None && N.CanStart(s) ==> |Driver.TimerSends(me, s, peers)| == 1
  {
  }

  /** The election timer as it runs: it starts an election only when it is due. */
  predicate Timed(c: Cluster, step: Step) {
    step.ElectionTimeout? && step.node in c.nodes ==> Driver.Due(c.nodes[step.node].state)
  }

  /** No assignment is made and nobody is told that the leader it follows has left. */
  predicate Undisturbed(c: Cluster, step: Step) {
    && !step.AssignLeader?
    && (step.Departure? && step.node in c.nodes ==> c.nodes[step.node].state.leaderId != Some(step.peer))
  }

  ghost predicate QuietRun(c: Cluster, steps: seq<Step>) {
    steps != [] ==>
      var front, last := steps[..|steps| - 1], steps[|steps| - 1];
      QuietRun(c, front) && Timed(Exec(c, front), last) && Undisturbed(Exec(c, front), last)
  }

  predicate Attached(c: Cluster, v: PeerId) {
    v in c.nodes ==> c.nodes[v].state.leaderId != None
  }

  ghost predicate AllAttached(c: Cluster) {
    forall v {:trigger Attached(c, v)} | v in c.nodes :: Attached(c, v)
  }

  lemma DueNeedsNoLeader(s: ElectionState)
    requires s.leaderId != None
    ensures !Driver.Due(s)
  {
  }

  lemma TraceStaysAttached(c: Cluster, step: Step, bound: nat)
    requires Possible(c, step) && Attached(c, NodeOf(step)) && Timed(c, step) && Undisturbed(c, step)
    requires TermsWithin(c, bound)
    ensures TraceAfter(c, step).state.leaderId != None && TraceAfter(c, step).state.currentTerm <= bound
  {
    var i := NodeOf(step);
    if step.ElectionTimeout? { DueNeedsNoLeader(c.nodes[i].state); }
    if step.Deliver? { assert TermWithin(step.envelope.msg, bound); }
    if EventOf(step).Some? {
      Laws.OnlyDepartureUnfollows(i, RecoveryOf(step), c.nodes[i].state, EventOf(step).value);
      Laws.TermIsOwnOrTaken(i, RecoveryOf(step), c.nodes[i].state, EventOf(step).value);
    }
  }

  /** Only a timeout sends vote requests. */
  lemma OnlyTimeoutsAsk(c: Cluster, step: Step)
    requires Possible(c, step) && !step.ElectionTimeout?
    ensures forall e | e in Sent(c, step) :: !e.msg.RequestVote?
  {
  }

  lemma QuietStep(c: Cluster, step: Step, bound: nat)
    requires AllAttached(c) && Timed(c, step) && Undisturbed(c, step) && TermsWithin(c, bound)
    ensures var d := Apply(c, step);
            && AllAttached(d) && TermsWithin(d, bound)
            && forall e | e in d.network && e !in c.network :: !e.msg.RequestVote?
  {
    if Possible(c, step) {
      var i, d := NodeOf(step), Apply(c, step);
      assert Attached(c, i);
      TraceStaysAttached(c, step, bound);
      if step.ElectionTimeout? { DueNeedsNoLeader(c.nodes[i].state); }
      OnlyTimeoutsAsk(c, step);
      NewMessagesAreCurrent(c, step);
      OthersAttached(c, i, TraceAfter(c, step), d, bound);
    }
  }

  lemma OthersAttached(c: Cluster, i: PeerId, t: N.Trace, d: Cluster, bound: nat)
    requires AllAttached(c) && TermsWithin(c, bound) && i in c.nodes && d.nodes == c.nodes[i := t]
    requires t.state.leaderId != None && t.state.currentTerm <= bound
    requires forall e | e in d.network && e !in c.network ::
               e.src in d.nodes && e.msg.term == d.nodes[e.src].state.currentTerm
    ensures AllAttached(d) && TermsWithin(d, bound)
  {
    forall v | v in d.nodes ensures Attached(d, v) { assert Attached(c, v); }
    forall e | e in d.network ensures TermWithin(e.msg, bound) {
      if e in c.network { assert TermWithin(e.msg, bound); }
    }
  }

  /** While every node follows somebody, no run of timers, deliveries, heartbeats, toggles
      and other departures sends a vote request, raises the latest term, or leaves a node
      following nobody. */
  lemma {:induction false} NoElectionWhileAllFollow(c: Cluster, steps: seq<Step>, bound: nat)
    requires AllAttached(c) && TermsWithin(c, bound) && QuietRun(c, steps)
    ensures var d := Exec(c, steps);
            && AllAttached(d) && TermsWithin(d, bound)
            && forall e | e in d.network && e !in c.network :: !e.msg.RequestVote?
  {
    if steps != [] {
      var front, last := steps[..|steps| - 1], steps[|steps| - 1];
      NoElectionWhileAllFollow(c, front, bound);
      QuietStep(Exec(c, front), last, bound);
    }
  }
}
