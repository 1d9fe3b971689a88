/** What heartbeats can be trusted to say. In every automatic run they name nodes
    that were elected. A heartbeat tick checks that the node leads and then reads
    its term under a second lock, so that they name the leader of their own term
    holds for runs in which the node still leads at the second read, and not
    without that. */
module HeartbeatSafety {
  import opened Types
  import opened ElectionRules
  import N = NodeRuns
  import opened Cluster
  import opened ElectionSafety

  // --- every run: heartbeats and followers name elected nodes ----------------

  /** `p` won some term no later than `bound`. */
  predicate WonBy(c: Cluster, p: PeerId, bound: u64) {
    exists w | w in c.wins :: w.leader == p && w.term <= bound
  }

  predicate HeartbeatRooted(c: Cluster, m: Message) {
    m.Heartbeat? ==> WonBy(c, m.leaderId, m.term)
  }

  /** A node about to announce itself once won, even if it no longer leads. */
  predicate ArmedRooted(c: Cluster, p: PeerId) {
    p in c.nodes && p in c.armed ==> WonBy(c, p, c.nodes[p].state.currentTerm)
  }

  predicate FollowsWinner(c: Cluster, s: ElectionState) {
    s.leaderId.Some? ==> WonBy(c, s.leaderId.value, s.currentTerm)
  }

  ghost predicate FollowersOk(c: Cluster) {
    forall p {:trigger FollowsWinner(c, c.nodes[p].state)} | p in c.nodes :: FollowsWinner(c, c.nodes[p].state)
  }

  ghost predicate Rooted(c: Cluster) {
    && (forall e {:trigger HeartbeatRooted(c, e.msg)} | e in c.network :: HeartbeatRooted(c, e.msg))
    && (forall p {:trigger ArmedRooted(c, p)} | p in c.nodes :: ArmedRooted(c, p))
    && FollowersOk(c)
  }

  lemma WonByStays(c: Cluster, r: Cluster, p: PeerId, bound: u64, later: u64)
    requires c.wins <= r.wins && WonBy(c, p, bound) && bound <= later
    ensures WonBy(r, p, later)
  {
    var w :| w in c.wins && w.leader == p && w.term <= bound;
    assert w in r.wins;
  }

  lemma RootedRebuild(c: Cluster, i: PeerId, t: N.Trace, r: Cluster)
    requires Rooted(c) && i in c.nodes && r.nodes == c.nodes[i := t] && c.wins <= r.wins
    requires FollowsWinner(r, t.state)
    requires i in r.armed ==> WonBy(r, i, t.state.currentTerm)
    requires forall p | p in r.armed && p != i :: p in c.armed
    requires forall e | e in r.network && e !in c.network :: HeartbeatRooted(r, e.msg)
    ensures Rooted(r)
  {
    forall e | e in r.network ensures HeartbeatRooted(r, e.msg) {
      if e in c.network && e.msg.Heartbeat? {
        assert HeartbeatRooted(c, e.msg);
        WonByStays(c, r, e.msg.leaderId, e.msg.term, e.msg.term);
      }
    }
    forall p | p in r.nodes ensures ArmedRooted(r, p) && FollowsWinner(r, r.nodes[p].state) {
      if p != i {
        var s := c.nodes[p].state;
        assert ArmedRooted(c, p) && FollowsWinner(c, s);
        if p in r.armed { WonByStays(c, r, p, s.currentTerm, s.currentTerm); }
        if s.leaderId.Some? { WonByStays(c, r, s.leaderId.value, s.currentTerm, s.currentTerm); }
      }
    }
  }

  lemma TermKept(c: Cluster, step: Step)
    requires Possible(c, step) && AutomaticStep(c, step)
    requires step.Deliver? ==> !step.envelope.msg.LeaderAssign?
    ensures c.nodes[NodeOf(step)].state.currentTerm <= TraceAfter(c, step).state.currentTerm
  {
    if EventOf(step).Some? {
      N.TermStep(NodeOf(step), RecoveryOf(step), c.nodes[NodeOf(step)].state, EventOf(step).value);
    }
  }

  lemma FollowsAfter(c: Cluster, step: Step, r: Cluster)
    requires Rooted(c) && Safe(r) && Possible(c, step) && r == Apply(c, step) && AutomaticStep(c, step)
    requires step.Deliver? ==> !step.envelope.msg.LeaderAssign?
    ensures FollowsWinner(r, TraceAfter(c, step).state)
  {
    var i, t := NodeOf(step), TraceAfter(c, step);
    var s := c.nodes[i].state;
    assert r.nodes[i] == t && c.wins <= r.wins;
    assert FollowsWinner(c, s) && LeaderOk(r, i);
    if s.leaderId.Some? && t.state.currentTerm >= s.currentTerm {
      WonByStays(c, r, s.leaderId.value, s.currentTerm, t.state.currentTerm);
    }
    if EventOf(step).Some? {
      var event := EventOf(step).value;
      N.FollowedLeader(i, RecoveryOf(step), s, event);
      if event.Heartbeat? {
        assert HeartbeatRooted(c, step.envelope.msg);
        WonByStays(c, r, event.leaderId, event.term, event.term);
      }
    }
  }

  lemma NewWinnerLeads(c: Cluster, step: Step, w: Win)
    requires Possible(c, step) && w in WinsOf(c, step)
    ensures w.leader == NodeOf(step) && TraceAfter(c, step).state.role == Leader
    ensures TraceAfter(c, step).state.currentTerm == w.term
  {
  }

  /** Only the acting node can be armed by a step, and only while it leads. */
  lemma ArmingShape(c: Cluster, step: Step)
    requires Possible(c, step)
    ensures var armed := ArmedAfter(c, step);
            && (forall p | p in armed && p != NodeOf(step) :: p in c.armed)
            && (NodeOf(step) in armed ==> NodeOf(step) in c.armed || TraceAfter(c, step).state.role == Leader)
  {
    if step.Deliver? && WinsOf(c, step) != {} {
      var w :| w in WinsOf(c, step);
      NewWinnerLeads(c, step, w);
    }
  }

  lemma StepKeepsRooted(c: Cluster, step: Step, r: Cluster)
    requires AutomaticStep(c, step) && r == Apply(c, step)
    requires Rooted(c) && Safe(c) && Safe(r)
    ensures Rooted(r)
  {
    if Possible(c, step) {
      var i, t := NodeOf(step), TraceAfter(c, step);
      if step.Deliver? { assert MessageOk(c, step.envelope); }
      TermKept(c, step);
      FollowsAfter(c, step, r);
      ArmingShape(c, step);
      OnlySendersSendHeartbeats(c, step);
      assert ArmedRooted(c, i) && LeaderOk(r, i);
      var s := c.nodes[i].state;
      if i in c.armed { WonByStays(c, r, i, s.currentTerm, t.state.currentTerm); }
      forall e | e in r.network && e !in c.network ensures HeartbeatRooted(r, e.msg) {
        assert e in Sent(c, step);
        if e.msg.Heartbeat? { WonByStays(c, r, i, s.currentTerm, s.currentTerm); }
      }
      RootedRebuild(c, i, t, r);
    }
  }

  lemma {:induction false} RootedInEveryRun(ids: set<PeerId>, steps: seq<Step>)
    requires AutomaticRun(Start(ids), steps)
    ensures Rooted(Exec(Start(ids), steps))
  {
    if steps != [] {
      var front := steps[..|steps| - 1];
      RootedInEveryRun(ids, front);
      SafeInEveryRun(ids, front);
      SafeInEveryRun(ids, steps);
      StepKeepsRooted(Exec(Start(ids), front), steps[|steps| - 1], Exec(Start(ids), steps));
    }
  }

  /** Whoever is followed was elected: a majority of the cluster voted for it in a
      term no later than the follower's own. */
  lemma FollowedLeadersWereElected(ids: set<PeerId>, steps: seq<Step>, p: PeerId)
    returns (term: u64, quorum: set<PeerId>)
    requires AutomaticRun(Start(ids), steps)
    requires p in ids && Exec(Start(ids), steps).nodes[p].state.leaderId.Some?
    ensures var c := Exec(Start(ids), steps);
            && term <= c.nodes[p].state.currentTerm
            && quorum <= ids && 2 * |quorum| > |ids|
            && forall v | v in quorum :: N.Ballot(term, c.nodes[p].state.leaderId.value) in c.nodes[v].ballots
  {
    var c := Exec(Start(ids), steps);
    SafeInEveryRun(ids, steps);
    RootedInEveryRun(ids, steps);
    assert FollowsWinner(c, c.nodes[p].state);
    var w :| w in c.wins && w.leader == c.nodes[p].state.leaderId.value && w.term <= c.nodes[p].state.currentTerm;
    assert WinOk(c, w);
    term, quorum := w.term, w.quorum;
    forall v | v in quorum ensures v in c.nodes && N.Ballot(term, w.leader) in c.nodes[v].ballots {
      assert Cast(c, v, w.term, w.leader);
    }
  }

  // --- coherent runs: heartbeats name the leader of their term ---------------

  /** A heartbeat is sent only while its sender leads. */
  predicate CoherentStep(c: Cluster, step: Step) {
    step.HeartbeatSend? && step.node in c.nodes && step.node in c.armed ==> c.nodes[step.node].state.role == Leader
  }

  ghost predicate CoherentRun(c: Cluster, steps: seq<Step>) {
    steps != [] ==>
      var front := steps[..|steps| - 1];
      CoherentRun(c, front) && CoherentStep(Exec(c, front), steps[|steps| - 1])
  }

  // --- the invariant ---------------------------------------------------------

  predicate HeartbeatOk(c: Cluster, m: Message) {
    m.Heartbeat? ==> Won(c, m.leaderId, m.term)
  }

  ghost predicate HeartbeatsOk(c: Cluster) {
    forall e {:trigger HeartbeatOk(c, e.msg)} | e in c.network :: HeartbeatOk(c, e.msg)
  }

  /** A node that won a term is in it, leading, or past it. */
  predicate WinnerOk(c: Cluster, w: Win) {
    && w.leader in c.nodes
    && var s := c.nodes[w.leader].state;
       s.currentTerm >= w.term && (s.currentTerm == w.term ==> s.role == Leader)
  }

  ghost predicate WinnersOk(c: Cluster) {
    forall w {:trigger WinnerOk(c, w)} | w in c.wins :: WinnerOk(c, w)
  }

  ghost predicate Honest(c: Cluster) {
    HeartbeatsOk(c) && WinnersOk(c)
  }

  // --- every coherent step keeps it ------------------------------------------

  lemma HonestRebuild(c: Cluster, i: PeerId, t: N.Trace, r: Cluster)
    requires Honest(c) && i in c.nodes && r.nodes == c.nodes[i := t] && c.wins <= r.wins
    requires forall w | w in r.wins && (w !in c.wins || w.leader == i) :: WinnerOk(r, w)
    requires forall e | e in r.network && e !in c.network :: HeartbeatOk(r, e.msg)
    ensures Honest(r)
  {
    forall e | e in r.network ensures HeartbeatOk(r, e.msg) {
      if e in c.network { assert HeartbeatOk(c, e.msg); }
    }
    forall w | w in r.wins ensures WinnerOk(r, w) {
      if w in c.wins && w.leader != i { assert WinnerOk(c, w); }
    }
  }

  /** A winner that performs a permitted event leads on in its term or is past it. */
  lemma WinnerStays(c: Cluster, step: Step, w: Win)
    requires WinnersOk(c) && Safe(c) && HeartbeatsOk(c) && w in c.wins && w.leader == NodeOf(step)
    requires Possible(c, step) && AutomaticStep(c, step)
    requires step.Deliver? ==> !step.envelope.msg.LeaderAssign?
    ensures var s := TraceAfter(c, step).state;
            s.currentTerm >= w.term && (s.currentTerm == w.term ==> s.role == Leader)
  {
    var i := NodeOf(step);
    assert WinnerOk(c, w) && NodeOk(c, i);
    if EventOf(step).Some? {
      var s, event := c.nodes[i].state, EventOf(step).value;
      N.TermStep(i, RecoveryOf(step), s, event);
      if s.currentTerm == w.term {
        if event.Heartbeat? && event.term == w.term {
          assert HeartbeatOk(c, step.envelope.msg);
          WinsAgree(c, i, event.leaderId, w.term);
          LessIrreflexive(i);
        }
        N.LeaderStays(i, RecoveryOf(step), s, event);
      }
    }
  }

  lemma OnlySendersSendHeartbeats(c: Cluster, step: Step)
    requires Possible(c, step)
    ensures forall e | e in Sent(c, step) && e.msg.Heartbeat? ::
              step.HeartbeatSend? && e.msg == Heartbeat(c.nodes[step.node].state.currentTerm, step.node)
  {
  }

  lemma StepKeepsHonest(c: Cluster, step: Step, r: Cluster)
    requires AutomaticStep(c, step) && CoherentStep(c, step) && r == Apply(c, step)
    requires Honest(c) && Safe(c) && Safe(r)
    ensures Honest(r)
  {
    if Possible(c, step) {
      var i, t := NodeOf(step), TraceAfter(c, step);
      if step.Deliver? { assert MessageOk(c, step.envelope); }
      OnlySendersSendHeartbeats(c, step);
      assert LeaderOk(c, i);
      forall e | e in r.network && e !in c.network ensures HeartbeatOk(r, e.msg) {
        assert e in Sent(c, step);
      }
      forall w | w in r.wins && (w !in c.wins || w.leader == i) ensures WinnerOk(r, w) {
        if w in c.wins { WinnerStays(c, step, w); } else { NewWinnerLeads(c, step, w); }
      }
      HonestRebuild(c, i, t, r);
    }
  }

  lemma {:induction false} HonestInEveryRun(ids: set<PeerId>, steps: seq<Step>)
    requires AutomaticRun(Start(ids), steps) && CoherentRun(Start(ids), steps)
    ensures Safe(Exec(Start(ids), steps)) && Rooted(Exec(Start(ids), steps)) && Honest(Exec(Start(ids), steps))
  {
    SafeInEveryRun(ids, steps);
    RootedInEveryRun(ids, steps);
    if steps != [] {
      var front := steps[..|steps| - 1];
      HonestInEveryRun(ids, front);
      StepKeepsHonest(Exec(Start(ids), front), steps[|steps| - 1], Exec(Start(ids), steps));
    }
  }

  // --- what follows ----------------------------------------------------------

  ghost predicate HeartbeatsAgree(c: Cluster) {
    forall e, f {:trigger HeartbeatOk(c, e.msg), HeartbeatOk(c, f.msg)} | e in c.network && f in c.network ::
      e.msg.Heartbeat? && f.msg.Heartbeat? && e.msg.term == f.msg.term ==> e.msg.leaderId == f.msg.leaderId
  }

  /** All heartbeats ever sent in a term name the same leader. */
  lemma HeartbeatsOfATermAgree(ids: set<PeerId>, steps: seq<Step>)
    requires AutomaticRun(Start(ids), steps) && CoherentRun(Start(ids), steps)
    ensures HeartbeatsAgree(Exec(Start(ids), steps))
  {
    var c := Exec(Start(ids), steps);
    HonestInEveryRun(ids, steps);
    forall e, f | e in c.network && f in c.network && e.msg.Heartbeat? && f.msg.Heartbeat? && e.msg.term == f.msg.term
      ensures e.msg.leaderId == f.msg.leaderId
    {
      assert HeartbeatOk(c, e.msg) && HeartbeatOk(c, f.msg);
      WinsAgree(c, e.msg.leaderId, f.msg.leaderId, e.msg.term);
    }
  }

  /** Whoever led a term at any earlier point of the run leads it still or is past it. */
  ghost predicate LeadersYieldUpward(ids: set<PeerId>, steps: seq<Step>) {
    forall i, p, term {:trigger LedAfter(ids, steps, i, p, term)} | LedAfter(ids, steps, i, p, term) ::
      var c := Exec(Start(ids), steps);
      Leads(c, p, term) || (p in c.nodes && c.nodes[p].state.currentTerm > term)
  }

  /** A leader gives up its role only together with its term, for a strictly higher one. */
  lemma LeaderYieldsOnlyToHigherTerm(ids: set<PeerId>, steps: seq<Step>)
    requires AutomaticRun(Start(ids), steps) && CoherentRun(Start(ids), steps)
    ensures LeadersYieldUpward(ids, steps)
  {
    var c := Exec(Start(ids), steps);
    HonestInEveryRun(ids, steps);
    forall i, p, term | LedAfter(ids, steps, i, p, term)
      ensures Leads(c, p, term) || (p in c.nodes && c.nodes[p].state.currentTerm > term)
    {
      LeadersOnceWon(ids, steps, i, p, term);
      var w :| w in c.wins && w.leader == p && w.term == term;
      assert WinnerOk(c, w);
    }
  }

  /** The condition on heartbeats is exact: after any coherent run, the heartbeat a
      node is about to send keeps all heartbeats true precisely if it still leads. */
  lemma HeartbeatTrueExactlyWhileLeading(ids: set<PeerId>, steps: seq<Step>, i: PeerId)
    requires AutomaticRun(Start(ids), steps) && CoherentRun(Start(ids), steps)
    requires i in ids && |ids| > 1 && i in Exec(Start(ids), steps).armed
    ensures var c := Exec(Start(ids), steps);
            HeartbeatsOk(Apply(c, HeartbeatSend(i))) <==> c.nodes[i].state.role == Leader
  {
    var c := Exec(Start(ids), steps);
    HonestInEveryRun(ids, steps);
    SendTrueExactly(c, i);
    assert LeaderOk(c, i);
    if Won(c, i, c.nodes[i].state.currentTerm) {
      var w :| w in c.wins && w.leader == i && w.term == c.nodes[i].state.currentTerm;
      assert WinnerOk(c, w);
    }
  }

  /** A sent heartbeat is true exactly if its sender won the term it is in. */
  lemma SendTrueExactly(c: Cluster, i: PeerId)
    requires HeartbeatsOk(c) && i in c.nodes && i in c.armed && |c.nodes.Keys| > 1
    ensures HeartbeatsOk(Apply(c, HeartbeatSend(i))) <==> Won(c, i, c.nodes[i].state.currentTerm)
  {
    var d, term := Apply(c, HeartbeatSend(i)), c.nodes[i].state.currentTerm;
    assert |c.nodes.Keys - {i}| > 0;
    var dst :| dst in c.nodes.Keys - {i};
    assert d.wins == c.wins && Envelope(i, dst, Heartbeat(term, i)) in d.network;
    if HeartbeatsOk(d) {
      assert HeartbeatOk(d, Heartbeat(term, i)) by { assert HeartbeatOk(d, Envelope(i, dst, Heartbeat(term, i)).msg); }
    }
    if Won(c, i, term) {
      forall e | e in d.network ensures HeartbeatOk(d, e.msg) {
        if e in c.network { assert HeartbeatOk(c, e.msg); }
      }
    }
  }
}
