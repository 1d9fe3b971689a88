/** A cluster of any size in which every node has the same leader assigned by hand. */
module ManualRegime {
  import opened Types
  import opened ElectionRules
  import N = NodeRuns
  import opened Cluster

  predicate NodeAssigned(c: Cluster, p: PeerId, leader: PeerId)
    requires p in c.nodes
  {
    N.Assigned(c.nodes[p].state, leader) && N.RoleInvariant(p, c.nodes[p].state)
  }

  ghost predicate AllAssigned(c: Cluster, leader: PeerId) {
    forall p {:trigger NodeAssigned(c, p, leader)} | p in c.nodes :: NodeAssigned(c, p, leader)
  }

  /** Anything but an assignment, its delivery, or the leader's departure; and no
      node is told that it has itself left. */
  predicate Undisturbed(leader: PeerId, step: Step) {
    && !step.AssignLeader?
    && (step.Deliver? ==> !step.envelope.msg.LeaderAssign?)
    && (step.Departure? ==> step.peer != leader && step.peer != step.node)
  }

  lemma AssignedStep(c: Cluster, leader: PeerId, step: Step)
    requires AllAssigned(c, leader) && Undisturbed(leader, step)
    ensures var d := Apply(c, step);
            AllAssigned(d, leader)
            && forall p | p in d.nodes && d.nodes[p].state.role == Leader :: c.nodes[p].state.role == Leader
  {
    if Possible(c, step) {
      var d, i, t := Apply(c, step), NodeOf(step), TraceAfter(c, step);
      assert NodeAssigned(c, i, leader);
      TraceStaysAssigned(c, leader, step);
      assert d.nodes == c.nodes[i := t];
      forall p | p in d.nodes ensures NodeAssigned(d, p, leader) {
        if p != i { assert NodeAssigned(c, p, leader); }
      }
    }
  }

  lemma TraceStaysAssigned(c: Cluster, leader: PeerId, step: Step)
    requires Possible(c, step) && NodeAssigned(c, NodeOf(step), leader) && Undisturbed(leader, step)
    ensures var s := TraceAfter(c, step).state;
            && N.Assigned(s, leader) && N.RoleInvariant(NodeOf(step), s)
            && (s.role == Leader ==> c.nodes[NodeOf(step)].state.role == Leader)
  {
    if EventOf(step).Some? {
      var s, e := c.nodes[NodeOf(step)].state, EventOf(step).value;
      N.AssignmentLasts(NodeOf(step), RecoveryOf(step), s, e, leader);
      N.RoleStep(NodeOf(step), RecoveryOf(step), s, e);
    }
  }

  /** No run of timeouts, votes, vote responses, heartbeats, toggles and other
      departures changes whom anyone follows, lets any node stand for election,
      or makes a Leader of a node that was none; only the assigned one leads. */
  lemma {:induction false} AssignmentHolds(c: Cluster, leader: PeerId, steps: seq<Step>)
    requires AllAssigned(c, leader)
    requires forall step | step in steps :: Undisturbed(leader, step)
    ensures AllAssigned(Exec(c, steps), leader)
    ensures forall p | p in c.nodes :: var s := Exec(c, steps).nodes[p].state;
              && s.leaderId == Some(leader) && s.role != Candidate
              && (s.role == Leader ==> p == leader && c.nodes[p].state.role == Leader)
  {
    var d := Exec(c, steps);
    if steps != [] {
      var front := steps[..|steps| - 1];
      forall step | step in front ensures Undisturbed(leader, step) { assert step in steps; }
      AssignmentHolds(c, leader, front);
      assert steps[|steps| - 1] in steps;
      AssignedStep(Exec(c, front), leader, steps[|steps| - 1]);
    }
    forall p | p in c.nodes
      ensures var s := d.nodes[p].state;
        s.leaderId == Some(leader) && s.role != Candidate && (s.role == Leader ==> p == leader)
    {
      assert NodeAssigned(d, p, leader);
    }
  }

  // --- how the regime comes about --------------------------------------------

  ghost predicate RolesOk(c: Cluster) {
    forall p {:trigger N.RoleInvariant(p, c.nodes[p].state)} | p in c.nodes :: N.RoleInvariant(p, c.nodes[p].state)
  }

  /** No node is told that it has itself left. */
  predicate Sane(step: Step) {
    step.Departure? ==> step.peer != step.node
  }

  lemma RolesOkStep(c: Cluster, step: Step)
    requires RolesOk(c) && Sane(step)
    ensures RolesOk(Apply(c, step))
  {
    if Possible(c, step) {
      var i, t := NodeOf(step), TraceAfter(c, step);
      assert N.RoleInvariant(i, c.nodes[i].state);
      if EventOf(step).Some? { N.RoleStep(i, RecoveryOf(step), c.nodes[i].state, EventOf(step).value); }
      forall v | v in c.nodes ensures N.RoleInvariant(v, c.nodes[i := t][v].state) {
        if v != i { assert N.RoleInvariant(v, c.nodes[v].state); }
      }
    }
  }

  /** Every reachable cluster, elections and assignments included. */
  lemma {:induction false} RolesOkInEveryRun(ids: set<PeerId>, steps: seq<Step>)
    requires forall step | step in steps :: Sane(step)
    ensures RolesOk(Exec(Start(ids), steps))
  {
    if steps == [] {
      forall p | p in ids ensures N.RoleInvariant(p, Start(ids).nodes[p].state) {}
    } else {
      var front, last := steps[..|steps| - 1], steps[|steps| - 1];
      forall step | step in front ensures Sane(step) { assert step in steps; }
      RolesOkInEveryRun(ids, front);
      assert last in steps;
      RolesOkStep(Exec(Start(ids), front), last);
    }
  }

  /** As `Undisturbed`, but assignments of this very leader may be delivered. */
  predicate Spreading(leader: PeerId, step: Step) {
    && !step.AssignLeader?
    && (step.Deliver? && step.envelope.msg.LeaderAssign? ==> step.envelope.msg.leaderId == leader)
    && (step.Departure? ==> step.peer != leader && step.peer != step.node)
  }

  /** The step brings `p` an assignment that is under way in `c`. */
  predicate Informs(c: Cluster, step: Step, p: PeerId) {
    step.Deliver? && step.envelope in c.network && step.envelope.dst == p && step.envelope.msg.LeaderAssign?
  }

  ghost predicate Informed(c: Cluster, steps: seq<Step>, p: PeerId) {
    exists step | step in steps :: Informs(c, step, p)
  }

  lemma SpreadingStep(c: Cluster, leader: PeerId, step: Step, p: PeerId)
    requires RolesOk(c) && Spreading(leader, step) && p in c.nodes
    ensures var d := Apply(c, step);
            && RolesOk(d) && c.network <= d.network
            && (NodeAssigned(c, p, leader) || Informs(c, step, p) ==> NodeAssigned(d, p, leader))
  {
    if Possible(c, step) {
      var i, t := NodeOf(step), TraceAfter(c, step);
      assert N.RoleInvariant(i, c.nodes[i].state);
      TraceSpreads(c, leader, step);
      forall v | v in c.nodes ensures N.RoleInvariant(v, c.nodes[i := t][v].state) {
        if v != i { assert N.RoleInvariant(v, c.nodes[v].state); }
      }
      assert N.RoleInvariant(p, c.nodes[i := t][p].state);
    }
  }

  lemma TraceSpreads(c: Cluster, leader: PeerId, step: Step)
    requires Possible(c, step) && N.RoleInvariant(NodeOf(step), c.nodes[NodeOf(step)].state) && Spreading(leader, step)
    ensures var i, s := NodeOf(step), TraceAfter(c, step).state;
            && N.RoleInvariant(i, s)
            && (N.Assigned(c.nodes[i].state, leader) || Informs(c, step, i) ==> N.Assigned(s, leader))
  {
    if EventOf(step).Some? {
      var i, e := NodeOf(step), EventOf(step).value;
      N.RoleStep(i, RecoveryOf(step), c.nodes[i].state, e);
      if N.Assigned(c.nodes[i].state, leader) {
        N.AssignmentLasts(i, RecoveryOf(step), c.nodes[i].state, e, leader);
      }
    }
  }

  lemma {:induction false} AssignmentSpreads(c: Cluster, leader: PeerId, steps: seq<Step>, p: PeerId)
    requires RolesOk(c) && p in c.nodes
    requires forall step | step in steps :: Spreading(leader, step)
    ensures var d := Exec(c, steps);
            && RolesOk(d) && c.network <= d.network
            && (NodeAssigned(c, p, leader) || Informed(c, steps, p) ==> NodeAssigned(d, p, leader))
  {
    if steps != [] {
      var front, last := steps[..|steps| - 1], steps[|steps| - 1];
      forall step | step in front ensures Spreading(leader, step) { assert step in steps; }
      AssignmentSpreads(c, leader, front, p);
      assert last in steps;
      SpreadingStep(Exec(c, front), leader, last, p);
      if Informed(c, steps, p) && !Informs(c, last, p) {
        var step :| step in steps && Informs(c, step, p);
        assert step in front;
      }
    }
  }

  /** From any state with sane roles: one node assigns a leader, and once its message has reached
      every other node, in whatever order and among whatever elections, heartbeats
      and toggles, the regime is in force. */
  lemma AssignmentTakesHold(c: Cluster, i: PeerId, leader: PeerId, steps: seq<Step>)
    requires RolesOk(c) && i in c.nodes
    requires forall step | step in steps :: Spreading(leader, step)
    requires forall p | p in c.nodes && p != i :: Informed(Apply(c, AssignLeader(i, leader)), steps, p)
    ensures AllAssigned(Exec(Apply(c, AssignLeader(i, leader)), steps), leader)
  {
    var c1 := Apply(c, AssignLeader(i, leader));
    forall p | p in c1.nodes ensures N.RoleInvariant(p, c1.nodes[p].state) {
      assert N.RoleInvariant(p, c.nodes[p].state);
    }
    forall p | p in c1.nodes ensures NodeAssigned(Exec(c1, steps), p, leader) {
      AssignmentSpreads(c1, leader, steps, p);
    }
  }

  /** The assignment `i` sends to `v`: the new leader, the assigner's new term, and the assigner. */
  function OrderTo(c: Cluster, i: PeerId, leader: PeerId, v: PeerId): Envelope
    requires i in c.nodes
  {
    Envelope(i, v, LeaderAssign(NextTerm(c.nodes[i].state.currentTerm), leader, i))
  }

  /** Assigning a leader sends exactly that to every other node, and the assigner is
      the first to follow, or to lead if it assigned itself. */
  lemma AssignmentIsBroadcast(c: Cluster, i: PeerId, leader: PeerId)
    requires i in c.nodes
    ensures var d := Apply(c, AssignLeader(i, leader));
            && d.network == c.network + (set v | v in c.nodes && v != i :: OrderTo(c, i, leader, v))
            && N.Assigned(d.nodes[i].state, leader)
            && d.nodes[i].state.role == (if leader == i then Leader else Follower)
            && d.nodes[i].state.currentTerm == NextTerm(c.nodes[i].state.currentTerm)
  {
  }

  ghost predicate Ordered(c: Cluster, i: PeerId, leader: PeerId, steps: seq<Step>, v: PeerId)
    requires i in c.nodes
  {
    exists step | step in steps :: step.Deliver? && step.envelope == OrderTo(c, i, leader, v)
  }

  /** From any cluster with the role invariant: one node assigns a leader, and once the
      very messages it sends have been delivered, in whatever order and among whatever
      elections, heartbeats and toggles, every node follows that leader. */
  lemma AssignmentReachesEverybody(c: Cluster, i: PeerId, leader: PeerId, steps: seq<Step>)
    requires RolesOk(c) && i in c.nodes
    requires forall step | step in steps :: Spreading(leader, step)
    requires forall v | v in c.nodes && v != i :: Ordered(c, i, leader, steps, v)
    ensures AllAssigned(Exec(Apply(c, AssignLeader(i, leader)), steps), leader)
  {
    var c1 := Apply(c, AssignLeader(i, leader));
    AssignmentIsBroadcast(c, i, leader);
    forall v | v in c.nodes && v != i ensures Informed(c1, steps, v) {
      var step :| step in steps && step.Deliver? && step.envelope == OrderTo(c, i, leader, v);
      assert OrderTo(c, i, leader, v) in c1.network;
      assert Informs(c1, step, v);
    }
    AssignmentTakesHold(c, i, leader, steps);
  }

  lemma {:induction false} Orders(c: Cluster, i: PeerId, leader: PeerId, rest: set<PeerId>) returns (steps: seq<Step>)
    requires i in c.nodes
    ensures forall step | step in steps :: Spreading(leader, step)
    ensures forall v | v in rest :: Ordered(c, i, leader, steps, v)
    decreases |rest|
  {
    if rest == {} {
      steps := [];
    } else {
      var v :| v in rest;
      var others := Orders(c, i, leader, rest - {v});
      var step := Deliver(OrderTo(c, i, leader, v), 0);
      steps := [step] + others;
      assert step in steps;
      forall u | u in rest ensures Ordered(c, i, leader, steps, u) {
        if u != v {
          assert u in rest - {v} && Ordered(c, i, leader, others, u);
          var s :| s in others && s.Deliver? && s.envelope == OrderTo(c, i, leader, u);
          assert s in steps;
        }
      }
    }
  }

  /** Any node can put any leader in force over the whole cluster, whatever its state. */
  lemma AnyAssignmentCanTakeHold(c: Cluster, i: PeerId, leader: PeerId) returns (steps: seq<Step>)
    requires RolesOk(c) && i in c.nodes
    ensures AllAssigned(Exec(Apply(c, AssignLeader(i, leader)), steps), leader)
  {
    steps := Orders(c, i, leader, c.nodes.Keys - {i});
    AssignmentReachesEverybody(c, i, leader, steps);
  }

  /** So the regime can be put in force after any run whatever. */
  lemma AssignmentTakesHoldAfterAnyRun(ids: set<PeerId>, past: seq<Step>, i: PeerId, leader: PeerId, steps: seq<Step>)
    requires forall step | step in past :: Sane(step)
    requires i in ids && forall step | step in steps :: Spreading(leader, step)
    requires forall v | v in ids && v != i :: Ordered(Exec(Start(ids), past), i, leader, steps, v)
    ensures AllAssigned(Exec(Start(ids), past + [AssignLeader(i, leader)] + steps), leader)
  {
    RolesOkInEveryRun(ids, past);
    ExecSnoc(Start(ids), past, AssignLeader(i, leader));
    ExecConcat(Start(ids), past + [AssignLeader(i, leader)], steps);
    AssignmentReachesEverybody(Exec(Start(ids), past), i, leader, steps);
  }

  // --- how its leader is lost ------------------------------------------------

  /** The step brings the assigned leader a message of a later term that costs it its role. */
  predicate Deposes(c: Cluster, step: Step, leader: PeerId, term: u64) {
    && step.Deliver? && step.envelope in c.network && step.envelope.dst == leader
    && var m := step.envelope.msg;
       m.term > term && (m.RequestVote? || m.VoteResponse? || (m.Heartbeat? && m.leaderId == leader))
  }

  ghost predicate EverDeposed(c: Cluster, steps: seq<Step>, leader: PeerId, term: u64) {
    steps != [] &&
      var front := steps[..|steps| - 1];
      EverDeposed(c, front, leader, term) || Deposes(Exec(c, front), steps[|steps| - 1], leader, term)
  }

  predicate DeposedAt(c: Cluster, steps: seq<Step>, i: nat, leader: PeerId, term: u64) {
    i < |steps| && Deposes(Exec(c, steps[..i]), steps[i], leader, term)
  }

  lemma DeposedAtFront(c: Cluster, steps: seq<Step>, i: nat, leader: PeerId, term: u64)
    requires i + 1 < |steps|
    ensures DeposedAt(c, steps[..|steps| - 1], i, leader, term) <==> DeposedAt(c, steps, i, leader, term)
  {
    assert steps[..|steps| - 1][..i] == steps[..i];
  }

  lemma {:induction false} EverDeposedMeansSomeStep(c: Cluster, steps: seq<Step>, leader: PeerId, term: u64)
    ensures EverDeposed(c, steps, leader, term) <==> exists i: nat :: DeposedAt(c, steps, i, leader, term)
  {
    if steps != [] {
      var n := |steps| - 1;
      EverDeposedMeansSomeStep(c, steps[..n], leader, term);
      forall i: nat | i < n
        ensures DeposedAt(c, steps[..n], i, leader, term) <==> DeposedAt(c, steps, i, leader, term)
      {
        DeposedAtFront(c, steps, i, leader, term);
      }
      assert DeposedAt(c, steps, n, leader, term) <==> Deposes(Exec(c, steps[..n]), steps[n], leader, term);
    }
  }

  lemma LeadsOn(c: Cluster, leader: PeerId, step: Step, term: u64)
    requires leader in c.nodes && NodeAssigned(c, leader, leader) && Undisturbed(leader, step)
    ensures Leads(Apply(c, step), leader, term) <==> Leads(c, leader, term) && !Deposes(c, step, leader, term)
  {
    if Possible(c, step) && NodeOf(step) == leader {
      TraceLeadsOn(c, leader, step, term);
    }
  }

  lemma TraceLeadsOn(c: Cluster, leader: PeerId, step: Step, term: u64)
    requires Possible(c, step) && NodeOf(step) == leader
    requires NodeAssigned(c, leader, leader) && Undisturbed(leader, step)
    ensures var s := TraceAfter(c, step).state;
            s.role == Leader && s.currentTerm == term <==> Leads(c, leader, term) && !Deposes(c, step, leader, term)
  {
    if EventOf(step).Some? {
      var s, e := c.nodes[leader].state, EventOf(step).value;
      N.AssignedLeaderUnseatedExactly(leader, RecoveryOf(step), s, e);
      assert s.currentTerm == term ==> (N.Unseats(leader, s, e) <==> Deposes(c, step, leader, term));
    }
  }

  /** An assigned leader leads on exactly as long as no vote request, vote response
      or heartbeat in its own name of a later term reaches it; after that nobody
      leads, although everyone still follows it, until the next assignment. */
  lemma {:induction false} AssignedLeaderLeadsExactly(c: Cluster, leader: PeerId, steps: seq<Step>, term: u64)
    requires AllAssigned(c, leader) && Leads(c, leader, term)
    requires forall step | step in steps :: Undisturbed(leader, step)
    ensures var d := Exec(c, steps);
            && (Leads(d, leader, term) <==> !EverDeposed(c, steps, leader, term))
            && (EverDeposed(c, steps, leader, term) <==> forall p | p in c.nodes :: d.nodes[p].state.role == Follower)
            && forall p | p in c.nodes :: d.nodes[p].state.leaderId == Some(leader)
  {
    AssignmentHolds(c, leader, steps);
    LeadsUnlessDeposed(c, leader, steps, term);
    if EverDeposed(c, steps, leader, term) {
      Silenced(c, leader, steps, term);
    } else {
      assert Exec(c, steps).nodes[leader].state.role == Leader;
    }
  }

  lemma {:induction false} LeadsUnlessDeposed(c: Cluster, leader: PeerId, steps: seq<Step>, term: u64)
    requires AllAssigned(c, leader) && Leads(c, leader, term)
    requires forall step | step in steps :: Undisturbed(leader, step)
    ensures Leads(Exec(c, steps), leader, term) <==> !EverDeposed(c, steps, leader, term)
  {
    if steps != [] {
      var front, last := steps[..|steps| - 1], steps[|steps| - 1];
      forall step | step in front ensures Undisturbed(leader, step) { assert step in steps; }
      LeadsUnlessDeposed(c, leader, front, term);
      AssignmentHolds(c, leader, front);
      assert last in steps && NodeAssigned(Exec(c, front), leader, leader);
      LeadsOn(Exec(c, front), leader, last, term);
    }
  }

  lemma {:induction false} Silenced(c: Cluster, leader: PeerId, steps: seq<Step>, term: u64)
    requires AllAssigned(c, leader) && Leads(c, leader, term) && EverDeposed(c, steps, leader, term)
    requires forall step | step in steps :: Undisturbed(leader, step)
    ensures forall p | p in c.nodes :: Exec(c, steps).nodes[p].state.role == Follower
  {
    var front, last := steps[..|steps| - 1], steps[|steps| - 1];
    var before := Exec(c, front);
    forall step | step in front ensures Undisturbed(leader, step) { assert step in steps; }
    AssignmentHolds(c, leader, front);
    AssignmentHolds(c, leader, steps);
    assert last in steps && NodeAssigned(before, leader, leader);
    AssignedStep(before, leader, last);
    if EverDeposed(c, front, leader, term) {
      Silenced(c, leader, front, term);
    } else {
      LeadsUnlessDeposed(c, leader, front, term);
      DeposedFollows(before, leader, last, term);
    }
  }

  lemma DeposedFollows(c: Cluster, leader: PeerId, step: Step, term: u64)
    requires Leads(c, leader, term) && NodeAssigned(c, leader, leader) && Deposes(c, step, leader, term)
    ensures Apply(c, step).nodes[leader].state.role == Follower
  {
  }
}
