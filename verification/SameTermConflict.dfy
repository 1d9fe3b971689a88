/** How several leaders of one term sort themselves out by each other's heartbeats. */
module SameTermConflict {
  import opened Types
  import opened Cluster

  ghost predicate Rivals(c: Cluster, term: u64, rivals: set<PeerId>) {
    && (forall p :: p in rivals <==> Leads(c, p, term))
    && (forall p | p in rivals :: !c.nodes[p].state.manualOverride)
  }

  /** The delivery of a heartbeat some rival sent in this term. */
  predicate RivalHeartbeat(rivals: set<PeerId>, term: u64, step: Step) {
    && step.Deliver? && step.envelope.msg.Heartbeat? && step.envelope.msg.term == term
    && step.envelope.msg.leaderId in rivals
  }

  /** The step brings `p` a heartbeat from a rival with a greater identifier. */
  predicate Overrules(c: Cluster, step: Step, p: PeerId) {
    step.Deliver? && step.envelope.msg.Heartbeat? && step.envelope in c.network
    && step.envelope.dst == p && Less(p, step.envelope.msg.leaderId)
  }

  ghost predicate SomeoneOverrules(c: Cluster, steps: seq<Step>, p: PeerId) {
    exists step | step in steps :: Overrules(c, step, p)
  }

  lemma OneHeartbeat(c: Cluster, term: u64, rivals: set<PeerId>, step: Step, p: PeerId)
    requires RivalHeartbeat(rivals, term, step) && p in c.nodes
    requires c.nodes[p].state.currentTerm == term && !c.nodes[p].state.manualOverride
    ensures var d := Apply(c, step);
            && d.network == c.network
            && d.nodes[p].state.currentTerm == term && !d.nodes[p].state.manualOverride
            && (Leads(d, p, term) <==> Leads(c, p, term) && !Overrules(c, step, p))
  {
  }

  /** Whatever rival heartbeats are delivered in whatever order, a rival still
      leads exactly if none of those it received names a greater identifier. */
  lemma {:induction false} SurvivorsExactly(c: Cluster, term: u64, rivals: set<PeerId>, steps: seq<Step>, p: PeerId)
    requires Rivals(c, term, rivals) && p in rivals
    requires forall step | step in steps :: RivalHeartbeat(rivals, term, step)
    ensures var d := Exec(c, steps);
            && d.network == c.network
            && d.nodes[p].state.currentTerm == term && !d.nodes[p].state.manualOverride
            && (Leads(d, p, term) <==> !SomeoneOverrules(c, steps, p))
  {
    if steps != [] {
      var front, last := steps[..|steps| - 1], steps[|steps| - 1];
      forall step | step in front ensures RivalHeartbeat(rivals, term, step) { assert step in steps; }
      SurvivorsExactly(c, term, rivals, front, p);
      assert last in steps;
      OneHeartbeat(Exec(c, front), term, rivals, last, p);
      assert Overrules(Exec(c, front), last, p) <==> Overrules(c, last, p);
      forall step | step in steps && step !in front ensures step == last {}
      assert SomeoneOverrules(c, steps, p) <==> SomeoneOverrules(c, front, p) || Overrules(c, last, p) by {
        assert forall step :: step in steps <==> step in front || step == last;
      }
    }
  }

  /** No rival heartbeat makes a leader of this term out of a node that was none. */
  lemma {:induction false} NoNewLeader(c: Cluster, term: u64, rivals: set<PeerId>, steps: seq<Step>, p: PeerId)
    requires Rivals(c, term, rivals)
    requires forall step | step in steps :: RivalHeartbeat(rivals, term, step)
    requires Leads(Exec(c, steps), p, term)
    ensures p in rivals
  {
    if steps != [] {
      var front, last := steps[..|steps| - 1], steps[|steps| - 1];
      forall step | step in front ensures RivalHeartbeat(rivals, term, step) { assert step in steps; }
      assert last in steps;
      HeartbeatMakesNoLeader(Exec(c, front), term, rivals, last, p);
      NoNewLeader(c, term, rivals, front, p);
    }
  }

  lemma HeartbeatMakesNoLeader(c: Cluster, term: u64, rivals: set<PeerId>, step: Step, p: PeerId)
    requires RivalHeartbeat(rivals, term, step) && Leads(Apply(c, step), p, term)
    ensures Leads(c, p, term)
  {
  }

  /** The greatest rival never yields, the leaders of the term only become fewer,
      and once its heartbeat has reached the others it is the only one left. */
  lemma GreatestRivalPrevails(c: Cluster, term: u64, rivals: set<PeerId>, greatest: PeerId, steps: seq<Step>)
    requires Rivals(c, term, rivals) && IsGreatest(greatest, rivals)
    requires forall step | step in steps :: RivalHeartbeat(rivals, term, step)
    ensures Leads(Exec(c, steps), greatest, term)
    ensures forall p | Leads(Exec(c, steps), p, term) :: Leads(c, p, term)
    ensures (forall p | p in rivals && p != greatest ::
               exists step | step in steps :: Overrules(c, step, p) && step.envelope.msg.leaderId == greatest)
            ==> forall p | Leads(Exec(c, steps), p, term) :: p == greatest
  {
    SurvivorsExactly(c, term, rivals, steps, greatest);
    forall step | step in steps ensures !Overrules(c, step, greatest) {
      assert RivalHeartbeat(rivals, term, step);
      if step.envelope.msg.leaderId == greatest {
        LessIrreflexive(greatest);
      } else {
        LessAsymmetric(step.envelope.msg.leaderId, greatest);
      }
    }
    forall p | Leads(Exec(c, steps), p, term)
      ensures p in rivals && !SomeoneOverrules(c, steps, p)
    {
      NoNewLeader(c, term, rivals, steps, p);
      SurvivorsExactly(c, term, rivals, steps, p);
    }
  }
}
