/** A run of three nodes, from the start, in which every node has the same leader
    assigned by hand and no node leads. */
module SilencedLeader {
  import opened Types
  import opened ElectionRules
  import N = NodeRuns
  import opened Cluster
  import opened QuorumExactness
  import opened HeartbeatRace
  import opened ManualRegime

  function Order(a: PeerId, dst: PeerId): Step {
    Deliver(Envelope(a, dst, LeaderAssign(1, a, a)), 2)
  }

  /** `b` has stood twice in vain and everybody else is as at the start. */
  predicate Stood(c: Cluster, a: PeerId, b: PeerId, v: PeerId) {
    && c.nodes.Keys == {a, b, v} && a != b && b != v && a != v
    && Fresh(c, a) && Fresh(c, v) && StandsAgain(c, b)
    && Envelope(b, a, RequestVote(2, b)) in c.network
  }

  lemma AssignSelf(c: Cluster, a: PeerId, b: PeerId, v: PeerId)
    requires Stood(c, a, b, v)
    ensures var d := Apply(c, AssignLeader(a, a));
            && Leads(d, a, 1) && d.nodes.Keys == c.nodes.Keys && c.network <= d.network
            && Order(a, b).envelope in d.network && Order(a, v).envelope in d.network
  {
  }

  lemma OthersInformed(c: Cluster, a: PeerId, b: PeerId, v: PeerId)
    requires Stood(c, a, b, v)
    ensures var c1, steps := Apply(c, AssignLeader(a, a)), [Order(a, b), Order(a, v)];
            forall p | p in c.nodes && p != a :: Informed(c1, steps, p)
  {
    var c1, steps := Apply(c, AssignLeader(a, a)), [Order(a, b), Order(a, v)];
    AssignSelf(c, a, b, v);
    assert steps[0] in steps && steps[1] in steps;
    assert Informs(c1, Order(a, b), b) && Informs(c1, Order(a, v), v);
  }

  lemma RegimeInForce(c: Cluster, a: PeerId, b: PeerId, v: PeerId)
    requires Stood(c, a, b, v)
    ensures AllAssigned(Exec(Apply(c, AssignLeader(a, a)), [Order(a, b), Order(a, v)]), a)
  {
    forall p | p in c.nodes ensures N.RoleInvariant(p, c.nodes[p].state) {
      assert p == a || p == b || p == v;
    }
    OthersInformed(c, a, b, v);
    AssignmentTakesHold(c, a, a, [Order(a, b), Order(a, v)]);
  }

  lemma Undelivered(c: Cluster, a: PeerId, b: PeerId, v: PeerId)
    requires a in c.nodes && b != a && v != a
    ensures var d := Exec(c, [Order(a, b), Order(a, v)]);
            a in d.nodes && d.nodes[a] == c.nodes[a] && c.network <= d.network
  {
    Untouched(c, a, b);
    Untouched(Apply(c, Order(a, b)), a, v);
    ExecSnoc(c, [], Order(a, b));
    ExecSnoc(c, [Order(a, b)], Order(a, v));
    assert [] + [Order(a, b)] == [Order(a, b)] && [Order(a, b)] + [Order(a, v)] == [Order(a, b), Order(a, v)];
  }

  /** The others are told; the leader is not disturbed by that. */
  lemma TellOthers(c: Cluster, a: PeerId, b: PeerId, v: PeerId)
    requires Stood(c, a, b, v)
    ensures var d := Exec(Apply(c, AssignLeader(a, a)), [Order(a, b), Order(a, v)]);
            AllAssigned(d, a) && Leads(d, a, 1) && Envelope(b, a, RequestVote(2, b)) in d.network
  {
    AssignSelf(c, a, b, v);
    RegimeInForce(c, a, b, v);
    Undelivered(Apply(c, AssignLeader(a, a)), a, b, v);
  }

  lemma Untouched(c: Cluster, a: PeerId, dst: PeerId)
    requires a in c.nodes && dst != a
    ensures var d := Apply(c, Order(a, dst)); a in d.nodes && d.nodes[a] == c.nodes[a] && c.network <= d.network
  {
  }

  /** The first part of the run puts the regime in force with `a` leading; the last
      step delivers an old vote request, and from then on nobody leads. */
  lemma AssignedLeaderCanBeSilenced(ids: set<PeerId>, a: PeerId, b: PeerId) returns (steps: seq<Step>, last: Step)
    requires |ids| == 3 && a in ids && b in ids && a != b
    ensures var c := Exec(Start(ids), steps);
            AllAssigned(c, a) && Leads(c, a, 1) && Undisturbed(a, last) && Deposes(c, last, a, 1)
    ensures var d := Exec(Start(ids), steps + [last]);
            AllAssigned(d, a) && forall p | p in ids :: d.nodes[p].state.role == Follower
  {
    var c0 := Start(ids);
    assert |ids - {a, b}| == 1;
    var v :| v in ids - {a, b};
    assert |ids - {a, b} - {v}| == 0;
    assert ids == {a, b, v};
    var first := StandTwice(c0, b);
    var c := Exec(c0, first);
    assert Stood(c, a, b, v);
    TellOthers(c, a, b, v);
    var rest := [Order(a, b), Order(a, v)];
    last := Deliver(Envelope(b, a, RequestVote(2, b)), 2);
    ExecSnoc(c0, first, AssignLeader(a, a));
    ExecConcat(c0, first + [AssignLeader(a, a)], rest);
    steps := first + [AssignLeader(a, a)] + rest;
    ExecSnoc(c0, steps, last);
    AssignedStep(Exec(c0, steps), a, last);
    DeposedFollows(Exec(c0, steps), a, last, 1);
    AllFollow(Exec(c0, steps + [last]), a);
  }

  lemma AllFollow(c: Cluster, a: PeerId)
    requires AllAssigned(c, a) && (a in c.nodes ==> c.nodes[a].state.role == Follower)
    ensures forall p | p in c.nodes :: c.nodes[p].state.role == Follower
  {
    forall p | p in c.nodes ensures c.nodes[p].state.role == Follower { assert NodeAssigned(c, p, a); }
  }
}
