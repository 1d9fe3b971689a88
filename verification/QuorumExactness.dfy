/** The quorum condition of election safety is exact. If every tally counts `k`
    connected peers, two nodes can lead in one term if and only if the threshold
    for `k` is not a strict majority of the cluster. */
module QuorumExactness {
  import opened Types
  import opened ElectionRules
  import N = NodeRuns
  import opened Cluster
  import opened ElectionSafety

  /** Elections only, and every tally sees `k` connected peers. */
  predicate Uniform(k: nat, step: Step) {
    Unassisted(step) && (step.ElectionTimeout? || step.Deliver? ==> step.peers == k)
  }

  ghost predicate AllUniform(k: nat, steps: seq<Step>) {
    forall step | step in steps :: Uniform(k, step)
  }

  ghost predicate OverflowFree(c: Cluster, steps: seq<Step>) {
    steps != [] ==>
      var front := steps[..|steps| - 1];
      OverflowFree(c, front) && !OverflowsTerm(Exec(c, front), steps[|steps| - 1])
  }

  ghost predicate NeverTwoLeaders(ids: set<PeerId>, k: nat) {
    forall steps, p, q, term
      {:trigger Leads(Exec(Start(ids), steps), p, term), Leads(Exec(Start(ids), steps), q, term)} ::
      && AllUniform(k, steps) && OverflowFree(Start(ids), steps)
      && Leads(Exec(Start(ids), steps), p, term) && Leads(Exec(Start(ids), steps), q, term)
      ==> p == q
  }

  // --- a majority threshold is enough ----------------------------------------

  lemma UniformStepIsAutomatic(c: Cluster, k: nat, step: Step)
    requires 2 * MajorityThreshold(1 + k) > |c.nodes.Keys| && Uniform(k, step) && !OverflowsTerm(c, step)
    ensures AutomaticStep(c, step)
  {
  }

  lemma {:induction false} UniformRunIsAutomatic(ids: set<PeerId>, k: nat, steps: seq<Step>)
    requires 2 * MajorityThreshold(1 + k) > |ids|
    requires AllUniform(k, steps) && OverflowFree(Start(ids), steps)
    ensures AutomaticRun(Start(ids), steps)
  {
    if steps != [] {
      var front, last := steps[..|steps| - 1], steps[|steps| - 1];
      forall step | step in front ensures Uniform(k, step) { assert step in steps; }
      UniformRunIsAutomatic(ids, k, front);
      assert last in steps;
      UniformStepIsAutomatic(Exec(Start(ids), front), k, last);
    }
  }

  lemma MajorityIsEnough(ids: set<PeerId>, k: nat)
    requires 2 * MajorityThreshold(1 + k) > |ids|
    ensures NeverTwoLeaders(ids, k)
  {
    forall steps, p, q, term | AllUniform(k, steps) && OverflowFree(Start(ids), steps)
                               && Leads(Exec(Start(ids), steps), p, term) && Leads(Exec(Start(ids), steps), q, term)
      ensures p == q
    {
      UniformRunIsAutomatic(ids, k, steps);
      assert steps[..|steps|] == steps;
      LeadersOfATermAgree(ids, steps);
      assert LedAfter(ids, steps, |steps|, p, term) && LedAfter(ids, steps, |steps|, q, term);
    }
  }

  // --- without one, two nodes can win the same term --------------------------

  predicate Fresh(c: Cluster, v: PeerId) {
    v in c.nodes && c.nodes[v].state == Initial(true)
  }

  /** `v` has not reached `term`. */
  predicate Older(c: Cluster, v: PeerId, term: u64) {
    v in c.nodes && c.nodes[v].state.currentTerm < term
  }

  predicate CanOpen(c: Cluster, p: PeerId) {
    p in c.nodes && N.CanStart(c.nodes[p].state) && c.nodes[p].state.currentTerm < U64_MAX
  }

  predicate Asked(c: Cluster, candidate: PeerId, voter: PeerId, term: u64) {
    Envelope(candidate, voter, RequestVote(term, candidate)) in c.network
  }

  /** `p` stands in `term` with these votes. */
  predicate Stands(c: Cluster, p: PeerId, term: u64, votes: set<PeerId>) {
    && p in c.nodes && c.nodes[p].state.role == Candidate
    && c.nodes[p].state.currentTerm == term && c.nodes[p].state.votesReceived == votes
  }

  ghost predicate AskedAll(c: Cluster, p: PeerId, term: u64) {
    forall v {:trigger Asked(c, p, v, term)} | v in c.nodes && v != p :: Asked(c, p, v, term)
  }

  /** The run changes only the nodes in `who` and takes no message back. */
  predicate Touches(c: Cluster, d: Cluster, who: set<PeerId>) {
    && d.nodes.Keys == c.nodes.Keys && c.network <= d.network
    && forall v | v in c.nodes && v !in who :: d.nodes[v] == c.nodes[v]
  }

  lemma Joined(c: Cluster, k: nat, a: seq<Step>, b: seq<Step>)
    requires AllUniform(k, a) && OverflowFree(c, a)
    requires AllUniform(k, b) && OverflowFree(Exec(c, a), b)
    ensures AllUniform(k, a + b) && OverflowFree(c, a + b) && Exec(c, a + b) == Exec(Exec(c, a), b)
    decreases |b|
  {
    ExecConcat(c, a, b);
    if b == [] {
      assert a + b == a;
    } else {
      var front := b[..|b| - 1];
      assert (a + b)[..|a + b| - 1] == a + front;
      forall step | step in front ensures Uniform(k, step) { assert step in b; }
      Joined(c, k, a, front);
    }
  }

  lemma Single(c: Cluster, k: nat, step: Step)
    requires Uniform(k, step) && !OverflowsTerm(c, step)
    ensures AllUniform(k, [step]) && OverflowFree(c, [step]) && Exec(c, [step]) == Apply(c, step)
  {
    assert [step][..0] == [];
  }

  /** A node that may stand opens its next term; if it is not alone it asks everybody else. */
  lemma Stand(c: Cluster, k: nat, p: PeerId) returns (steps: seq<Step>)
    requires CanOpen(c, p)
    ensures AllUniform(k, steps) && OverflowFree(c, steps)
    ensures var d, term := Exec(c, steps), c.nodes[p].state.currentTerm + 1;
            && Touches(c, d, {p}) && N.CanStart(d.nodes[p].state)
            && (MajorityThreshold(1 + k) == 1 ==> Leads(d, p, term))
            && (MajorityThreshold(1 + k) > 1 ==> Stands(d, p, term, {p}) && AskedAll(d, p, term))
  {
    steps := [ElectionTimeout(p, k)];
    Single(c, k, ElectionTimeout(p, k));
    Opened(c, k, p);
  }

  lemma Opened(c: Cluster, k: nat, p: PeerId)
    requires CanOpen(c, p)
    ensures var d, term := Apply(c, ElectionTimeout(p, k)), c.nodes[p].state.currentTerm + 1;
            && Touches(c, d, {p}) && N.CanStart(d.nodes[p].state)
            && (MajorityThreshold(1 + k) == 1 ==> Leads(d, p, term))
            && (MajorityThreshold(1 + k) > 1 ==> Stands(d, p, term, {p}) && AskedAll(d, p, term))
  {
  }

  /** One asked node of an older term votes for `p`, and its response arrives. */
  lemma Vote(c: Cluster, k: nat, p: PeerId, term: u64, votes: set<PeerId>, v: PeerId) returns (steps: seq<Step>)
    requires Stands(c, p, term, votes) && Older(c, v, term) && Asked(c, p, v, term) && v !in votes && v != p
    ensures AllUniform(k, steps) && OverflowFree(c, steps)
    ensures var d := Exec(c, steps);
            && Touches(c, d, {p, v}) && Granted(c, d, v, term)
            && After(d, k, p, term, votes + {v})
  {
    var request := Deliver(Envelope(p, v, RequestVote(term, p)), k);
    var response := Deliver(Envelope(v, p, VoteResponse(term, v, true)), k);
    Voted(c, k, p, term, v);
    Single(c, k, request);
    Counted(Apply(c, request), k, p, term, votes, v);
    Single(Apply(c, request), k, response);
    Joined(c, k, [request], [response]);
    steps := [request] + [response];
  }

  /** `p` leads if `votes` are enough, and otherwise still stands with them. */
  predicate After(c: Cluster, k: nat, p: PeerId, term: u64, votes: set<PeerId>) {
    if |votes| >= MajorityThreshold(1 + k) then Leads(c, p, term) else Stands(c, p, term, votes)
  }

  /** `v` has become a Follower in `term`, and an override has neither come nor gone. */
  predicate Granted(c: Cluster, d: Cluster, v: PeerId, term: u64) {
    && v in c.nodes && v in d.nodes
    && d.nodes[v].state.currentTerm == term && d.nodes[v].state.role == Follower
    && d.nodes[v].state.manualOverride == c.nodes[v].state.manualOverride
  }

  lemma Voted(c: Cluster, k: nat, p: PeerId, term: u64, v: PeerId)
    requires Older(c, v, term) && Asked(c, p, v, term) && v != p
    ensures var d := Apply(c, Deliver(Envelope(p, v, RequestVote(term, p)), k));
            && Touches(c, d, {v}) && Envelope(v, p, VoteResponse(term, v, true)) in d.network
            && Granted(c, d, v, term)
  {
  }

  lemma Counted(c: Cluster, k: nat, p: PeerId, term: u64, votes: set<PeerId>, v: PeerId)
    requires Stands(c, p, term, votes) && v !in votes && Envelope(v, p, VoteResponse(term, v, true)) in c.network
    ensures var d := Apply(c, Deliver(Envelope(v, p, VoteResponse(term, v, true)), k));
            Touches(c, d, {p}) && After(d, k, p, term, votes + {v})
  {
    assert |votes + {v}| == |votes| + 1;
  }

  /** A standing candidate collects the missing votes from older nodes it has asked. */
  lemma {:induction false} Elect(c: Cluster, k: nat, p: PeerId, term: u64, votes: set<PeerId>, voters: set<PeerId>)
    returns (steps: seq<Step>)
    requires Stands(c, p, term, votes) && p in votes && votes !! voters && voters != {}
    requires |votes| + |voters| == MajorityThreshold(1 + k)
    requires forall v | v in voters :: Older(c, v, term) && Asked(c, p, v, term)
    ensures AllUniform(k, steps) && OverflowFree(c, steps)
    ensures var d := Exec(c, steps);
            && Leads(d, p, term) && Touches(c, d, voters + {p})
            && forall v {:trigger Granted(c, d, v, term)} | v in voters :: Granted(c, d, v, term)
    decreases |voters|
  {
    var v :| v in voters;
    var first := Vote(c, k, p, term, votes, v);
    var d := Exec(c, first);
    assert |voters - {v}| == |voters| - 1;
    assert |votes + {v}| == |votes| + 1 && voters == voters - {v} + {v};
    if voters == {v} {
      steps := first;
    } else {
      forall u | u in voters - {v} ensures Older(d, u, term) && Asked(d, p, u, term) {
        assert Older(c, u, term) && Asked(c, p, u, term) && d.nodes[u] == c.nodes[u];
      }
      var rest := Elect(d, k, p, term, votes + {v}, voters - {v});
      Joined(c, k, first, rest);
      steps := first + rest;
      GrantsAdd(c, d, Exec(d, rest), term, v, voters - {v}, p);
    }
  }

  lemma GrantsAdd(c: Cluster, d: Cluster, e: Cluster, term: u64, v: PeerId, others: set<PeerId>, p: PeerId)
    requires Touches(c, d, {p, v}) && Touches(d, e, others + {p}) && v !in others && v != p && p !in others
    requires Granted(c, d, v, term)
    requires forall u {:trigger Granted(d, e, u, term)} | u in others :: Granted(d, e, u, term)
    ensures Touches(c, e, others + {v} + {p})
    ensures forall u {:trigger Granted(c, e, u, term)} | u in others + {v} :: Granted(c, e, u, term)
  {
    forall u | u in others ensures Granted(c, e, u, term) { assert Granted(d, e, u, term) && d.nodes[u] == c.nodes[u]; }
  }

  lemma {:induction false} PickSubset(s: set<PeerId>, m: nat) returns (a: set<PeerId>)
    requires m <= |s|
    ensures a <= s && |a| == m
    decreases m
  {
    if m == 0 {
      a := {};
    } else {
      var x :| x in s;
      assert |s - {x}| == |s| - 1;
      var rest := PickSubset(s - {x}, m - 1);
      a := rest + {x};
    }
  }

  /** A node that may stand wins its next term with the votes of `a`, none of which
      is in a later term than itself, touching no node outside `a`. */
  lemma Campaign(c: Cluster, k: nat, p: PeerId, a: set<PeerId>) returns (steps: seq<Step>)
    requires CanOpen(c, p) && p in a && |a| == MajorityThreshold(1 + k)
    requires forall v | v in a :: v in c.nodes && c.nodes[v].state.currentTerm <= c.nodes[p].state.currentTerm
    ensures AllUniform(k, steps) && OverflowFree(c, steps)
    ensures Leads(Exec(c, steps), p, c.nodes[p].state.currentTerm + 1) && Touches(c, Exec(c, steps), a)
  {
    var term := c.nodes[p].state.currentTerm + 1;
    var first := Stand(c, k, p);
    assert |a - {p}| == |a| - 1;
    if a == {p} {
      steps := first;
    } else {
      assert a - {p} != {};
      assert |{p}| == 1;
      var d := Exec(c, first);
      forall v | v in a - {p} ensures Older(d, v, term) && Asked(d, p, v, term) { assert d.nodes[v] == c.nodes[v]; }
      var rest := Elect(d, k, p, term, {p}, a - {p});
      Joined(c, k, first, rest);
      steps := first + rest;
    }
  }

  lemma TwoLeaders(ids: set<PeerId>, k: nat)
    requires 2 * MajorityThreshold(1 + k) <= |ids|
    ensures !NeverTwoLeaders(ids, k)
  {
    var m := MajorityThreshold(1 + k);
    var a := PickSubset(ids, m);
    assert |ids - a| == |ids| - |a|;
    var b := PickSubset(ids - a, m);
    var p :| p in a;
    var q :| q in b;
    var c := Start(ids);
    var first := Campaign(c, k, p, a);
    var rest := Campaign(Exec(c, first), k, q, b);
    Joined(c, k, first, rest);
    var d := Exec(c, first + rest);
    assert Leads(d, p, 1) && Leads(d, q, 1) && p != q;
  }

  lemma QuorumConditionIsExact(ids: set<PeerId>, k: nat)
    ensures NeverTwoLeaders(ids, k) <==> 2 * MajorityThreshold(1 + k) > |ids|
  {
    if 2 * MajorityThreshold(1 + k) > |ids| {
      MajorityIsEnough(ids, k);
    } else {
      TwoLeaders(ids, k);
    }
  }

  /** A cluster whose nodes all count each other is safe unless it has exactly two nodes. */
  lemma OnlyPairsAreUnsafe(ids: set<PeerId>)
    requires ids != {}
    ensures NeverTwoLeaders(ids, |ids| - 1) <==> |ids| != 2
  {
    QuorumConditionIsExact(ids, |ids| - 1);
    ThresholdIsMajority(|ids|);
  }
}
