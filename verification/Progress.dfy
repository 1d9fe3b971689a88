/** Elections never get stuck: after every automatic run, any node that may stand can
    still become a leader whom everybody else follows. */
module Progress {
  import opened Types
  import opened ElectionRules
  import N = NodeRuns
  import opened Cluster
  import opened ElectionSafety
  import opened Following
  import opened QuorumExactness

  // --- any node can win ------------------------------------------------------

  /** A candidate whose first votes are too few keeps timing out until it stands in `term`. */
  lemma {:induction false} StandIn(c: Cluster, k: nat, p: PeerId, term: u64) returns (steps: seq<Step>)
    requires k >= 2 && CanOpen(c, p) && c.nodes[p].state.currentTerm < term
    ensures AllUniform(k, steps) && OverflowFree(c, steps)
    ensures Touches(c, Exec(c, steps), {p}) && Stands(Exec(c, steps), p, term, {p}) && AskedAll(Exec(c, steps), p, term)
    decreases term - c.nodes[p].state.currentTerm
  {
    var first := Stand(c, k, p);
    if c.nodes[p].state.currentTerm + 1 == term {
      steps := first;
    } else {
      var rest := StandIn(Exec(c, first), k, p, term);
      Joined(c, k, first, rest);
      steps := first + rest;
    }
  }

  /** `v` would accept a heartbeat of `term`. */
  predicate Willing(c: Cluster, v: PeerId, term: u64) {
    && v in c.nodes && !c.nodes[v].state.manualOverride && c.nodes[v].state.currentTerm <= term
    && (c.nodes[v].state.currentTerm == term ==> c.nodes[v].state.role != Leader)
  }

  predicate ToldOf(c: Cluster, p: PeerId, v: PeerId, term: u64) {
    Envelope(p, v, Heartbeat(term, p)) in c.network
  }

  ghost predicate AllReady(c: Cluster, p: PeerId, term: u64, rest: set<PeerId>) {
    forall v {:trigger Willing(c, v, term)} | v in rest :: Willing(c, v, term) && ToldOf(c, p, v, term)
  }

  lemma StillReady(c: Cluster, d: Cluster, p: PeerId, term: u64, rest: set<PeerId>, v: PeerId)
    requires AllReady(c, p, term, rest) && Touches(c, d, {v})
    ensures AllReady(d, p, term, rest - {v})
  {
    forall u | u in rest - {v} ensures Willing(d, u, term) && ToldOf(d, p, u, term) {
      assert Willing(c, u, term) && d.nodes[u] == c.nodes[u];
    }
  }

  lemma HeartbeatTaken(c: Cluster, k: nat, p: PeerId, v: PeerId, term: u64)
    requires Willing(c, v, term) && ToldOf(c, p, v, term)
    ensures var d := Apply(c, Deliver(Envelope(p, v, Heartbeat(term, p)), k));
            Touches(c, d, {v}) && Follows(d, v, p, term)
  {
  }

  lemma TellOne(c: Cluster, k: nat, p: PeerId, term: u64, v: PeerId) returns (steps: seq<Step>)
    requires Willing(c, v, term) && ToldOf(c, p, v, term)
    ensures AllUniform(k, steps) && OverflowFree(c, steps)
    ensures Touches(c, Exec(c, steps), {v}) && Follows(Exec(c, steps), v, p, term)
  {
    var step := Deliver(Envelope(p, v, Heartbeat(term, p)), k);
    HeartbeatTaken(c, k, p, v, term);
    Single(c, k, step);
    steps := [step];
  }

  /** Heartbeats delivered to all of `rest` make all of them follow. */
  lemma {:induction false} TellAll(c: Cluster, k: nat, p: PeerId, term: u64, rest: set<PeerId>)
    returns (steps: seq<Step>)
    requires AllReady(c, p, term, rest)
    ensures AllUniform(k, steps) && OverflowFree(c, steps)
    ensures var d := Exec(c, steps);
            Touches(c, d, rest) && forall v {:trigger Follows(d, v, p, term)} | v in rest :: Follows(d, v, p, term)
    decreases |rest|
  {
    if rest == {} {
      steps := [];
    } else {
      var v :| v in rest;
      assert Willing(c, v, term);
      var first := TellOne(c, k, p, term, v);
      var d := Exec(c, first);
      StillReady(c, d, p, term, rest, v);
      var others := TellAll(d, k, p, term, rest - {v});
      Joined(c, k, first, others);
      steps := first + others;
      FollowersAdd(c, d, Exec(d, others), p, v, term, rest - {v});
      assert rest - {v} + {v} == rest;
    }
  }

  lemma FollowersAdd(c: Cluster, d: Cluster, e: Cluster, p: PeerId, v: PeerId, term: u64, others: set<PeerId>)
    requires Touches(c, d, {v}) && Touches(d, e, others) && v !in others && Follows(d, v, p, term)
    requires forall u {:trigger Follows(e, u, p, term)} | u in others :: Follows(e, u, p, term)
    ensures Touches(c, e, others + {v})
    ensures forall u {:trigger Follows(e, u, p, term)} | u in others + {v} :: Follows(e, u, p, term)
  {
    assert e.nodes[v] == d.nodes[v];
  }

  /** A leader's heartbeat tick tells everybody else. */
  lemma Beat(c: Cluster, k: nat, p: PeerId, term: u64) returns (steps: seq<Step>)
    requires Leads(c, p, term)
    ensures AllUniform(k, steps) && OverflowFree(c, steps)
    ensures var d := Exec(c, steps); Touches(c, d, {}) && forall v | v in c.nodes && v != p :: ToldOf(d, p, v, term)
  {
    Single(c, k, HeartbeatCheck(p));
    Checked(c, p, term);
    var d := Apply(c, HeartbeatCheck(p));
    Single(d, k, HeartbeatSend(p));
    SentToAll(d, p, term);
    Joined(c, k, [HeartbeatCheck(p)], [HeartbeatSend(p)]);
    steps := [HeartbeatCheck(p)] + [HeartbeatSend(p)];
  }

  lemma Checked(c: Cluster, p: PeerId, term: u64)
    requires Leads(c, p, term)
    ensures var d := Apply(c, HeartbeatCheck(p)); Touches(c, d, {}) && p in d.armed && Leads(d, p, term)
  {
  }

  lemma SentToAll(c: Cluster, p: PeerId, term: u64)
    requires Leads(c, p, term) && p in c.armed
    ensures var d := Apply(c, HeartbeatSend(p));
            Touches(c, d, {}) && forall v | v in c.nodes && v != p :: ToldOf(d, p, v, term)
  {
  }

  /** `p` may stand, and nobody has reached `term` or is bound by an assignment. */
  ghost predicate Open(c: Cluster, p: PeerId, term: u64) {
    && CanOpen(c, p)
    && forall v {:trigger Older(c, v, term)} | v in c.nodes ::
         Older(c, v, term) && !c.nodes[v].state.manualOverride
  }

  /** `p` can win `term` with the votes of a majority, everybody else being left willing to follow. */
  lemma WinIn(c: Cluster, k: nat, p: PeerId, term: u64) returns (steps: seq<Step>)
    requires Open(c, p, term) && k >= 2 && 1 + k == |c.nodes.Keys|
    ensures AllUniform(k, steps) && OverflowFree(c, steps)
    ensures var d := Exec(c, steps);
            && Leads(d, p, term) && d.nodes.Keys == c.nodes.Keys
            && forall v {:trigger Willing(d, v, term)} | v in c.nodes && v != p :: Willing(d, v, term)
  {
    assert Older(c, p, term);
    var first := StandIn(c, k, p, term);
    var m := MajorityThreshold(1 + k);
    assert |c.nodes.Keys - {p}| == k;
    var voters := PickSubset(c.nodes.Keys - {p}, m - 1);
    var d := Exec(c, first);
    forall v | v in voters ensures Older(d, v, term) && Asked(d, p, v, term) {
      assert Older(c, v, term) && d.nodes[v] == c.nodes[v];
    }
    var rest := Elect(d, k, p, term, {p}, voters);
    Joined(c, k, first, rest);
    steps := first + rest;
    AllWilling(c, d, Exec(d, rest), p, term, voters);
  }

  lemma AllWilling(c: Cluster, d: Cluster, e: Cluster, p: PeerId, term: u64, voters: set<PeerId>)
    requires Open(c, p, term) && Touches(c, d, {p}) && Touches(d, e, voters + {p}) && p !in voters
    requires voters <= c.nodes.Keys
    requires forall v {:trigger Granted(d, e, v, term)} | v in voters :: Granted(d, e, v, term)
    ensures forall v {:trigger Willing(e, v, term)} | v in c.nodes && v != p :: Willing(e, v, term)
  {
    forall v | v in c.nodes && v != p ensures Willing(e, v, term) {
      assert Older(c, v, term) && d.nodes[v] == c.nodes[v];
      if v in voters { assert Granted(d, e, v, term); } else { assert e.nodes[v] == d.nodes[v]; }
    }
  }

  /** In a cluster of three or more, any node that may stand can come to lead any
      term later than all terms reached, and to be followed by everybody else. */
  lemma AnyNodeCanLeadAll(c: Cluster, p: PeerId, term: u64) returns (steps: seq<Step>)
    requires |c.nodes.Keys| >= 3 && Open(c, p, term)
    ensures AllUniform(|c.nodes.Keys| - 1, steps) && OverflowFree(c, steps)
    ensures var d := Exec(c, steps);
            d.nodes.Keys == c.nodes.Keys && AllFollow(d, p, term)
  {
    var k := |c.nodes.Keys| - 1;
    var first := WinIn(c, k, p, term);
    var d := Exec(c, first);
    var beat := Beat(d, k, p, term);
    Joined(c, k, first, beat);
    var e := Exec(d, beat);
    forall v | v in c.nodes.Keys - {p} ensures Willing(e, v, term) && ToldOf(e, p, v, term) {
      assert Willing(d, v, term) && e.nodes[v] == d.nodes[v];
    }
    assert AllReady(e, p, term, c.nodes.Keys - {p});
    var tell := TellAll(e, k, p, term, c.nodes.Keys - {p});
    Joined(c, k, first + beat, tell);
    steps := first + beat + tell;
  }

  // --- after any run ---------------------------------------------------------

  lemma {:induction false} UniformIsAutomaticOn(c: Cluster, past: seq<Step>, k: nat, steps: seq<Step>)
    requires AutomaticRun(c, past) && AllUniform(k, steps) && OverflowFree(Exec(c, past), steps)
    requires 2 * MajorityThreshold(1 + k) > |c.nodes.Keys|
    ensures AutomaticRun(c, past + steps)
  {
    if steps == [] {
      assert past + steps == past;
    } else {
      var front, last := steps[..|steps| - 1], steps[|steps| - 1];
      forall step | step in front ensures Uniform(k, step) { assert step in steps; }
      UniformIsAutomaticOn(c, past, k, front);
      ExecConcat(c, past, front);
      assert last in steps;
      UniformStepIsAutomatic(Exec(c, past + front), k, last);
      assert (past + steps)[..|past + steps| - 1] == past + front;
    }
  }

  lemma OpenAfterRun(c: Cluster, p: PeerId, bound: nat)
    requires AllFree(c) && p in c.nodes && c.nodes[p].state.autoElectionEnabled
    requires TermsWithin(c, bound) && bound < U64_MAX
    ensures Open(c, p, bound + 1)
  {
    assert Free(c, p);
    forall v | v in c.nodes ensures Older(c, v, bound + 1) && !c.nodes[v].state.manualOverride { assert Free(c, v); }
  }

  lemma Continued(ids: set<PeerId>, past: seq<Step>, steps: seq<Step>)
    requires |ids| >= 3 && AutomaticRun(Start(ids), past)
    requires AllUniform(|ids| - 1, steps) && OverflowFree(Exec(Start(ids), past), steps)
    ensures AutomaticRun(Start(ids), past + steps)
    ensures Exec(Start(ids), past + steps) == Exec(Exec(Start(ids), past), steps)
  {
    ThresholdIsMajority(|ids|);
    UniformIsAutomaticOn(Start(ids), past, |ids| - 1, steps);
    ExecConcat(Start(ids), past, steps);
  }

  /** Every automatic run of three or more nodes can go on, automatically, to one node's
      leading the next term after all terms reached, with everybody else following. */
  lemma AnyNodeCanLeadAllAfterAnyRun(ids: set<PeerId>, past: seq<Step>, p: PeerId, bound: nat)
    returns (steps: seq<Step>)
    requires |ids| >= 3 && p in ids && AutomaticRun(Start(ids), past)
    requires Exec(Start(ids), past).nodes[p].state.autoElectionEnabled
    requires TermsWithin(Exec(Start(ids), past), bound) && bound < U64_MAX
    ensures AutomaticRun(Start(ids), past + steps)
    ensures AllFollow(Exec(Start(ids), past + steps), p, bound + 1)
  {
    FreeInEveryRun(ids, past);
    OpenAfterRun(Exec(Start(ids), past), p, bound);
    steps := AnyNodeCanLeadAll(Exec(Start(ids), past), p, bound + 1);
    Continued(ids, past, steps);
  }
}
