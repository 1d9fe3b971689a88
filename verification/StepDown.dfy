/** When a leader gives up its role within its own term, exactly, over every
    automatic run, whether or not heartbeat reads are interleaved. */
module StepDown {
  import opened Types
  import opened ElectionRules
  import N = NodeRuns
  import opened Cluster
  import opened ElectionSafety
  import opened HeartbeatSafety

  /** The step brings a leader a heartbeat of its own term with a greater identifier. */
  predicate Overthrows(c: Cluster, step: Step) {
    && step.Deliver? && step.envelope in c.network && step.envelope.dst in c.nodes
    && var p, s, m := step.envelope.dst, c.nodes[step.envelope.dst].state, step.envelope.msg;
       && s.role == Leader && m.Heartbeat?
       && N.Outranks(p, s, N.Heartbeat(m.term, m.leaderId))
  }

  ghost predicate EverOverthrown(c: Cluster, steps: seq<Step>) {
    steps != [] &&
      var front := steps[..|steps| - 1];
      EverOverthrown(c, front) || Overthrows(Exec(c, front), steps[|steps| - 1])
  }

  /** `p` leads `term` or has gone on to a later one. */
  predicate LeadsOrPast(c: Cluster, p: PeerId, term: u64) {
    Leads(c, p, term) || (p in c.nodes && c.nodes[p].state.currentTerm > term)
  }

  lemma TraceStaysExactly(c: Cluster, step: Step)
    requires Safe(c) && AutomaticStep(c, step) && Possible(c, step)
    requires c.nodes[NodeOf(step)].state.role == Leader
    ensures var s, s1 := c.nodes[NodeOf(step)].state, TraceAfter(c, step).state;
            (s1.currentTerm > s.currentTerm || (s1.currentTerm == s.currentTerm && s1.role == Leader))
              <==> !Overthrows(c, step)
  {
    var p := NodeOf(step);
    assert NodeOk(c, p);
    if step.Deliver? { assert MessageOk(c, step.envelope); }
    if EventOf(step).Some? {
      N.LeaderStays(p, RecoveryOf(step), c.nodes[p].state, EventOf(step).value);
    }
  }

  /** After one step a leader leads on or is in a later term, exactly if the step
      does not overthrow it. */
  lemma StepStaysExactly(c: Cluster, step: Step, p: PeerId, term: u64)
    requires Safe(c) && AutomaticStep(c, step) && Leads(c, p, term)
    ensures LeadsOrPast(Apply(c, step), p, term) <==> !(Overthrows(c, step) && NodeOf(step) == p)
  {
    if Possible(c, step) && NodeOf(step) == p {
      TraceStaysExactly(c, step);
    }
  }

  lemma PastStaysPast(c: Cluster, step: Step, p: PeerId, term: u64)
    requires Safe(c) && AutomaticStep(c, step) && p in c.nodes && c.nodes[p].state.currentTerm > term
    ensures LeadsOrPast(Apply(c, step), p, term)
  {
    if Possible(c, step) && NodeOf(step) == p {
      if step.Deliver? { assert MessageOk(c, step.envelope); }
      if EventOf(step).Some? {
        N.TermStep(p, RecoveryOf(step), c.nodes[p].state, EventOf(step).value);
      }
    }
  }

  lemma {:induction false} LeadersStayUnlessOverthrown(ids: set<PeerId>, steps: seq<Step>, i: nat, p: PeerId, term: u64)
    requires AutomaticRun(Start(ids), steps) && !EverOverthrown(Start(ids), steps)
    requires LedAfter(ids, steps, i, p, term)
    ensures LeadsOrPast(Exec(Start(ids), steps), p, term)
  {
    if i == |steps| {
      assert steps[..i] == steps;
    } else {
      var front, last := steps[..|steps| - 1], steps[|steps| - 1];
      assert front[..i] == steps[..i];
      LeadersStayUnlessOverthrown(ids, front, i, p, term);
      SafeInEveryRun(ids, front);
      var c := Exec(Start(ids), front);
      if Leads(c, p, term) { StepStaysExactly(c, last, p, term); } else { PastStaysPast(c, last, p, term); }
    }
  }

  /** `p` leads `term` after `i` steps and, after `j`, is still in that term without leading it. */
  predicate LostWithinTerm(ids: set<PeerId>, steps: seq<Step>, i: nat, j: nat, p: PeerId, term: u64) {
    i <= j <= |steps| && LedAfter(ids, steps, i, p, term) && !LeadsOrPast(Exec(Start(ids), steps[..j]), p, term)
  }

  ghost predicate SomeoneLostWithinTerm(ids: set<PeerId>, steps: seq<Step>) {
    exists i: nat, j: nat, p, term {:trigger LostWithinTerm(ids, steps, i, j, p, term)} ::
      LostWithinTerm(ids, steps, i, j, p, term)
  }

  lemma {:induction false} PrefixNotOverthrown(c: Cluster, steps: seq<Step>, j: nat)
    requires j <= |steps| && !EverOverthrown(c, steps)
    ensures !EverOverthrown(c, steps[..j])
  {
    if j < |steps| {
      assert steps[..|steps| - 1][..j] == steps[..j];
      PrefixNotOverthrown(c, steps[..|steps| - 1], j);
    } else {
      assert steps[..j] == steps;
    }
  }

  lemma NotLostUnlessOverthrown(ids: set<PeerId>, steps: seq<Step>, i: nat, j: nat, p: PeerId, term: u64)
    requires AutomaticRun(Start(ids), steps) && !EverOverthrown(Start(ids), steps)
    ensures !LostWithinTerm(ids, steps, i, j, p, term)
  {
    if i <= j <= |steps| && LedAfter(ids, steps, i, p, term) {
      PrefixIsAutomatic(Start(ids), steps, j);
      PrefixNotOverthrown(Start(ids), steps, j);
      SameEarlier(ids, steps, i, j, p, term);
      LeadersStayUnlessOverthrown(ids, steps[..j], i, p, term);
    }
  }

  /** What a node led after `i` steps does not depend on the steps after them. */
  lemma SameEarlier(ids: set<PeerId>, steps: seq<Step>, i: nat, j: nat, p: PeerId, term: u64)
    requires i <= j <= |steps|
    ensures LedAfter(ids, steps[..j], i, p, term) <==> LedAfter(ids, steps, i, p, term)
  {
    assert steps[..j][..i] == steps[..i];
  }

  lemma NobodyLost(ids: set<PeerId>, steps: seq<Step>)
    requires AutomaticRun(Start(ids), steps) && !EverOverthrown(Start(ids), steps)
    ensures !SomeoneLostWithinTerm(ids, steps)
  {
    forall i: nat, j: nat, p, term ensures !LostWithinTerm(ids, steps, i, j, p, term) {
      NotLostUnlessOverthrown(ids, steps, i, j, p, term);
    }
  }

  lemma {:induction false} Overthrower(c: Cluster, steps: seq<Step>) returns (k: nat)
    requires EverOverthrown(c, steps)
    ensures k < |steps| && Overthrows(Exec(c, steps[..k]), steps[k])
  {
    k := |steps| - 1;
    if !Overthrows(Exec(c, steps[..k]), steps[k]) {
      var front := steps[..k];
      k := Overthrower(c, front);
      assert front[..k] == steps[..k];
    }
  }

  lemma StepOfRun(ids: set<PeerId>, steps: seq<Step>, k: nat)
    requires AutomaticRun(Start(ids), steps) && k < |steps|
    ensures var c := Exec(Start(ids), steps[..k]);
            Safe(c) && AutomaticStep(c, steps[k]) && Exec(Start(ids), steps[..k + 1]) == Apply(c, steps[k])
  {
    PrefixIsAutomatic(Start(ids), steps, k);
    PrefixIsAutomatic(Start(ids), steps, k + 1);
    assert steps[..k + 1][..k] == steps[..k];
    SafeInEveryRun(ids, steps[..k]);
  }

  lemma OverthrownLoses(c: Cluster, step: Step)
    requires Safe(c) && AutomaticStep(c, step) && Overthrows(c, step)
    ensures var p := NodeOf(step);
            var term := c.nodes[p].state.currentTerm;
            Leads(c, p, term) && !LeadsOrPast(Apply(c, step), p, term)
  {
    StepStaysExactly(c, step, NodeOf(step), c.nodes[NodeOf(step)].state.currentTerm);
  }

  lemma TheOverthrownLost(ids: set<PeerId>, steps: seq<Step>)
    requires AutomaticRun(Start(ids), steps) && EverOverthrown(Start(ids), steps)
    ensures SomeoneLostWithinTerm(ids, steps)
  {
    var k := Overthrower(Start(ids), steps);
    StepOfRun(ids, steps, k);
    var c := Exec(Start(ids), steps[..k]);
    OverthrownLoses(c, steps[k]);
    var p := NodeOf(steps[k]);
    assert LostWithinTerm(ids, steps, k, k + 1, p, c.nodes[p].state.currentTerm);
  }

  /** In every automatic run, some leader loses its role within its term if and only
      if some leader is delivered a heartbeat of its term from a greater identifier. */
  lemma SameTermLossExactly(ids: set<PeerId>, steps: seq<Step>)
    requires AutomaticRun(Start(ids), steps)
    ensures SomeoneLostWithinTerm(ids, steps) <==> EverOverthrown(Start(ids), steps)
  {
    if EverOverthrown(Start(ids), steps) {
      TheOverthrownLost(ids, steps);
    } else {
      NobodyLost(ids, steps);
    }
  }

  lemma {:induction false} PrefixIsCoherent(c: Cluster, steps: seq<Step>, j: nat)
    requires j <= |steps| && CoherentRun(c, steps)
    ensures CoherentRun(c, steps[..j])
  {
    if j < |steps| {
      assert steps[..|steps| - 1][..j] == steps[..j];
      PrefixIsCoherent(c, steps[..|steps| - 1], j);
    } else {
      assert steps[..j] == steps;
    }
  }

  /** Coherent heartbeat reads are enough for that never to happen. */
  lemma CoherentRunsOverthrowNobody(ids: set<PeerId>, steps: seq<Step>)
    requires AutomaticRun(Start(ids), steps) && CoherentRun(Start(ids), steps)
    ensures !EverOverthrown(Start(ids), steps)
  {
    SameTermLossExactly(ids, steps);
    forall i: nat, j: nat, p, term ensures !LostWithinTerm(ids, steps, i, j, p, term) {
      NotLostWhenCoherent(ids, steps, i, j, p, term);
    }
  }

  lemma NotLostWhenCoherent(ids: set<PeerId>, steps: seq<Step>, i: nat, j: nat, p: PeerId, term: u64)
    requires AutomaticRun(Start(ids), steps) && CoherentRun(Start(ids), steps)
    ensures !LostWithinTerm(ids, steps, i, j, p, term)
  {
    if i <= j <= |steps| && LedAfter(ids, steps, i, p, term) {
      PrefixIsAutomatic(Start(ids), steps, j);
      PrefixIsCoherent(Start(ids), steps, j);
      LeaderYieldsOnlyToHigherTerm(ids, steps[..j]);
      SameEarlier(ids, steps, i, j, p, term);
    }
  }
}
