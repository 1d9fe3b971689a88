/** At most one node is ever Leader in a term, over every run whose leaders come
    from elections and whose tallies count a majority of the fixed cluster. */
module ElectionSafety {
  import opened Types
  import opened ElectionRules
  import Rules = ElectionRules
  import N = NodeRuns
  import opened Cluster

  /** The step's tally, if it makes one, needs a strict majority of all nodes. */
  predicate CountsMajority(nodes: nat, step: Step) {
    step.ElectionTimeout? || step.Deliver? ==> 2 * MajorityThreshold(1 + step.peers) > nodes
  }

  /** No manual assignment, and no node is told that it has itself left. */
  predicate Unassisted(step: Step) {
    !step.AssignLeader? && (step.Departure? ==> step.peer != step.node)
  }

  predicate OverflowsTerm(c: Cluster, step: Step) {
    match step
    case ElectionTimeout(i, peers) => i in c.nodes && N.Overflows(c.nodes[i].state, N.StartElection(peers))
    case AssignLeader(i, leader) => i in c.nodes && N.Overflows(c.nodes[i].state, N.SetLeader(leader))
    case _ => false
  }

  predicate AutomaticStep(c: Cluster, step: Step) {
    Unassisted(step) && CountsMajority(|c.nodes.Keys|, step) && !OverflowsTerm(c, step)
  }

  ghost predicate AutomaticRun(c: Cluster, steps: seq<Step>) {
    steps != [] ==>
      var front := steps[..|steps| - 1];
      AutomaticRun(c, front) && AutomaticStep(Exec(c, front), steps[|steps| - 1])
  }

  // --- the invariant ---------------------------------------------------------

  predicate Cast(c: Cluster, voter: PeerId, term: u64, candidate: PeerId) {
    voter in c.nodes && N.Ballot(term, candidate) in c.nodes[voter].ballots
  }

  predicate MessageOk(c: Cluster, e: Envelope) {
    match e.msg
    case RequestVote(_, candidateId) => candidateId == e.src
    case VoteResponse(term, voterId, granted) => granted ==> Cast(c, voterId, term, e.dst)
    case Heartbeat(_, _) => true
    case LeaderAssign(_, _, _) => false
  }

  ghost predicate NetworkOk(c: Cluster) {
    forall e {:trigger MessageOk(c, e)} | e in c.network :: MessageOk(c, e)
  }

  ghost predicate NodeOk(c: Cluster, v: PeerId)
    requires v in c.nodes
  {
    N.BallotsAgree(c.nodes[v]) && N.RoleInvariant(v, c.nodes[v].state)
  }

  ghost predicate NodesOk(c: Cluster) {
    forall v {:trigger NodeOk(c, v)} | v in c.nodes :: NodeOk(c, v)
  }

  ghost predicate TallyOk(c: Cluster, p: PeerId)
    requires p in c.nodes
  {
    var s := c.nodes[p].state;
    forall v | v in s.votesReceived :: Cast(c, v, s.currentTerm, p)
  }

  ghost predicate WinOk(c: Cluster, w: Win) {
    w.leader in c.nodes && 2 * |w.quorum| > |c.nodes.Keys| && forall v | v in w.quorum :: Cast(c, v, w.term, w.leader)
  }

  predicate Won(c: Cluster, p: PeerId, term: u64) {
    exists w | w in c.wins :: w.leader == p && w.term == term
  }

  predicate LeaderOk(c: Cluster, p: PeerId)
    requires p in c.nodes
  {
    c.nodes[p].state.role == Leader ==> Won(c, p, c.nodes[p].state.currentTerm)
  }

  ghost predicate LeadersOk(c: Cluster) {
    forall p {:trigger LeaderOk(c, p)} | p in c.nodes :: LeaderOk(c, p)
  }

  ghost predicate TalliesOk(c: Cluster) {
    forall p {:trigger TallyOk(c, p)} | p in c.nodes :: TallyOk(c, p)
  }

  ghost predicate WinsOk(c: Cluster) {
    forall w {:trigger WinOk(c, w)} | w in c.wins :: WinOk(c, w)
  }

  ghost predicate Safe(c: Cluster) {
    NodesOk(c) && NetworkOk(c) && LeadersOk(c) && TalliesOk(c) && WinsOk(c)
  }

  // --- every step keeps it ---------------------------------------------------

  /** Ballots and wins are never withdrawn. */
  ghost predicate Grown(c: Cluster, d: Cluster) {
    && d.nodes.Keys == c.nodes.Keys && c.wins <= d.wins
    && forall v | v in c.nodes :: c.nodes[v].ballots <= d.nodes[v].ballots
  }

  lemma NetworkKept(c: Cluster, r: Cluster)
    requires NetworkOk(c) && Grown(c, r)
    requires forall e | e in r.network && e !in c.network :: MessageOk(r, e)
    ensures NetworkOk(r)
  {
    forall e | e in r.network ensures MessageOk(r, e) {
      if e in c.network { assert MessageOk(c, e); }
    }
  }

  lemma WinsKept(c: Cluster, r: Cluster)
    requires WinsOk(c) && Grown(c, r)
    requires forall w | w in r.wins && w !in c.wins :: WinOk(r, w)
    ensures WinsOk(r)
  {
    forall w | w in r.wins ensures WinOk(r, w) {
      if w in c.wins { assert WinOk(c, w); }
    }
  }

  lemma TalliesKept(c: Cluster, i: PeerId, t: N.Trace, r: Cluster)
    requires TalliesOk(c) && Grown(c, r)
    requires i in c.nodes && r.nodes == c.nodes[i := t] && TallyOk(r, i)
    ensures TalliesOk(r)
  {
    forall p | p in r.nodes ensures TallyOk(r, p) {
      if p != i {
        assert TallyOk(c, p);
        var s := c.nodes[p].state;
        forall v | v in s.votesReceived ensures Cast(r, v, s.currentTerm, p) {
          assert Cast(c, v, s.currentTerm, p);
        }
      }
    }
  }

  lemma LeadersKept(c: Cluster, i: PeerId, t: N.Trace, r: Cluster)
    requires LeadersOk(c) && c.wins <= r.wins
    requires i in c.nodes && r.nodes == c.nodes[i := t]
    requires t.state.role == Leader ==> Won(r, i, t.state.currentTerm)
    ensures LeadersOk(r)
  {
    forall p | p in r.nodes ensures LeaderOk(r, p) {
      if p != i { assert LeaderOk(c, p); }
    }
  }

  lemma NodesKept(c: Cluster, i: PeerId, t: N.Trace, r: Cluster)
    requires NodesOk(c) && i in c.nodes && r.nodes == c.nodes[i := t]
    requires N.BallotsAgree(t) && N.RoleInvariant(i, t.state)
    ensures NodesOk(r)
  {
    forall v | v in r.nodes ensures NodeOk(r, v) {
      if v != i { assert NodeOk(c, v); }
    }
  }

  /** A step replaces one node's trace, and adds messages and wins. If what it
      adds is fine, and so is the new trace, the invariant is kept. */
  lemma Rebuild(c: Cluster, i: PeerId, t: N.Trace, r: Cluster)
    requires Safe(c) && Grown(c, r)
    requires i in c.nodes && r.nodes == c.nodes[i := t]
    requires N.BallotsAgree(t) && N.RoleInvariant(i, t.state)
    requires TallyOk(r, i)
    requires t.state.role == Leader ==> Won(r, i, t.state.currentTerm)
    requires forall e | e in r.network && e !in c.network :: MessageOk(r, e)
    requires forall w | w in r.wins && w !in c.wins :: WinOk(r, w)
    ensures Safe(r)
  {
    NodesKept(c, i, t, r);
    NetworkKept(c, r);
    LeadersKept(c, i, t, r);
    TalliesKept(c, i, t, r);
    WinsKept(c, r);
  }

  /** What every permitted step guarantees of the acting node by itself. */
  lemma OwnTrace(c: Cluster, step: Step)
    requires Safe(c) && Possible(c, step) && AutomaticStep(c, step)
    requires step.Deliver? ==> !step.envelope.msg.LeaderAssign?
    ensures var i, t := NodeOf(step), TraceAfter(c, step);
            N.BallotsAgree(t) && N.RoleInvariant(i, t.state) && c.nodes[i].ballots <= t.ballots
  {
    var i := NodeOf(step);
    assert NodeOk(c, i);
    if EventOf(step).Some? {
      N.BallotStep(i, RecoveryOf(step), c.nodes[i], EventOf(step).value);
      N.RoleStep(i, RecoveryOf(step), c.nodes[i].state, EventOf(step).value);
    }
  }

  /** A step at which nobody's tally or leadership grows. */
  lemma QuietRebuild(c: Cluster, i: PeerId, t: N.Trace, r: Cluster)
    requires Safe(c) && i in c.nodes
    requires r.nodes == c.nodes[i := t] && r.wins == c.wins
    requires N.BallotsAgree(t) && N.RoleInvariant(i, t.state) && c.nodes[i].ballots <= t.ballots
    requires t.state.votesReceived <= c.nodes[i].state.votesReceived
    requires t.state.votesReceived != {} ==> t.state.currentTerm == c.nodes[i].state.currentTerm
    requires t.state.role == Leader ==>
               c.nodes[i].state.role == Leader && t.state.currentTerm == c.nodes[i].state.currentTerm
    requires forall e | e in r.network && e !in c.network :: MessageOk(r, e)
    ensures Safe(r)
  {
    assert TallyOk(c, i) && LeaderOk(c, i) && r.nodes.Keys == c.nodes.Keys;
    forall v | v in t.state.votesReceived ensures Cast(r, v, t.state.currentTerm, i) {
      assert Cast(c, v, c.nodes[i].state.currentTerm, i);
    }
    Rebuild(c, i, t, r);
  }

  predicate IsQuiet(step: Step) {
    match step
    case ElectionTimeout(_, _) => false
    case Deliver(e, _) => e.msg.RequestVote? || e.msg.Heartbeat?
    case AssignLeader(_, _) => false
    case _ => true
  }

  lemma QuietMessages(c: Cluster, step: Step)
    requires Possible(c, step) && IsQuiet(step)
    requires step.Deliver? ==> MessageOk(c, step.envelope)
    ensures WinsOf(c, step) == {}
    ensures forall e | e in Sent(c, step) :: MessageOk(Apply(c, step), e)
  {
  }

  lemma QuietKeeps(c: Cluster, step: Step)
    requires Safe(c) && Possible(c, step) && AutomaticStep(c, step) && IsQuiet(step)
    ensures Safe(Apply(c, step))
  {
    var i := NodeOf(step);
    if step.Deliver? { assert MessageOk(c, step.envelope); }
    OwnTrace(c, step);
    QuietMessages(c, step);
    if EventOf(step).Some? {
      assert NodeOk(c, i);
      N.QuietStep(i, RecoveryOf(step), c.nodes[i].state, EventOf(step).value);
    }
    QuietRebuild(c, i, TraceAfter(c, step), Apply(c, step));
  }

  /** A node whose new tally counts `votes`, and wins if it now leads. */
  lemma TallyRebuild(c: Cluster, i: PeerId, t: N.Trace, votes: set<PeerId>, r: Cluster)
    requires Safe(c) && i in c.nodes
    requires r.nodes == c.nodes[i := t] && c.nodes[i].ballots <= t.ballots
    requires N.BallotsAgree(t) && N.RoleInvariant(i, t.state)
    requires t.state.votesReceived <= votes
    requires forall v | v in votes ::
               Cast(c, v, t.state.currentTerm, i) || (v == i && N.Ballot(t.state.currentTerm, i) in t.ballots)
    requires r.wins == c.wins + if t.state.role == Leader then {Win(i, t.state.currentTerm, votes)} else {}
    requires t.state.role == Leader ==> 2 * |votes| > |c.nodes.Keys|
    requires forall e | e in r.network && e !in c.network :: MessageOk(r, e)
    ensures Safe(r)
  {
    assert r.nodes.Keys == c.nodes.Keys;
    forall v | v in votes ensures Cast(r, v, t.state.currentTerm, i) {}
    var w := Win(i, t.state.currentTerm, votes);
    if t.state.role == Leader { assert w in r.wins && WinOk(r, w); }
    Rebuild(c, i, t, r);
  }

  /** What a timeout does, read off its definition. */
  lemma TimeOutShape(c: Cluster, step: Step)
    requires Possible(c, step) && step.ElectionTimeout? && CountsMajority(|c.nodes.Keys|, step)
    ensures var i, t := step.node, TraceAfter(c, step);
            && (forall e | e in Sent(c, step) :: e.msg == RequestVote(t.state.currentTerm, i) && e.src == i)
            && (if N.CanStart(c.nodes[i].state) then
                  && t.state.votesReceived <= {i} && N.Ballot(t.state.currentTerm, i) in t.ballots
                  && WinsOf(c, step) == (if t.state.role == Leader then {Win(i, t.state.currentTerm, {i})} else {})
                  && (t.state.role == Leader ==> 2 > |c.nodes.Keys|)
                else
                  t == c.nodes[i] && WinsOf(c, step) == {})
  {
  }

  lemma CandidacyKeeps(c: Cluster, i: PeerId, t: N.Trace, r: Cluster)
    requires Safe(c) && i in c.nodes && r.nodes == c.nodes[i := t]
    requires N.BallotsAgree(t) && N.RoleInvariant(i, t.state) && c.nodes[i].ballots <= t.ballots
    requires t.state.votesReceived <= {i} && N.Ballot(t.state.currentTerm, i) in t.ballots
    requires r.wins == c.wins + if t.state.role == Leader then {Win(i, t.state.currentTerm, {i})} else {}
    requires t.state.role == Leader ==> 2 > |c.nodes.Keys|
    requires forall e | e in r.network && e !in c.network :: e.msg == RequestVote(t.state.currentTerm, i) && e.src == i
    ensures Safe(r)
  {
    TallyRebuild(c, i, t, {i}, r);
  }

  lemma TimeOutKeeps(c: Cluster, step: Step)
    requires Safe(c) && Possible(c, step) && AutomaticStep(c, step) && step.ElectionTimeout?
    ensures Safe(Apply(c, step))
  {
    OwnTrace(c, step);
    TimeOutShape(c, step);
    if N.CanStart(c.nodes[step.node].state) {
      CandidacyKeeps(c, step.node, TraceAfter(c, step), Apply(c, step));
    } else {
      IdleKeeps(c, step.node, Apply(c, step));
    }
  }

  /** A refused timeout changes no node and no win. */
  lemma IdleKeeps(c: Cluster, i: PeerId, r: Cluster)
    requires Safe(c) && i in c.nodes && r.nodes == c.nodes[i := c.nodes[i]] && r.wins == c.wins
    requires forall e | e in r.network && e !in c.network :: e.msg.RequestVote? && e.msg.candidateId == e.src
    ensures Safe(r)
  {
    assert NodeOk(c, i);
    QuietRebuild(c, i, c.nodes[i], r);
  }

  function VotesWith(s: ElectionState, msg: Message): set<PeerId>
    requires msg.VoteResponse?
  {
    s.votesReceived + if msg.granted then {msg.voterId} else {}
  }

  /** What a vote response does, read off its definition. */
  lemma VoteResponseShape(c: Cluster, step: Step)
    requires Possible(c, step) && step.Deliver? && step.envelope.msg.VoteResponse?
    ensures var i, msg := NodeOf(step), step.envelope.msg;
            var t := c.nodes[i];
            var h := Rules.HandleVoteResponse(i, t.state, msg.term, msg.voterId, msg.granted, step.peers);
            && Sent(c, step) == {}
            && TraceAfter(c, step) == N.Trace(h.state, t.notices + h.notices, t.ballots)
            && WinsOf(c, step) == if h.reply then {Win(i, msg.term, VotesWith(t.state, msg))} else {}
  {
  }

  /** So a counted response leaves a tally of ballots or a win, and no other response does either. */
  lemma VoteResponseTally(c: Cluster, step: Step)
    requires Possible(c, step) && step.Deliver? && step.envelope.msg.VoteResponse?
    requires N.RoleInvariant(NodeOf(step), c.nodes[NodeOf(step)].state) && CountsMajority(|c.nodes.Keys|, step)
    ensures var i, msg, t := NodeOf(step), step.envelope.msg, TraceAfter(c, step);
            var s, votes := c.nodes[i].state, VotesWith(c.nodes[i].state, msg);
            && Sent(c, step) == {}
            && (if N.Counts(s, msg.term) then
                  && t.state.currentTerm == s.currentTerm == msg.term && t.state.votesReceived <= votes
                  && WinsOf(c, step) == (if t.state.role == Leader then {Win(i, msg.term, votes)} else {})
                  && (t.state.role == Leader ==> 2 * |votes| > |c.nodes.Keys|)
                else
                  && WinsOf(c, step) == {} && t.state.votesReceived <= s.votesReceived
                  && (t.state.votesReceived != {} ==> t.state.currentTerm == s.currentTerm)
                  && (t.state.role == Leader ==> s.role == Leader && t.state.currentTerm == s.currentTerm))
  {
    var i, msg := NodeOf(step), step.envelope.msg;
    N.ResponseStep(i, c.nodes[i].state, msg.term, msg.voterId, msg.granted, step.peers);
    VoteResponseShape(c, step);
  }

  lemma CountedResponseKeeps(c: Cluster, e: Envelope, t: N.Trace, r: Cluster)
    requires Safe(c) && e in c.network && e.dst in c.nodes && e.msg.VoteResponse?
    requires N.Counts(c.nodes[e.dst].state, e.msg.term) && t.state.currentTerm == e.msg.term
    requires r.nodes == c.nodes[e.dst := t] && r.network == c.network
    requires N.BallotsAgree(t) && N.RoleInvariant(e.dst, t.state) && c.nodes[e.dst].ballots <= t.ballots
    requires var votes := VotesWith(c.nodes[e.dst].state, e.msg);
             && t.state.votesReceived <= votes
             && r.wins == c.wins + (if t.state.role == Leader then {Win(e.dst, e.msg.term, votes)} else {})
             && (t.state.role == Leader ==> 2 * |votes| > |c.nodes.Keys|)
    ensures Safe(r)
  {
    var s := c.nodes[e.dst].state;
    assert MessageOk(c, e) && TallyOk(c, e.dst);
    forall v | v in VotesWith(s, e.msg) ensures Cast(c, v, e.msg.term, e.dst) {
      if v in s.votesReceived { assert Cast(c, v, s.currentTerm, e.dst); }
    }
    TallyRebuild(c, e.dst, t, VotesWith(s, e.msg), r);
  }

  lemma VoteResponseKeeps(c: Cluster, step: Step)
    requires Safe(c) && Possible(c, step) && AutomaticStep(c, step)
    requires step.Deliver? && step.envelope.msg.VoteResponse?
    ensures Safe(Apply(c, step))
  {
    var i := NodeOf(step);
    OwnTrace(c, step);
    assert NodeOk(c, i);
    VoteResponseTally(c, step);
    if N.Counts(c.nodes[i].state, step.envelope.msg.term) {
      CountedResponseKeeps(c, step.envelope, TraceAfter(c, step), Apply(c, step));
    } else {
      QuietRebuild(c, i, TraceAfter(c, step), Apply(c, step));
    }
  }

  lemma StepKeepsSafe(c: Cluster, step: Step)
    requires Safe(c) && AutomaticStep(c, step)
    ensures Safe(Apply(c, step))
  {
    if Possible(c, step) {
      if step.Deliver? { assert MessageOk(c, step.envelope); }
      if IsQuiet(step) {
        QuietKeeps(c, step);
      } else if step.ElectionTimeout? {
        TimeOutKeeps(c, step);
      } else {
        VoteResponseKeeps(c, step);
      }
    }
  }

  lemma StartSafe(ids: set<PeerId>)
    ensures Safe(Start(ids))
  {
    var c := Start(ids);
    forall p | p in c.nodes ensures NodeOk(c, p) { assert c.nodes[p] == N.Trace(Initial(true), [], {}); }
    assert NodesOk(c) && LeadersOk(c) && TalliesOk(c);
  }

  lemma {:induction false} SafeInEveryRun(ids: set<PeerId>, steps: seq<Step>)
    requires AutomaticRun(Start(ids), steps)
    ensures Safe(Exec(Start(ids), steps))
  {
    if steps == [] {
      StartSafe(ids);
    } else {
      var front := steps[..|steps| - 1];
      SafeInEveryRun(ids, front);
      StepKeepsSafe(Exec(Start(ids), front), steps[|steps| - 1]);
    }
  }

  // --- quorums intersect -----------------------------------------------------

  lemma MajoritiesMeet(all: set<PeerId>, a: set<PeerId>, b: set<PeerId>) returns (v: PeerId)
    requires a <= all && b <= all && 2 * |a| > |all| && 2 * |b| > |all|
    ensures v in a && v in b
  {
    SubsetSize(a + b, all);
    assert |a + b| == |a| + |b| - |a * b|;
    v :| v in a * b;
  }

  lemma {:induction false} SubsetSize(a: set<PeerId>, b: set<PeerId>)
    requires a <= b
    ensures |a| <= |b|
  {
    assert b == a + (b - a);
    assert |b| == |a| + |b - a|;
  }

  lemma WinsAgree(c: Cluster, p: PeerId, q: PeerId, term: u64)
    requires Safe(c) && Won(c, p, term) && Won(c, q, term)
    ensures p == q
  {
    var w :| w in c.wins && w.leader == p && w.term == term;
    var x :| x in c.wins && x.leader == q && x.term == term;
    assert WinOk(c, w) && WinOk(c, x);
    forall v | v in w.quorum ensures v in c.nodes.Keys { assert Cast(c, v, term, p); }
    forall v | v in x.quorum ensures v in c.nodes.Keys { assert Cast(c, v, term, q); }
    var v := MajoritiesMeet(c.nodes.Keys, w.quorum, x.quorum);
    assert Cast(c, v, term, p) && Cast(c, v, term, q) && NodeOk(c, v);
  }

  lemma WinsStay(c: Cluster, step: Step)
    ensures c.wins <= Apply(c, step).wins
  {
  }

  /** Wins are never withdrawn as a run goes on. */
  lemma {:induction false} WinsAccumulate(c: Cluster, steps: seq<Step>, i: nat)
    requires i <= |steps|
    ensures Exec(c, steps[..i]).wins <= Exec(c, steps).wins
  {
    if i < |steps| {
      var front := steps[..|steps| - 1];
      assert front[..i] == steps[..i];
      WinsAccumulate(c, front, i);
      WinsStay(Exec(c, front), steps[|steps| - 1]);
    } else {
      assert steps[..i] == steps;
    }
  }

  lemma {:induction false} PrefixIsAutomatic(c: Cluster, steps: seq<Step>, i: nat)
    requires i <= |steps| && AutomaticRun(c, steps)
    ensures AutomaticRun(c, steps[..i])
  {
    if i < |steps| {
      assert steps[..|steps| - 1][..i] == steps[..i];
      PrefixIsAutomatic(c, steps[..|steps| - 1], i);
    } else {
      assert steps[..i] == steps;
    }
  }

  /** `p` leads in `term` after the first `i` steps. */
  predicate LedAfter(ids: set<PeerId>, steps: seq<Step>, i: nat, p: PeerId, term: u64) {
    i <= |steps| && Leads(Exec(Start(ids), steps[..i]), p, term)
  }

  /** Whoever leads a term at some point of the run is whoever leads it at any other. */
  ghost predicate OneLeaderPerTerm(ids: set<PeerId>, steps: seq<Step>) {
    forall i, j, p, q, term {:trigger LedAfter(ids, steps, i, p, term), LedAfter(ids, steps, j, q, term)} ::
      LedAfter(ids, steps, i, p, term) && LedAfter(ids, steps, j, q, term) ==> p == q
  }

  lemma LeadersOnceWon(ids: set<PeerId>, steps: seq<Step>, i: nat, p: PeerId, term: u64)
    requires AutomaticRun(Start(ids), steps) && LedAfter(ids, steps, i, p, term)
    ensures Won(Exec(Start(ids), steps), p, term)
  {
    PrefixIsAutomatic(Start(ids), steps, i);
    SafeInEveryRun(ids, steps[..i]);
    assert LeaderOk(Exec(Start(ids), steps[..i]), p);
    WinsAccumulate(Start(ids), steps, i);
    var w :| w in Exec(Start(ids), steps[..i]).wins && w.leader == p && w.term == term;
    assert w in Exec(Start(ids), steps).wins;
  }

  /** Election safety. */
  lemma LeadersOfATermAgree(ids: set<PeerId>, steps: seq<Step>)
    requires AutomaticRun(Start(ids), steps)
    ensures OneLeaderPerTerm(ids, steps)
  {
    SafeInEveryRun(ids, steps);
    forall i, j, p, q, term | LedAfter(ids, steps, i, p, term) && LedAfter(ids, steps, j, q, term)
      ensures p == q
    {
      LeadersOnceWon(ids, steps, i, p, term);
      LeadersOnceWon(ids, steps, j, q, term);
      WinsAgree(Exec(Start(ids), steps), p, q, term);
    }
  }

  // --- a fixed cluster whose nodes all see each other ------------------------

  /** Elections only, and every tally counts exactly the other nodes of the cluster. */
  predicate FixedCluster(ids: set<PeerId>, step: Step) {
    Unassisted(step) && (step.ElectionTimeout? || step.Deliver? ==> 1 + step.peers == |ids|)
  }

  predicate TermWithin(m: Message, bound: nat) {
    m.term <= bound
  }

  ghost predicate TermsWithin(c: Cluster, bound: nat) {
    && (forall v | v in c.nodes :: c.nodes[v].state.currentTerm <= bound)
    && (forall e {:trigger TermWithin(e.msg, bound)} | e in c.network :: TermWithin(e.msg, bound))
  }

  /** A new message carries the term its sender has reached. */
  lemma NewMessagesAreCurrent(c: Cluster, step: Step)
    ensures forall e | e in Apply(c, step).network && e !in c.network ::
              e.src in c.nodes && e.msg.term == Apply(c, step).nodes[e.src].state.currentTerm
  {
  }

  lemma NodeTermsGrowByOne(c: Cluster, step: Step, bound: nat)
    requires TermsWithin(c, bound) && Possible(c, step)
    ensures TraceAfter(c, step).state.currentTerm <= bound + 1
  {
    if step.Deliver? { assert TermWithin(step.envelope.msg, bound); }
    if EventOf(step).Some? {
      N.TermBound(NodeOf(step), RecoveryOf(step), c.nodes[NodeOf(step)].state, EventOf(step).value, bound);
    }
  }

  lemma NetworkTermsGrowByOne(c: Cluster, d: Cluster, bound: nat)
    requires TermsWithin(c, bound)
    requires forall v | v in d.nodes :: d.nodes[v].state.currentTerm <= bound + 1
    requires forall e | e in d.network && e !in c.network ::
               e.src in d.nodes && e.msg.term == d.nodes[e.src].state.currentTerm
    ensures TermsWithin(d, bound + 1)
  {
    forall e | e in d.network ensures TermWithin(e.msg, bound + 1) {
      if e in c.network { assert TermWithin(e.msg, bound); }
    }
  }

  lemma TermsGrowByOne(c: Cluster, step: Step, bound: nat)
    requires TermsWithin(c, bound)
    ensures TermsWithin(Apply(c, step), bound + 1)
  {
    if Possible(c, step) { NodeTermsGrowByOne(c, step, bound); }
    NewMessagesAreCurrent(c, step);
    NetworkTermsGrowByOne(c, Apply(c, step), bound);
  }

  lemma FixedClusterStep(ids: set<PeerId>, c: Cluster, step: Step, bound: nat)
    requires |ids| != 2 && c.nodes.Keys == ids
    requires TermsWithin(c, bound) && bound < U64_MAX && FixedCluster(ids, step)
    ensures AutomaticStep(c, step) && TermsWithin(Apply(c, step), bound + 1)
  {
    ThresholdIsMajority(|ids|);
    TermsGrowByOne(c, step, bound);
  }

  /** No run of fewer than 2^64 steps can overflow a term. */
  lemma {:induction false} ShortRunsDoNotOverflow(ids: set<PeerId>, steps: seq<Step>)
    requires |ids| != 2 && |steps| <= U64_MAX
    requires forall step | step in steps :: FixedCluster(ids, step)
    ensures AutomaticRun(Start(ids), steps) && TermsWithin(Exec(Start(ids), steps), |steps|)
  {
    if steps != [] {
      var front, last := steps[..|steps| - 1], steps[|steps| - 1];
      forall step | step in front ensures FixedCluster(ids, step) { assert step in steps; }
      ShortRunsDoNotOverflow(ids, front);
      assert last in steps;
      FixedClusterStep(ids, Exec(Start(ids), front), last, |front|);
    }
  }

  /** A fixed cluster of any size but two elects at most one leader per term, ever. */
  lemma FixedClusterSafety(ids: set<PeerId>, steps: seq<Step>)
    requires |ids| != 2 && |steps| <= U64_MAX
    requires forall step | step in steps :: FixedCluster(ids, step)
    ensures OneLeaderPerTerm(ids, steps)
  {
    ShortRunsDoNotOverflow(ids, steps);
    LeadersOfATermAgree(ids, steps);
  }
}
