/** An elected leader comes to be followed: over every run that opens no further
    election, whoever has received a heartbeat of the leader follows it. */
module Following {
  import opened Types
  import opened ElectionRules
  import N = NodeRuns
  import Laws = NodeLaws
  import opened Cluster
  import opened ElectionSafety
  import opened HeartbeatSafety
  import StepDown

  predicate Follows(c: Cluster, v: PeerId, p: PeerId, term: u64) {
    && v in c.nodes && c.nodes[v].state.role == Follower
    && c.nodes[v].state.leaderId == Some(p) && c.nodes[v].state.currentTerm == term
  }

  // --- no override in automatic runs -----------------------------------------

  predicate Free(c: Cluster, v: PeerId) {
    v in c.nodes ==> !c.nodes[v].state.manualOverride
  }

  ghost predicate AllFree(c: Cluster) {
    forall v {:trigger Free(c, v)} | v in c.nodes :: Free(c, v)
  }

  lemma StepKeepsFree(c: Cluster, step: Step)
    requires AllFree(c) && NetworkOk(c) && Unassisted(step)
    ensures AllFree(Apply(c, step))
  {
    if Possible(c, step) {
      var i, t := NodeOf(step), TraceAfter(c, step);
      if step.Deliver? { assert MessageOk(c, step.envelope); }
      assert Free(c, i);
      if EventOf(step).Some? {
        Laws.OnlyAssignmentsOverride(i, RecoveryOf(step), c.nodes[i].state, EventOf(step).value);
      }
      OthersFree(c, i, t, Apply(c, step));
    }
  }

  lemma OthersFree(c: Cluster, i: PeerId, t: N.Trace, d: Cluster)
    requires AllFree(c) && i in c.nodes && d.nodes == c.nodes[i := t] && !t.state.manualOverride
    ensures AllFree(d)
  {
    forall v | v in d.nodes ensures Free(d, v) { assert Free(c, v); }
  }

  /** Elections never override anything. */
  lemma {:induction false} FreeInEveryRun(ids: set<PeerId>, steps: seq<Step>)
    requires AutomaticRun(Start(ids), steps)
    ensures AllFree(Exec(Start(ids), steps))
  {
    if steps == [] {
      forall v | v in ids ensures Free(Start(ids), v) {}
    } else {
      var front := steps[..|steps| - 1];
      FreeInEveryRun(ids, front);
      SafeInEveryRun(ids, front);
      StepKeepsFree(Exec(Start(ids), front), steps[|steps| - 1]);
    }
  }

  // --- the setting -----------------------------------------------------------

  predicate Voice(c: Cluster, m: Message, p: PeerId, term: u64) {
    m.Heartbeat? && m.term == term ==> m.leaderId == p
  }

  ghost predicate OneVoice(c: Cluster, p: PeerId, term: u64) {
    forall e {:trigger Voice(c, e.msg, p, term)} | e in c.network :: Voice(c, e.msg, p, term)
  }

  /** `p` leads the latest term reached, alone in its heartbeats. */
  ghost predicate Settled(c: Cluster, p: PeerId, term: u64) {
    Safe(c) && AllFree(c) && Leads(c, p, term) && TermsWithin(c, term) && OneVoice(c, p, term)
  }

  /** An automatic, coherent step that opens no election and does not report `p` as gone. */
  predicate Settles(c: Cluster, p: PeerId, step: Step) {
    && AutomaticStep(c, step) && CoherentStep(c, step)
    && !step.ElectionTimeout? && (step.Departure? ==> step.peer != p)
  }

  ghost predicate SettlingRun(c: Cluster, p: PeerId, steps: seq<Step>) {
    steps != [] ==>
      var front := steps[..|steps| - 1];
      SettlingRun(c, p, front) && Settles(Exec(c, front), p, steps[|steps| - 1])
  }

  // --- the setting lasts -----------------------------------------------------

  lemma TermsStayWithin(c: Cluster, p: PeerId, term: u64, step: Step)
    requires TermsWithin(c, term) && Settles(c, p, step)
    ensures TermsWithin(Apply(c, step), term)
  {
    if Possible(c, step) { TraceWithin(c, p, term, step); }
    NewMessagesAreCurrent(c, step);
    NetworkWithin(c, Apply(c, step), term);
  }

  lemma TraceWithin(c: Cluster, p: PeerId, term: u64, step: Step)
    requires TermsWithin(c, term) && Settles(c, p, step) && Possible(c, step)
    ensures TraceAfter(c, step).state.currentTerm <= term
  {
    if step.Deliver? { assert TermWithin(step.envelope.msg, term); }
    if EventOf(step).Some? {
      Laws.TermIsOwnOrTaken(NodeOf(step), RecoveryOf(step), c.nodes[NodeOf(step)].state, EventOf(step).value);
    }
  }

  lemma NetworkWithin(c: Cluster, d: Cluster, term: u64)
    requires TermsWithin(c, term)
    requires forall v | v in d.nodes :: d.nodes[v].state.currentTerm <= term
    requires forall e | e in d.network && e !in c.network ::
               e.src in d.nodes && e.msg.term == d.nodes[e.src].state.currentTerm
    ensures TermsWithin(d, term)
  {
    forall e | e in d.network ensures TermWithin(e.msg, term) {
      if e in c.network { assert TermWithin(e.msg, term); }
    }
  }

  lemma LeaderOfTerm(c: Cluster, p: PeerId, q: PeerId, term: u64)
    requires Safe(c) && Leads(c, p, term) && Leads(c, q, term)
    ensures p == q
  {
    assert LeaderOk(c, p) && LeaderOk(c, q);
    WinsAgree(c, p, q, term);
  }

  lemma VoiceStaysOne(c: Cluster, p: PeerId, term: u64, step: Step)
    requires Settled(c, p, term) && Settles(c, p, step)
    ensures OneVoice(Apply(c, step), p, term)
  {
    if Possible(c, step) {
      var d := Apply(c, step);
      OnlySendersSendHeartbeats(c, step);
      forall e | e in d.network ensures Voice(d, e.msg, p, term) {
        if e in c.network {
          assert Voice(c, e.msg, p, term);
        } else if e.msg.Heartbeat? && e.msg.term == term {
          assert e in Sent(c, step);
          LeaderOfTerm(c, p, step.node, term);
        }
      }
    }
  }

  lemma LeaderLeadsOn(c: Cluster, p: PeerId, term: u64, step: Step)
    requires Settled(c, p, term) && Settles(c, p, step) && TermsWithin(Apply(c, step), term)
    ensures Leads(Apply(c, step), p, term)
  {
    if StepDown.Overthrows(c, step) && NodeOf(step) == p {
      assert Voice(c, step.envelope.msg, p, term);
      LessIrreflexive(p);
    }
    StepDown.StepStaysExactly(c, step, p, term);
  }

  lemma SettledStep(c: Cluster, p: PeerId, term: u64, step: Step)
    requires Settled(c, p, term) && Settles(c, p, step)
    ensures Settled(Apply(c, step), p, term)
  {
    StepKeepsSafe(c, step);
    StepKeepsFree(c, step);
    TermsStayWithin(c, p, term, step);
    VoiceStaysOne(c, p, term, step);
    LeaderLeadsOn(c, p, term, step);
  }

  // --- following spreads -----------------------------------------------------

  /** The step brings `v` a heartbeat of the leader. */
  predicate Tells(c: Cluster, step: Step, v: PeerId, p: PeerId, term: u64) {
    step.Deliver? && step.envelope in c.network && step.envelope.dst == v && step.envelope.msg == Heartbeat(term, p)
  }

  lemma FollowerLasts(c: Cluster, p: PeerId, term: u64, step: Step, v: PeerId)
    requires Settled(c, p, term) && Settles(c, p, step) && Follows(c, v, p, term)
    ensures Follows(Apply(c, step), v, p, term)
  {
    if Possible(c, step) && NodeOf(step) == v && EventOf(step).Some? {
      assert Free(c, v);
      if step.Deliver? {
        assert MessageOk(c, step.envelope) && TermWithin(step.envelope.msg, term);
        assert Voice(c, step.envelope.msg, p, term);
      }
      Laws.FollowerStays(v, RecoveryOf(step), c.nodes[v].state, EventOf(step).value, p);
    }
  }

  lemma ToldFollows(c: Cluster, p: PeerId, term: u64, step: Step, v: PeerId)
    requires Settled(c, p, term) && v in c.nodes && v != p && Tells(c, step, v, p, term)
    ensures Follows(Apply(c, step), v, p, term)
  {
    assert Free(c, v);
    if Leads(c, v, term) { LeaderOfTerm(c, p, v, term); }
    Laws.HeartbeatIsFollowed(v, c.nodes[v].state, term, p);
  }

  ghost predicate EverTold(c: Cluster, steps: seq<Step>, v: PeerId, p: PeerId, term: u64) {
    steps != [] &&
      var front := steps[..|steps| - 1];
      EverTold(c, front, v, p, term) || Tells(Exec(c, front), steps[|steps| - 1], v, p, term)
  }

  /** Through every settling run the leader leads on, alone in its heartbeats. */
  lemma {:induction false} SettledInEveryRun(c: Cluster, p: PeerId, term: u64, steps: seq<Step>)
    requires Settled(c, p, term) && SettlingRun(c, p, steps)
    ensures Settled(Exec(c, steps), p, term)
  {
    if steps != [] {
      var front := steps[..|steps| - 1];
      SettledInEveryRun(c, p, term, front);
      SettledStep(Exec(c, front), p, term, steps[|steps| - 1]);
    }
  }

  /** And whoever followed it or was told of it follows it at the end. */
  lemma {:induction false} FollowingSpreads(c: Cluster, p: PeerId, term: u64, steps: seq<Step>, v: PeerId)
    requires Settled(c, p, term) && SettlingRun(c, p, steps) && v in c.nodes && v != p
    ensures Follows(c, v, p, term) || EverTold(c, steps, v, p, term) ==> Follows(Exec(c, steps), v, p, term)
  {
    if steps != [] {
      var front, last := steps[..|steps| - 1], steps[|steps| - 1];
      FollowingSpreads(c, p, term, front, v);
      SettledInEveryRun(c, p, term, front);
      var d := Exec(c, front);
      if Follows(d, v, p, term) { FollowerLasts(d, p, term, last, v); }
      if Tells(d, last, v, p, term) { ToldFollows(d, p, term, last, v); }
    }
  }

  lemma SettledAfterRun(ids: set<PeerId>, past: seq<Step>, p: PeerId, term: u64)
    requires AutomaticRun(Start(ids), past) && CoherentRun(Start(ids), past)
    requires Leads(Exec(Start(ids), past), p, term) && TermsWithin(Exec(Start(ids), past), term)
    ensures Settled(Exec(Start(ids), past), p, term)
  {
    var c := Exec(Start(ids), past);
    HonestInEveryRun(ids, past);
    FreeInEveryRun(ids, past);
    assert LeaderOk(c, p);
    forall e | e in c.network ensures Voice(c, e.msg, p, term) {
      assert HeartbeatOk(c, e.msg);
      if e.msg.Heartbeat? && e.msg.term == term { WinsAgree(c, p, e.msg.leaderId, term); }
    }
  }

  ghost predicate AllFollow(c: Cluster, p: PeerId, term: u64) {
    Leads(c, p, term) && forall v {:trigger Follows(c, v, p, term)} | v in c.nodes && v != p :: Follows(c, v, p, term)
  }

  /** After any automatic, coherent run that leaves `p` leading the latest term, once
      its heartbeats have reached all the others, everybody follows it. */
  lemma LeaderIsFollowedAfterAnyRun(ids: set<PeerId>, past: seq<Step>, p: PeerId, term: u64, steps: seq<Step>)
    requires AutomaticRun(Start(ids), past) && CoherentRun(Start(ids), past)
    requires Leads(Exec(Start(ids), past), p, term) && TermsWithin(Exec(Start(ids), past), term)
    requires SettlingRun(Exec(Start(ids), past), p, steps)
    requires forall v | v in ids && v != p :: EverTold(Exec(Start(ids), past), steps, v, p, term)
    ensures AllFollow(Exec(Start(ids), past + steps), p, term)
  {
    var c := Exec(Start(ids), past);
    SettledAfterRun(ids, past, p, term);
    ExecConcat(Start(ids), past, steps);
    forall v | v in ids && v != p ensures Follows(Exec(c, steps), v, p, term) {
      FollowingSpreads(c, p, term, steps, v);
    }
    SettledInEveryRun(c, p, term, steps);
  }
}
