/** The membership table and the event stream its observers see. */
module MembershipRules {
  import opened Types

  datatype PeerInfo = PeerInfo(addr: seq<byte>, status: PeerStatus, lastSeen: nat, rttMs: Option<u32>)

  datatype Event =
    | Joined(peer: PeerId)
    | Left(peer: PeerId)
    | StatusChanged(peer: PeerId, before: PeerStatus, now: PeerStatus)

  /** The table and every event sent so far, oldest first. */
  datatype State = State(peers: map<PeerId, PeerInfo>, events: seq<Event>)

  function AddPeer(s: State, peer: PeerId, addr: seq<byte>, time: nat): State {
    if peer in s.peers then s
    else State(s.peers[peer := PeerInfo(addr, Connected, time, None)], s.events + [Joined(peer)])
  }

  function RemovePeer(s: State, peer: PeerId): State {
    if peer in s.peers then State(s.peers - {peer}, s.events + [Left(peer)]) else s
  }

  function UpdateStatus(s: State, peer: PeerId, status: PeerStatus): State {
    if peer in s.peers && s.peers[peer].status != status then
      State(s.peers[peer := s.peers[peer].(status := status)],
            s.events + [StatusChanged(peer, s.peers[peer].status, status)])
    else s
  }

  function Touch(s: State, peer: PeerId, time: nat, rtt: Option<u32>): State {
    if peer in s.peers then
      var info := s.peers[peer];
      s.(peers := s.peers[peer := info.(lastSeen := time, rttMs := if rtt.Some? then rtt else info.rttMs)])
    else s
  }

  function ConnectedPeers(peers: map<PeerId, PeerInfo>, among: set<PeerId>): set<PeerId> {
    set p | p in among && p in peers && peers[p].status == Connected
  }

  lemma ConnectedOneMore(peers: map<PeerId, PeerInfo>, among: set<PeerId>, p: PeerId)
    requires p in peers && p !in among
    ensures |ConnectedPeers(peers, among + {p})| ==
              |ConnectedPeers(peers, among)| + if peers[p].status == Connected then 1 else 0
  {
    var before, after := ConnectedPeers(peers, among), ConnectedPeers(peers, among + {p});
    assert after == if peers[p].status == Connected then before + {p} else before;
  }

  // --- what observers can rebuild --------------------------------------------

  /** Apply one event to a picture of the table; `None` if it contradicts the picture. */
  function See(picture: map<PeerId, PeerStatus>, e: Event): Option<map<PeerId, PeerStatus>> {
    match e
    case Joined(p) => if p in picture then None else Some(picture[p := Connected])
    case Left(p) => if p in picture then Some(picture - {p}) else None
    case StatusChanged(p, before, now) =>
      if p in picture && picture[p] == before && now != before then Some(picture[p := now]) else None
  }

  /** The picture an observer of all the events has; `None` once an event made no sense. */
  function Replay(events: seq<Event>): Option<map<PeerId, PeerStatus>> {
    if events == [] then Some(map[])
    else
      match Replay(events[..|events| - 1])
      case None => None
      case Some(picture) => See(picture, events[|events| - 1])
  }

  function Statuses(peers: map<PeerId, PeerInfo>): map<PeerId, PeerStatus> {
    map p | p in peers :: peers[p].status
  }

  predicate Observable(s: State) {
    Replay(s.events) == Some(Statuses(s.peers))
  }

  datatype Call =
    | Add(peer: PeerId, addr: seq<byte>, time: nat)
    | Remove(peer: PeerId)
    | Update(peer: PeerId, status: PeerStatus)
    | Seen(peer: PeerId, time: nat, rtt: Option<u32>)

  function Apply(s: State, call: Call): State {
    match call
    case Add(p, addr, time) => AddPeer(s, p, addr, time)
    case Remove(p) => RemovePeer(s, p)
    case Update(p, status) => UpdateStatus(s, p, status)
    case Seen(p, time, rtt) => Touch(s, p, time, rtt)
  }

  function Exec(s: State, calls: seq<Call>): State {
    if calls == [] then s else Apply(Exec(s, calls[..|calls| - 1]), calls[|calls| - 1])
  }

  lemma LoggedStep(s: State, d: State, e: Event)
    requires Observable(s) && d.events == s.events + [e]
    requires See(Statuses(s.peers), e) == Some(Statuses(d.peers))
    ensures Observable(d)
  {
    assert d.events[..|d.events| - 1] == s.events;
  }

  lemma CallKeepsObservable(s: State, call: Call)
    requires Observable(s)
    ensures Observable(Apply(s, call))
  {
    var d := Apply(s, call);
    match call
    case Add(p, _, _) =>
      if p !in s.peers {
        assert Statuses(d.peers) == Statuses(s.peers)[p := Connected];
        LoggedStep(s, d, Joined(p));
      }
    case Remove(p) =>
      if p in s.peers {
        assert Statuses(d.peers) == Statuses(s.peers) - {p};
        LoggedStep(s, d, Left(p));
      }
    case Update(p, status) =>
      if p in s.peers && s.peers[p].status != status {
        assert Statuses(d.peers) == Statuses(s.peers)[p := status];
        LoggedStep(s, d, StatusChanged(p, s.peers[p].status, status));
      }
    case Seen(_, _, _) => assert Statuses(d.peers) == Statuses(s.peers);
  }

  /** After any sequence of calls, replaying the event log makes sense at every
      event and gives exactly the peers in the table with their statuses. */
  lemma {:induction false} EventsRebuildTheTable(calls: seq<Call>)
    ensures Observable(Exec(State(map[], []), calls))
  {
    if calls == [] {
      assert Statuses(map[]) == map[];
    } else {
      EventsRebuildTheTable(calls[..|calls| - 1]);
      CallKeepsObservable(Exec(State(map[], []), calls[..|calls| - 1]), calls[|calls| - 1]);
    }
  }

  // --- what the table holds --------------------------------------------------

  /** `p` was added at `i` and not removed since. */
  predicate AddedAt(calls: seq<Call>, i: nat, p: PeerId) {
    i < |calls| && calls[i].Add? && calls[i].peer == p && forall j | i < j < |calls| :: calls[j] != Remove(p)
  }

  ghost predicate Member(calls: seq<Call>, p: PeerId) {
    exists i: nat :: AddedAt(calls, i, p)
  }

  lemma MemberStep(calls: seq<Call>, p: PeerId)
    requires calls != []
    ensures var front, last := calls[..|calls| - 1], calls[|calls| - 1];
            Member(calls, p) <==> (last.Add? && last.peer == p) || (Member(front, p) && last != Remove(p))
  {
    var front, n := calls[..|calls| - 1], |calls| - 1;
    if calls[n].Add? && calls[n].peer == p { assert AddedAt(calls, n, p); }
    forall i: nat | i < n
      ensures AddedAt(calls, i, p) <==> AddedAt(front, i, p) && calls[n] != Remove(p)
    {
      AddedAtFront(calls, i, p);
    }
  }

  lemma AddedAtFront(calls: seq<Call>, i: nat, p: PeerId)
    requires i + 1 < |calls|
    ensures var front, last := calls[..|calls| - 1], calls[|calls| - 1];
            AddedAt(calls, i, p) <==> AddedAt(front, i, p) && last != Remove(p)
  {
    var front := calls[..|calls| - 1];
    if AddedAt(front, i, p) && calls[|calls| - 1] != Remove(p) {
      forall j | i < j < |calls| ensures calls[j] != Remove(p) {
        if j < |front| { assert front[j] == calls[j]; }
      }
    }
    if AddedAt(calls, i, p) {
      forall j | i < j < |front| ensures front[j] != Remove(p) { assert front[j] == calls[j]; }
    }
  }

  /** A peer is in the table if and only if some call added it and no later one removed it. */
  lemma {:induction false} InTheTableExactly(calls: seq<Call>, p: PeerId)
    ensures p in Exec(State(map[], []), calls).peers <==> Member(calls, p)
  {
    if calls != [] {
      InTheTableExactly(calls[..|calls| - 1], p);
      MemberStep(calls, p);
    }
  }

  /** The last word on a member: on its status, on when it was seen, on its round trip
      and on its address. Being added again while a member says nothing. */
  ghost function LastWord(calls: seq<Call>, p: PeerId): PeerInfo
    requires Member(calls, p)
    decreases |calls|
  {
    MemberStep(calls, p);
    var front, last := calls[..|calls| - 1], calls[|calls| - 1];
    if !Member(front, p) then PeerInfo(last.addr, Connected, last.time, None)
    else
      var before := LastWord(front, p);
      match last
      case Update(q, status) => if q == p then before.(status := status) else before
      case Seen(q, time, None) => if q == p then before.(lastSeen := time) else before
      case Seen(q, time, Some(rtt)) => if q == p then before.(lastSeen := time, rttMs := Some(rtt)) else before
      case _ => before
  }

  lemma {:induction false} TheTableHoldsTheLastWord(calls: seq<Call>, p: PeerId)
    requires Member(calls, p)
    ensures p in Exec(State(map[], []), calls).peers
    ensures Exec(State(map[], []), calls).peers[p] == LastWord(calls, p)
    decreases |calls|
  {
    InTheTableExactly(calls, p);
    MemberStep(calls, p);
    var front := calls[..|calls| - 1];
    InTheTableExactly(front, p);
    if Member(front, p) { TheTableHoldsTheLastWord(front, p); }
  }

  /** So the peers that count towards a quorum are the members last said to be connected. */
  lemma ConnectedExactly(calls: seq<Call>, p: PeerId)
    ensures var peers := Exec(State(map[], []), calls).peers;
            p in ConnectedPeers(peers, peers.Keys) <==> Member(calls, p) && LastWord(calls, p).status == Connected
  {
    InTheTableExactly(calls, p);
    if Member(calls, p) { TheTableHoldsTheLastWord(calls, p); }
  }

  /** Observers hear of a call if and only if it changed a status or who is in the table,
      once, and in words that fit the change. */
  lemma AnnouncedExactly(s: State, call: Call)
    ensures var d := Apply(s, call);
            && (d.events == s.events <==> Statuses(d.peers) == Statuses(s.peers))
            && (call.Seen? ==> d.events == s.events)
            && (call.Add? && call.peer !in s.peers ==>
                  d.events == s.events + [Joined(call.peer)] && d.peers.Keys == s.peers.Keys + {call.peer})
            && (call.Remove? && call.peer in s.peers ==>
                  d.events == s.events + [Left(call.peer)] && d.peers.Keys == s.peers.Keys - {call.peer})
            && (call.Update? && call.peer in s.peers && s.peers[call.peer].status != call.status ==>
                  d.events == s.events + [StatusChanged(call.peer, s.peers[call.peer].status, call.status)]
                  && d.peers.Keys == s.peers.Keys && d.peers[call.peer].status == call.status)
  {
    var d := Apply(s, call);
    var p := call.peer;
    if p in s.peers {
      assert Statuses(s.peers)[p] == s.peers[p].status;
      if p in d.peers { assert Statuses(d.peers)[p] == d.peers[p].status; }
    }
    if d.events == s.events { assert Statuses(d.peers) == Statuses(s.peers); }
    assert p in Statuses(s.peers) <==> p in s.peers;
    assert p in Statuses(d.peers) <==> p in d.peers;
  }
}

/** The membership manager as a mutable object, proved against the rules. */
module Membership {
  import opened Types
  import opened Messaging
  import opened MembershipRules
  import Rules = MembershipRules

  class MembershipManager {
    var peers: map<PeerId, PeerInfo>
    var events: seq<Event>

    function Snapshot(): State
      reads this
    {
      State(peers, events)
    }

    constructor ()
      ensures Snapshot() == State(map[], [])
    {
      peers, events := map[], [];
    }

    method AddPeer(peerId: PeerId, addr: seq<byte>, now: nat) returns (r: Result<()>)
      modifies this
      ensures Snapshot() == Rules.AddPeer(old(Snapshot()), peerId, addr, now)
      ensures r == if peerId in old(peers) then Err(DuplicatePeerId(peerId)) else Ok(())
    {
      if peerId in peers { return Err(DuplicatePeerId(peerId)); }
      peers := peers[peerId := PeerInfo(addr, Connected, now, None)];
      events := events + [Joined(peerId)];
      return Ok(());
    }

    method RemovePeer(peerId: PeerId)
      modifies this
      ensures Snapshot() == Rules.RemovePeer(old(Snapshot()), peerId)
    {
      var removed := peerId in peers;
      peers := peers - {peerId};
      if removed { events := events + [Left(peerId)]; }
    }

    method UpdateStatus(peerId: PeerId, newStatus: PeerStatus)
      modifies this
      ensures Snapshot() == Rules.UpdateStatus(old(Snapshot()), peerId, newStatus)
    {
      if peerId in peers {
        var before := peers[peerId].status;
        if before != newStatus {
          peers := peers[peerId := peers[peerId].(status := newStatus)];
          events := events + [StatusChanged(peerId, before, newStatus)];
        }
      }
    }

    method HandlePong(peerId: PeerId, sentMs: nat, nowMs: nat)
      modifies this
      ensures var elapsed := if nowMs < sentMs then 0 else nowMs - sentMs;
              Snapshot() == Touch(old(Snapshot()), peerId, nowMs, Some(Truncated(elapsed)))
    {
      var rtt := Truncated(if nowMs < sentMs then 0 else nowMs - sentMs);
      if peerId in peers { peers := peers[peerId := peers[peerId].(rttMs := Some(rtt), lastSeen := nowMs)]; }
    }

    method UpdateLastSeen(peerId: PeerId, now: nat)
      modifies this
      ensures Snapshot() == Touch(old(Snapshot()), peerId, now, None)
    {
      if peerId in peers { peers := peers[peerId := peers[peerId].(lastSeen := now)]; }
    }

    method GetConnectedPeerCount() returns (n: nat)
      ensures n == |ConnectedPeers(peers, peers.Keys)|
    {
      n := 0;
      var rest := peers.Keys;
      ghost var seen := {};
      while rest != {}
        invariant seen !! rest && seen + rest == peers.Keys
        invariant n == |ConnectedPeers(peers, seen)|
        decreases |rest|
      {
        var p :| p in rest;
        ConnectedOneMore(peers, seen, p);
        rest, seen := rest - {p}, seen + {p};
        if peers[p].status == Connected { n := n + 1; }
      }
      assert seen == peers.Keys;
    }
  }
}
