# Verified model of the P2P networking library

This project models the protocol logic of a Rust peer-to-peer library in Dafny and proves
properties of it: the Raft-like leader election (section 5 of the Raft paper) with its manual
override, the packet codec and message pipeline of its two-channel TCP transport, the connection
table and reconnect loop, centralized routing, the membership event log, and DNS label truncation
(section 2.3.4 of RFC 1035, section 3 of RFC 3629).

`dafny verify dfyconfig.toml` checks everything.

## How it is organised

| files | what they hold |
|---|---|
| `Types.dfy` | fixed-width integers, peer identifiers and their byte-wise order |
| `ElectionRules.dfy`, `LeaderElection.dfy`, `NodeLaws.dfy`, `NodeRuns.dfy` | the election module: each operation as a function of the guarded state, the class proved against them, what each call means for its caller, and what holds over every run of one node |
| `Cluster.dfy`, `ElectionSafety.dfy`, `HeartbeatSafety.dfy`, `HeartbeatRace.dfy`, `StepDown.dfy`, `QuorumExactness.dfy`, `ManualRegime.dfy`, `SilencedLeader.dfy`, `SameTermConflict.dfy`, `Following.dfy`, `Progress.dfy`, `NodeDriver.dfy`, `QuietCluster.dfy` | the distributed protocol: nodes joined by a network that loses, duplicates and reorders |
| `Messaging.dfy`, `Codec.dfy`, `Pipeline.dfy` | packets, framing and the way from send queue to incoming queue |
| `ConnectionTable.dfy`, `Transport.dfy`, `ChannelOwnership.dfy`, `Reconnect.dfy` | connections, cancellation tokens, channel ownership, backoff |
| `SessionRouter.dfy`, `RoutingEquivalence.dfy` | direct and centralized routing |
| `Membership.dfy` | the membership table and its event stream |
| `DnsLabel.dfy` | label truncation over UTF-8 bytes |

Objects that change their fields in the source are classes here, and each of their methods is
proved to compute a function of the old state; the properties are proved about those functions
over all runs. The pure functions without a contract of their own (the rules in `ElectionRules`,
`ConnectionTable`, `RoutingRules` and `MembershipRules`) are tied to the source through the class
methods listed below.

## What was found

* Heartbeats: the heartbeat timer checks `is_leader()` and then reads `current_term()` under a
  second lock acquisition, on a multi-threaded runtime (`src/lib.rs:521-530`). A node deposed
  between the two announces itself in its rival's term. `HeartbeatRace` gives the run, in a fixed
  cluster of three with elections only; if the deposed node has the greater identifier, the
  rightful leader of the term steps down. That is the only way to lose the role within a term,
  exactly (`StepDown.SameTermLossExactly`). With the two reads coherent, heartbeats name the leader
  of their term (`HeartbeatSafety`). Election safety needs no such condition, and neither does the
  fact that only elected nodes are followed.
* Quorums: with exactly two nodes the threshold is 1 and both can lead one term. The condition
  under which a fixed count is safe is exact (`QuorumExactness`).
* Manual regime: an assigned leader leads on exactly until a vote request, a vote response or a
  heartbeat in its own name of a later term reaches it; then nobody leads until the next
  assignment, although every node goes on following it (`ManualRegime.AssignedLeaderLeadsExactly`).
  `SilencedLeader` gives a run from the start.
* Votes: receiving an assignment of a term already reached forgets the vote, and then a second
  candidate of the same term is granted it; nothing else does (`NodeRuns.VoteForgottenExactly`).
* Data-channel cleanup: the token check is outside the lock that clears, so a late clear can
  remove a newer channel; the condition is exact (`ChannelOwnership.LateClearBreaksExactly`).
* The control-channel cleanup has no check at all: the task of an old connection removes a newer
  one exactly if its peer has registered again before the task got to clean up
  (`ChannelOwnership.ControlCleanupRemovesExactly`).
* Lengths are cut to 32 bits before the size limit is applied, so a message of 2^32 bytes or more
  can pass `encode_packet` and is then refused by the codec unless it goes compressed and shrinks
  to within the limit (`Codec.LongMessagesAreRefused`). The same holds of envelopes: one can be
  queued for the leader and never arrive (`RoutingEquivalence.EnvelopeCrosses`).
* Hashed DNS labels: the comment at `src/discovery.rs:276-280` promises distinct labels. They
  coincide when prefix and 64-bit hash do, and also when one input is the label of the other, so
  every long input has a colliding one (`DnsLabel.LabelsCoincideExactly`).
* Documentation that differs from the code: `set_leader` returns the new term, not the old one
  (`src/leader.rs:308-337`); reconnect event 2 is also sent when reconnecting is switched off at
  run time, not only when retries are exhausted (`src/transport.rs:794-798`).

## Model

| member | source | states |
|---|---|---|
| ElectionRules.ThresholdIsMajority | src/leader.rs:116-122 | The threshold exceeds half of the counted nodes for every count except exactly two, and is never more than the least number that does. |
| LeaderElections.LeaderElection.constructor | src/leader.rs:68-88 | A new module follows nobody, in term 0, with no vote, no override and no notice sent. |
| LeaderElections.LeaderElection.StartElection | src/leader.rs:127-152 | Refused when elections are off or overridden; else the next term opens with the node's own vote, and either a request goes out or the node alone is a quorum and leads. Every field and every notice of the new state is fixed. |
| LeaderElections.LeaderElection.HandleRequestVote | src/leader.rs:157-181 | Stale requests are refused, a newer term resets the node, and the reply grants the vote to the first asker of a term only; whole new state and reply. |
| LeaderElections.LeaderElection.HandleVoteResponse | src/leader.rs:185-219 | Counts a granted vote only for the running candidacy, once per voter, and reports true exactly when it completes the quorum; whole new state and reply. |
| LeaderElections.LeaderElection.HandleHeartbeat | src/leader.rs:228-275 | Which heartbeats are rejected (older term, against an override, same-term to a leader with no smaller identifier) and what an accepted one changes, notice included. |
| LeaderElections.LeaderElection.HandleLeaderAssign | src/leader.rs:280-306 | A received assignment always takes effect, raises the term at most, and forgets the vote; whole new state and notices. |
| LeaderElections.LeaderElection.SetLeader | src/leader.rs:310-338 | A local assignment opens a new term, overrides elections and returns that term for the broadcast; whole new state and notices. |
| LeaderElections.LeaderElection.EnableAutoElection | src/leader.rs:341-347 | The toggle lifts the override only when it enables and nobody is followed. |
| LeaderElections.LeaderElection.HandlePeerLeft | src/leader.rs:362-392 | Only the departure of the followed leader matters; the override survives it exactly under Hold, and observers are told. |
| LeaderElections.LeaderElection.BecomeLeaderInner | src/leader.rs:400-412 | The node leads, follows itself, holds no tally and announces itself; term and vote stay. |
| LeaderElections.LeaderElection.AdoptHigherTerm | src/leader.rs:164-169 | A newer term costs the node its role, vote and tally, but not the leader it follows, and nobody is told. |
| LeaderElections.LeaderElection.StepDownInner | src/leader.rs:414-422 | Gives up role and tally, and neither term, vote, followed leader nor a notice changes. |
| NodeRuns.RoleStep | src/leader.rs:127-422 | Every call keeps "Candidate iff own vote in the tally, else the tally is empty; a Candidate voted for itself and has no override; a Leader follows itself", except exactly the report that the leading local node itself left. |
| NodeLaws.ElectionStartsExactly | src/leader.rs:127-152 | An election start changes anything if and only if elections are on and not overridden; then the node is in the next term with its own vote, asking with exactly that term and its identifier if two or more peers are connected and leading at once otherwise. |
| NodeLaws.VoteGoesToTheFirstAsker | src/leader.rs:157-181 | A vote is granted if and only if the term is later, or is the node's own with the vote free or already on the asker; a later term ends any role, whatever it was, and the followed leader and both switches never move. |
| NodeLaws.ResponseEffects | src/leader.rs:194-218 | A response of a later term ends any role, one that does not count changes nothing, and one that counts touches neither vote nor term, and the followed leader only on winning. |
| NodeLaws.HeartbeatAcceptedUnless | src/leader.rs:231-258 | A heartbeat is accepted if and only if it is of no older term, contradicts no assignment, and does not come to a leader of its own term from an identifier that is not greater. |
| NodeLaws.HeartbeatIsFollowed | src/leader.rs:246-274 | A node without override, in no later term and not leading that very term follows the sender from then on, in the heartbeat's term, keeping its vote exactly if the term is its own. |
| NodeLaws.ReceivedAssignmentTakesEffect | src/leader.rs:280-300 | After a received assignment the node follows the named leader under override, or leads if it is the one, in the later of the two terms and with its vote free. |
| NodeLaws.OwnAssignmentTakesEffect | src/leader.rs:310-337 | After an own assignment the same holds in the next term, and what is to be broadcast names that term, the new leader and the assigner, in this order. |
| NodeLaws.ToggleSetsTheSwitch | src/leader.rs:341-347 | The toggle sets the switch both ways, lifts an override exactly when it enables at a node that follows nobody, and moves nothing else. |
| NodeLaws.DepartureMattersExactly | src/leader.rs:362-392 | A departure changes the node if and only if the followed leader left; then it follows nobody, observers are told, and an override survives exactly under Hold. |
| NodeLaws.LossOfAnElectedLeaderReopensElections | src/leader.rs:362-392 | After an elected leader left, the next election start is let through under either strategy. |
| NodeLaws.NoticesExactly | src/leader.rs:265-412 | A call tells observers if and only if it changed the followed leader or won an election, once, and tells whom the node now follows. |
| NodeLaws.NoElectionWhileSwitchedOff | src/leader.rs:127-131 | Once elections are switched off, over every run without switching them on, a node that stands stood before in that very term. |
| NodeLaws.TermIsOwnOrTaken | src/leader.rs:127-347 | Only starting an election or assigning a leader makes a new term; every other call keeps the node's or takes the message's. |
| NodeLaws.OnlyAssignmentsOverride | src/leader.rs:280-338 | A node without override has one after a call if and only if the call is an assignment. |
| NodeLaws.OnlyDepartureUnfollows | src/leader.rs:362-369 | A node that follows somebody follows nobody after a call if and only if the call reports that leader's departure. |
| NodeLaws.FollowerStays | src/leader.rs:157-275 | A follower keeps following through everything of no later term but another leader's heartbeat, an election of its own, an assignment or the leader's departure. |
| NodeRuns.RolesInEveryRun | src/leader.rs:127-422 | That invariant in every run of calls with any arguments, manual operations included, in which the node is not reported as departed to itself. |
| NodeRuns.TermStep | src/leader.rs:133-138 | A call lowers the term if and only if it increments the largest `u64`. |
| NodeRuns.TermsNeverDecrease | src/leader.rs:133-313 | In every run without such a wrap-around the term at any earlier point is at most the term at the end. |
| NodeRuns.TermBound | src/leader.rs:127-347 | A call raises the term at most one above what the node or the message already had. |
| NodeRuns.BallotsAgreeInEveryRun | src/leader.rs:133-181 | In every run without wrap-around and without an assignment of a term already reached, all votes ever given are one per term, none for a later term than the current one, and the current vote is the one on record. |
| NodeRuns.VotesOncePerTerm | src/leader.rs:133-181 | Starting from any state, a node gives at most one candidate its vote per term, itself included, until an assignment of a term already reached arrives. |
| NodeRuns.VoteForgottenExactly | src/leader.rs:283-300 | A rival of the same term is granted the vote after a call if and only if that call was such an assignment. |
| NodeRuns.VoteGrantedExactly | src/leader.rs:157-181 | A vote is granted if and only if the node is afterwards in the candidate's term with its vote on that candidate; the reply carries the node's term, and a refusal in a term already reached changes nothing. |
| NodeRuns.HeartbeatAcceptedExactly | src/leader.rs:228-275 | A heartbeat is accepted if and only if the node is afterwards a Follower of the named leader in the named term; a rejected one changes nothing and tells nobody, and a same-term one never touches the vote. |
| NodeRuns.LeaderStays | src/leader.rs:246-258 | Without assignments a leader keeps its role or goes on to a later term if and only if the call is no heartbeat of its own term that names a greater identifier while nothing is overridden. |
| NodeRuns.FollowedLeader | src/leader.rs:265-412 | A followed leader was followed before in no later term, was named by a heartbeat of the node's term, or is the node itself on winning. |
| NodeRuns.ResponseStep | src/leader.rs:194-218 | A response to the running candidacy wins if and only if the votes with it reach the threshold, and else joins the tally; any other response adds no vote and makes no leader. |
| NodeRuns.AssignmentLasts | src/leader.rs:127-362 | An assignment ends if and only if another leader is assigned or the assigned one leaves; meanwhile no call makes the node lead. |
| NodeRuns.HoldRecovery | src/leader.rs:368-379 | Under Hold, after a manually assigned remote leader left, the node stays Follower through every run without a new manual decision, and observers were told of the loss. |
| NodeRuns.RecoveryDecidesElection | src/leader.rs:371-388 | The next enabled election start after such a departure is let through if and only if the strategy is AutoElect, and then opens a new term with the own vote. |
| NodeRuns.ToggleEndsHold | src/leader.rs:341-347 | Under Hold, a toggle after the departure lets the next election start through if and only if it enables elections. |
| NodeRuns.ObserversKnowTheLeader | src/leader.rs:265-412 | In every run the last leader notice sent equals the leader followed at that point. |
| ElectionSafety.StepKeepsSafe | src/leader.rs:127-275 | Each step without manual assignment whose tally counts a majority keeps: ballots agree, granted responses and tallies are backed by ballots, every leader won its term with a majority. |
| ElectionSafety.SafeInEveryRun | src/leader.rs:127-275 | That invariant in every run from the start, under loss, duplication and reordering. |
| ElectionSafety.MajoritiesMeet | src/leader.rs:116-122 | Two majorities of one finite node set share a node. |
| ElectionSafety.LeadersOfATermAgree | src/leader.rs:116-219 | Election safety: in every run, whoever leads a term after any number of steps is whoever leads it after any other number. |
| ElectionSafety.ShortRunsDoNotOverflow | src/leader.rs:133 | In fewer than 2^64 steps of a fixed cluster no term can wrap around, and terms are bounded by the number of steps. |
| ElectionSafety.FixedClusterSafety | src/lib.rs:383-418 | Election safety for any fixed cluster of a size other than two whose tallies count all the others, with no premise on terms but the run length. |
| HeartbeatSafety.RootedInEveryRun | src/leader.rs:228-412 | In every automatic run, heartbeat reads interleaved or not: every heartbeat, every followed leader and every node about to announce itself is backed by a tally won in no later term. |
| HeartbeatSafety.HonestInEveryRun | src/leader.rs:228-275 | In every run with coherent heartbeat reads: every heartbeat names a winner of its very term, and every winner leads its term or is past it. |
| HeartbeatSafety.HeartbeatsOfATermAgree | src/lib.rs:521-530 | All heartbeats ever sent in one term name the same leader. |
| HeartbeatSafety.LeaderYieldsOnlyToHigherTerm | src/leader.rs:246-258 | In every automatic run with coherent heartbeat reads, whoever led a term at any earlier point leads it still or has reached a strictly higher one. |
| StepDown.StepStaysExactly | src/leader.rs:246-258 | After one step of the automatic regime a leader leads on or is in a later term, if and only if the step does not bring it a same-term heartbeat of a greater identifier. |
| StepDown.SameTermLossExactly | src/leader.rs:246-258 | In every automatic run, coherent or not, some node stops leading while still in its term if and only if some leader is delivered such a heartbeat. |
| StepDown.CoherentRunsOverthrowNobody | src/lib.rs:521-530 | With coherent heartbeat reads no such delivery ever happens. |
| HeartbeatSafety.FollowedLeadersWereElected | src/leader.rs:265-412 | In every automatic run, with no premise on heartbeats: whoever any node follows received ballots of a majority in some term not above the follower's. |
| Following.FreeInEveryRun | src/leader.rs:127-275 | No automatic run ever overrides elections at any node. |
| Following.SettledInEveryRun | src/leader.rs:228-275 | While no further election is opened and the leader of the latest term is not reported gone, it leads on through every coherent run, alone in the heartbeats of its term. |
| Following.FollowingSpreads | src/leader.rs:228-275 | Through every such run whoever followed that leader, or was delivered one of its heartbeats at any point, follows it at the end. |
| Following.LeaderIsFollowedAfterAnyRun | src/lib.rs:521-530 | After any automatic, coherent run that leaves a node leading the latest term, once its heartbeats have reached all the others in any order, everybody follows it. |
| Progress.AnyNodeCanLeadAll | src/leader.rs:127-275 | From any cluster of three or more without overrides, a node that may stand can come, by elections alone, to lead any term later than all terms reached, with everybody else following it. |
| Progress.AnyNodeCanLeadAllAfterAnyRun | src/leader.rs:127-275 | After every automatic run whose terms are below the maximum that is still so: the run can go on automatically to any enabled node's leading everybody. |
| HeartbeatSafety.HeartbeatTrueExactlyWhileLeading | src/lib.rs:521-530 | After a coherent run, the heartbeat a node is about to send keeps every heartbeat true to its term if and only if the node still leads. |
| HeartbeatRace.HeartbeatsCanDisagree | src/lib.rs:521-530 | For any three nodes, a run of elections only in which two nodes announce themselves in the same term. |
| HeartbeatRace.RightfulLeaderCanBeDeposed | src/leader.rs:252-263 | One more delivery of that run makes the rightful leader step down within its term and follow the deposed node. |
| QuorumExactness.Campaign | src/leader.rs:127-219 | Any node that may stand can collect the threshold from nodes in no later term, whatever their roles and votes, and lead its next term, touching only its voters. |
| QuorumExactness.TwoLeaders | src/leader.rs:116-122 | Whenever the threshold is at most half of the cluster, some run has two leaders in one term. |
| QuorumExactness.QuorumConditionIsExact | src/lib.rs:402-404 | With every tally seeing `k` peers, two leaders of one term are impossible if and only if twice the threshold for `k` exceeds the cluster size. |
| QuorumExactness.OnlyPairsAreUnsafe | src/leader.rs:116-122 | A cluster whose nodes count each other is safe if and only if it does not have exactly two nodes. |
| ManualRegime.AssignmentHolds | src/leader.rs:127-347 | Once every node has the same manual leader, no run of timeouts, votes, responses, heartbeats, toggles and other departures changes any followed leader, makes a candidate, or makes a new leader; only the assigned node leads. |
| ManualRegime.RolesOkInEveryRun | src/leader.rs:127-422 | Every cluster reachable by any steps, assignments included, has the role invariant at every node, as long as no node is told of its own departure. |
| ManualRegime.AssignmentSpreads | src/leader.rs:280-306 | From any cluster with the role invariant, a node informed of the assignment holds it at the end of every run whose assignments all name that leader. |
| ManualRegime.AssignmentTakesHold | src/ffi.rs:571-583 | From any cluster with the role invariant, one node's assignment puts the whole regime in force once it has reached every other node, in any order and among any other traffic. |
| ManualRegime.AssignmentIsBroadcast | src/ffi.rs:571-583 | Assigning a leader sends every other node exactly one message, naming the assigner's new term, that leader and the assigner, and the assigner itself follows, or leads if it assigned itself. |
| ManualRegime.AssignmentReachesEverybody | src/ffi.rs:571-583 | From any cluster with the role invariant, once those very messages have been delivered, in any order and among any other traffic, every node is assigned that leader. |
| ManualRegime.AnyAssignmentCanTakeHold | src/ffi.rs:571-583 | Any node can put any leader in force over the whole cluster, whatever state it is in. |
| ManualRegime.AssignmentTakesHoldAfterAnyRun | src/ffi.rs:571-583 | So it can after any run from the start, elections and other assignments included. |
| NodeRuns.AssignedLeaderUnseatedExactly | src/leader.rs:157-275 | While assigned to itself, a node leads after a call if and only if it led before and the call is no vote request, vote response or own-name heartbeat of a later term. |
| ManualRegime.AssignedLeaderLeadsExactly | src/leader.rs:157-275 | Over every undisturbed run, the assigned leader still leads its term if and only if no such message was delivered to it; otherwise nobody leads, and everyone follows it all the same. |
| ManualRegime.EverDeposedMeansSomeStep | src/leader.rs:157-275 | "Deposed in the run" is the existence of a step that delivers such a message, under way at that point, to the leader. |
| SilencedLeader.AssignedLeaderCanBeSilenced | src/leader.rs:164-169 | For any three nodes, a run from the start that puts the regime in force with a leading node, and one more delivery of an old vote request after which all are followers of it. |
| SameTermConflict.SurvivorsExactly | src/leader.rs:252-263 | Under any deliveries of the rivals' same-term heartbeats, a rival still leads if and only if none of those it received names a greater identifier. |
| SameTermConflict.NoNewLeader | src/leader.rs:252-263 | Such deliveries never add a leader of the term. |
| SameTermConflict.GreatestRivalPrevails | src/leader.rs:252-263 | The greatest rival never yields, and is the only one left once its heartbeat reached all the others. |
| Types.LessIsByteOrder | src/leader.rs:253 | The order on identifiers is the one of their bytes: the first byte at which they part decides, and a proper prefix is less. |
| NodeDriver.Node.HandleMessage | src/lib.rs:362-425 | Handling an election message makes exactly one call into the election module and sends exactly the replies the protocol prescribes, the response to a heartbeat included, accepted or not. |
| NodeDriver.Node.HeartbeatTick | src/lib.rs:520-531 | A leader's uninterrupted tick broadcasts one heartbeat of its term, and any other node's nothing. |
| NodeDriver.Node.SetLeader | src/ffi.rs:571-583 | A manual assignment makes one call into the election module and broadcasts the assigned leader with the new term and the local node as assigner. |
| NodeDriver.Node.ElectionTick | src/lib.rs:553-579 | A tick at a node that leads, follows somebody or has elections switched off changes no state, tells nobody and sends nothing; any other tick is an election start, with its vote request or the heartbeat of a lone winner sent. |
| QuietCluster.TimerIsSilentExactly | src/lib.rs:554-559 | The timer of a node that leads, follows somebody or has elections off sends nothing, and that of a node that may stand and follows nobody sends exactly one message. |
| QuietCluster.NoElectionWhileAllFollow | src/lib.rs:546-579 | While every node follows somebody, no run of timers, deliveries, heartbeats, toggles and other departures sends a vote request, raises the latest term, or leaves a node following nobody. |
| NodeDriver.HandlingIsDelivery | src/lib.rs:362-425 | The handler's effect on node and network is that of the cluster's delivery step and the heartbeat it owes. |
| NodeDriver.TimerIsTimeout | src/lib.rs:553-579 | The due election timer's effect is that of the cluster's timeout step and the heartbeat it owes. |
| Messaging.EncodedPacket | src/messaging.rs:43-93 | A message is accepted exactly by type and truncated length; an accepted one decodes to its data, keeps type and flag bits 1-7, never grows, and is compressed exactly when over the threshold and shrinking. |
| Messaging.EncodingFailsExactly | src/messaging.rs:52-60 | A message is refused for its type if and only if the type is internal, and else for its length cut to 32 bits if and only if that is over the limit. |
| Messaging.DecodingFailsExactly | src/messaging.rs:85-93 | A payload fails to decode if and only if it is marked compressed and does not decompress; an unmarked one is handed over as it is. |
| Codec.DecodeFrame | src/transport.rs:53-94 | A framed packet followed by any bytes decodes to itself and leaves those bytes, or is refused for its length. |
| Codec.WireFormat | src/transport.rs:83-94 | A frame is, byte by byte, the length in four bytes and the type in two, most significant first, the flags, and the payload. |
| Codec.HeaderDecides | src/transport.rs:53-78 | For any bytes: the decoder waits exactly while the header or an admissible payload is incomplete, refuses exactly an oversize length as soon as the header is there, and else takes off the frame that stands at the front and nothing more. |
| Codec.DecodeMore | src/transport.rs:53-78 | What was decoded or refused stays so when more bytes arrive. |
| Codec.FeedIsDecodeAll | src/transport.rs:53-78 | Decoding what is there and then a further chunk equals decoding both at once. |
| Codec.ChunkIndependence | src/transport.rs:53-78 | For any bytes, well formed or not, and any split into chunks: same packets, same leftover bytes, same refusal as decoding the whole stream at once. |
| Codec.PacketCodec.Decode | src/transport.rs:53-78 | Takes exactly one packet off the buffer, or leaves the buffer alone when it needs more bytes or refuses the length. |
| Codec.PacketCodec.Encode | src/transport.rs:83-94 | Appends exactly one frame if and only if the payload is within the limit, and otherwise leaves the buffer alone. |
| Codec.PacketCodec.DecodeAvailable | src/transport.rs:692-712 | The framed read loop over the mutable buffer produces exactly the packets, leftover and refusal of the whole-stream decoding, and terminates. |
| Codec.DecodeFrames | src/transport.rs:53-94 | Any sequence of packets within the limit, framed and concatenated, decodes to itself with nothing left. |
| Codec.EndToEnd | src/messaging.rs:43-93 | Accepted messages shorter than 2^32 bytes are never refused by the codec and come back in order through any chunking with payload, type and flag bits 1-7, whatever the threshold. |
| Codec.LongMessagesAreRefused | src/messaging.rs:58-79 | An accepted message, compressed or not, is refused by the codec if and only if it has 2^32 bytes or more and either its length cut to 32 bits is within the threshold or its compressed form is over the limit. |
| Codec.MultiplesOf4GiBAreAcceptedAndRefused | src/messaging.rs:58-79 | Every nonempty message whose length is a multiple of 2^32 is accepted uncompressed under every threshold and limit, and then refused. |
| Codec.SomeAcceptedMessageIsRefused | src/messaging.rs:58-79 | There is such a message for every threshold and limit. |
| Pipeline.ConsistentInEveryRun | src/transport.rs:655-713 | In every run the queue is what was accepted and not yet taken, and the bytes under way are the frames of what was taken and not yet delivered. |
| Pipeline.DeliveredIsPrefix | src/transport.rs:925-996 | With writer and reader stopping anywhere and bytes crossing in any pieces, the packets handed over are a prefix of those `try_send` accepted, in order. |
| Pipeline.NothingIsLost | src/transport.rs:655-713 | If the writer still runs and everything has drained, all accepted packets were handed over. |
| Pipeline.EverythingCanArrive | src/transport.rs:655-713 | From any point of any run at which both ends run, everything accepted within both limits can still be delivered, in order. |
| Pipeline.AcceptedExactly | src/transport.rs:655-713 | A packet is accepted if and only if the writer runs and the queue has room; of themselves the writer stops exactly at a packet over its limit and the reader exactly at a refused length. |
| Pipeline.RefusalsAreOversize | src/transport.rs:58-61 | The reader refuses only a packet really over its own limit, and only if that limit is below the writer's. |
| Transport.TransportManager.constructor | src/transport.rs:152-183 | A new manager has no connection, token or reader. |
| Transport.TransportManager.RegisterConnection | src/transport.rs:622-649 | A second registration of a peer is an error that changes no connection; else a fresh control channel, its token and its read task are entered. |
| Transport.TransportManager.RegisterDataChannel | src/transport.rs:907-920 | The previous data channel's token is cancelled and the new one registered with its reader, if and only if the peer is still connected. |
| Transport.TransportManager.ControlCleanup | src/transport.rs:715-741 | The ending task drops whatever connection its peer has by then, cancelling both tokens, and reports whether a reconnect loop starts, as `ChannelOwnership.ReconnectStartsExactly` characterises it. |
| Transport.TransportManager.SetShouldReconnect | src/transport.rs:1190-1194 | The word on reconnecting is recorded for a registered peer and lost for any other; no channel or token moves. |
| Transport.TransportManager.DisconnectPeer | src/transport.rs:1095-1103 | Both tokens are cancelled and the entry is gone; no other entry changes. |
| Transport.TransportManager.ReaderChecks | src/transport.rs:997-1001 | A read task that left its loop goes on to clear exactly if its token is not cancelled. |
| Transport.TransportManager.ReaderClears | src/transport.rs:1002-1007 | Sender and token of the peer's current data channel are removed together. |
| Transport.TransportManager.CancelAll | src/transport.rs:1151-1158 | The loop cancels exactly the tokens of all registered connections, each data token included. |
| Transport.TransportManager.Shutdown | src/transport.rs:1150-1161 | Every registered token is cancelled and the table is empty. |
| Transport.TransportManager.SendToPeer | src/transport.rs:1015-1033 | Exactly one queue gets the packet, on the channel its kind prescribes, and the result names the reason if none does. |
| Transport.TransportManager.SendToAll | src/transport.rs:1065-1078 | The loop queues the packet once for every target with room, and reports each of the others exactly once with its reason. |
| Transport.TransportManager.Broadcast | src/transport.rs:1040-1079 | Every connected peer not excluded gets one copy or exactly one error with its reason; nobody else is touched or reported. |
| ConnectionTable.SendIsAllOrNothing | src/transport.rs:1011-1033 | An error leaves the whole table alone; success puts the packet at the end of exactly one queue, internal packets always on control, user packets there only without a data channel. |
| ConnectionTable.RefusedExactly | src/transport.rs:1027-1032 | A queue takes a packet if and only if it is open and has room, and the two refusals are told apart. |
| ConnectionTable.RegisteredPeerIsReachable | src/transport.rs:632-649 | A newly registered peer can be sent to at once, is a target of broadcasts, is to be reconnected and is watched by its own task; a known peer and everyone else stay as they are. |
| ConnectionTable.OpenedDataChannelCarries | src/transport.rs:907-920 | A newly opened data channel takes over the peer's user packets at once with an empty queue, cancels exactly the previous one, and leaves the control channel and everyone else alone. |
| ConnectionTable.DataChannelNeedsAPeer | src/transport.rs:916-919 | A data channel for a peer no longer registered is abandoned without a trace. |
| ConnectionTable.DroppedPeerIsGone | src/transport.rs:1095-1103 | A dropped peer is unknown to senders, exactly its own tokens are cancelled, and nobody else is affected. |
| ChannelOwnership.QueuesInEveryRun | src/transport.rs:1011-1063 | In every interleaving, write tasks included, no queue exceeds its capacity and no internal packet waits in a data queue. |
| ChannelOwnership.RegisteredPeersAreTargets | src/transport.rs:1046-1053 | In every run every registered peer is Connected, so a broadcast targets exactly the registered peers it does not exclude. |
| ChannelOwnership.ReconnectWanted | src/lib.rs:319-325 | In every run a connection is to be reconnected if and only if the last word about its peer since it registered was not against it. |
| ChannelOwnership.ReconnectStartsExactly | src/transport.rs:723-740 | In every run a control task whose connection was not dropped starts a reconnect loop if and only if reconnecting is on, the last word was not against it, and no shutdown is under way. |
| ChannelOwnership.ShutdownStopsEverything | src/transport.rs:1150-1161 | After a shutdown nothing is registered or targeted, and every read task still in its loop, control or data, has been told to stop. |
| ChannelOwnership.NobodyClearsAfterCancelRoot | src/transport.rs:997-1001 | Once the shutdown token is cancelled, in every run, no read task that leaves its loop goes on to clear anything. |
| ChannelOwnership.OwnedInEveryRun | src/transport.rs:907-1007 | In every interleaving with prompt clears: uncancelled readers are the registered channels of their peers, tokens are live, and senders and tokens go together. |
| ChannelOwnership.SenderAndTokenTogether | src/transport.rs:907-920 | In every run whatever, a connection has a data sender if and only if it has a data token. |
| ChannelOwnership.LiveReaderIsRegistered | src/transport.rs:997-1007 | A live, uncancelled data reader is the registered channel of its peer. |
| ChannelOwnership.CleanupClearsOnlyItsOwn | src/transport.rs:997-1007 | A reader's cleanup changes a connection if and only if it is the reader's own and the reader was not cancelled, and then only its data channel. |
| ChannelOwnership.LateClearBreaksExactly | src/transport.rs:1001-1006 | A clear that comes after its token was cancelled breaks ownership if and only if the peer has another uncancelled reader. |
| ChannelOwnership.LateClearCanHitANewerChannel | src/transport.rs:1001-1006 | A concrete run in which that happens. |
| ChannelOwnership.WatchedInEveryRun | src/transport.rs:634-736 | In every run whatever, every connection has the live control task of its own token, and every live uncancelled control task has its connection registered. |
| ChannelOwnership.ControlCleanupRemovesExactly | src/transport.rs:715-736 | A control cleanup removes a connection that is not its task's own if and only if its peer is registered with another token; it never touches another peer. |
| ChannelOwnership.PatientCleanupRemovesOnlyItsOwn | src/transport.rs:715-736 | In every run in which peers register again only after the old control task has cleaned up, each control task, cancelled or not, removes only its own connection. |
| ChannelOwnership.LateControlCleanupRemovesANewerConnection | src/transport.rs:715-736 | A concrete run otherwise: the task of a connection dropped by hand removes and cancels the connection made after it, whose own task still runs. |
| Reconnect.Run | src/transport.rs:776-827 | Wait `k` is exactly min(initial * 2^k, max) for k > 0 and the initial delay for k = 0; the loop goes on exactly while every round failed and a limit `m > 0` is not reached; a finished loop sends event 1 exactly on success, 2 exactly on giving up or being switched off, once, and none on shutdown. |
| Reconnect.DoublingStep | src/transport.rs:822 | Saturating doubling of a wait, capped, is the next unbounded-integer wait. |
| Reconnect.FirstWaitNeedsValidConfig | src/config.rs:183-188 | The first wait follows the same formula if and only if the configuration passes validation in this respect. |
| Reconnect.BackoffGrows | src/transport.rs:822 | Waits never shrink and never exceed the maximum. |
| SessionRouters.SessionRouter.constructor | src/session_router.rs:47-64 | A new router routes directly, whatever the configured forwarding and threshold. |
| SessionRouters.SessionRouter.RouteMessage | src/session_router.rs:113-180 | Which queues get which packet and which error is returned, for every target, mode, role and failing encoding. |
| SessionRouters.SessionRouter.ForwardMessage | src/session_router.rs:210-247 | Only a leader forwards, to one peer or to all but the originator; the failing cases change no queue. |
| SessionRouters.SessionRouter.HandleForwardedUserData | src/session_router.rs:249-274 | The leader passes the data on exactly when it forwards automatically, and the local packet always comes back unchanged. |
| RoutingEquivalence.DirectReachesEveryoneOnce | src/session_router.rs:142-151 | A direct broadcast in a full mesh delivers one copy to every other node and none at the originator. |
| RoutingEquivalence.UnicastReachesItsTargetOnly | src/session_router.rs:153-177 | A message to a peer or to the leader arrives once there and nowhere else; the leader's own message to the leader succeeds without being sent. |
| RoutingEquivalence.ForwardReachesItsTargets | src/session_router.rs:236-244 | What the leader forwards arrives once at the named peer alone, or once at everybody but itself and the node it came from. |
| RoutingEquivalence.RoutingFailsExactly | src/session_router.rs:120-177 | Routing reports an invalid type, and a missing leader, exactly when there is one; a broadcast that is not through the leader fails only for its type or length; and no failure touches a queue. |
| RoutingEquivalence.ForwardingFailsExactly | src/session_router.rs:218-246 | Forwarding reports an invalid type, and a node that does not lead, exactly then; and no failure touches a queue. |
| RoutingEquivalence.DeliveredExactly | src/lib.rs:426-459 | The application misses a user packet if and only if its payload does not decode, and never a forwarded message, whose payload is handed over as it is if it does not decode. |
| RoutingEquivalence.CentralFromFollower | src/session_router.rs:130-141 | What a follower's centralized broadcast delivers at each single node, through the codecs of both ends: one copy there, or nothing if the envelope is over the limit of originator or leader, whatever its length cut to 32 bits says. |
| RoutingEquivalence.CentralFromLeader | src/session_router.rs:142-151 | A leader's centralized broadcast delivers exactly what its direct one does. |
| RoutingEquivalence.CentralizedBroadcastIsEquivalentExactly | src/session_router.rs:128-152 | Both modes deliver one copy to all but the originator, with equal payload, type and flag bits 1-7; the centralized one if and only if the originator leads, or its envelope is within the limits of originator and leader and the leader forwards automatically or has nobody else to forward to. |
| MembershipRules.CallKeepsObservable | src/membership.rs:65-103 | One call keeps the observers' replayed picture equal to the table. |
| MembershipRules.EventsRebuildTheTable | src/membership.rs:65-103 | After any calls, replaying the event log never contradicts itself (each StatusChanged `old` matches) and gives exactly the table's peers and statuses. |
| MembershipRules.InTheTableExactly | src/membership.rs:65-85 | After any calls a peer is in the table if and only if some call added it and no later one removed it. |
| MembershipRules.TheTableHoldsTheLastWord | src/membership.rs:65-161 | A member's entry holds the last status said since it joined, or Connected, the last time it was seen, the last round trip measured and the address it joined with. |
| MembershipRules.ConnectedExactly | src/membership.rs:136-142 | The peers that count towards a quorum are exactly the members last said to be connected. |
| MembershipRules.AnnouncedExactly | src/membership.rs:65-103 | Observers hear of a call if and only if it changed a status or who is in the table, once: a joining, a leaving, or a change from the true old status to the new one. |
| Membership.MembershipManager.constructor | src/membership.rs:48-56 | A new manager knows nobody and has sent nothing. |
| Membership.MembershipManager.AddPeer | src/membership.rs:65-76 | A known peer is an error and neither table nor log changes; a new one is entered as Connected with one event. |
| Membership.MembershipManager.RemovePeer | src/membership.rs:80-85 | Removes the peer, with an event exactly if it was there. |
| Membership.MembershipManager.UpdateStatus | src/membership.rs:89-103 | An event with the true old status exactly when the status of a known peer really changes. |
| Membership.MembershipManager.HandlePong | src/membership.rs:145-153 | Records the truncated, never negative round trip and the time of a known peer, with no event. |
| Membership.MembershipManager.UpdateLastSeen | src/membership.rs:156-161 | Refreshes the time of a known peer only, with no event. |
| Membership.MembershipManager.GetConnectedPeerCount | src/membership.rs:136-142 | The number of peers in the table whose status is Connected. |
| DnsLabel.SplitAtBoundary | src/discovery.rs:268-273 | Cutting valid UTF-8 at a character boundary leaves valid UTF-8 on both sides. |
| DnsLabel.BoundaryWithinFour | src/discovery.rs:269-271 | Of any four consecutive bytes of valid UTF-8 one starts a character. |
| DnsLabel.FindCut | src/discovery.rs:287-290 | The loop ends at the last character boundary not past the limit, at most 3 bytes below it, with valid UTF-8 on both sides. |
| DnsLabel.DnsLabelTruncate | src/discovery.rs:263-274 | A prefix of at most 63 bytes, the longest that ends on a character boundary, the whole string if it fits. |
| DnsLabel.ComputeFnv1a | src/discovery.rs:296-303 | The loop computes the 64-bit FNV-1a fold with wrapping products. |
| DnsLabel.FnvStepInjective | src/discovery.rs:298-301 | One step of the hash loses nothing: with either the byte or the hash before fixed, different inputs give different hashes. |
| DnsLabel.OneByteMatters | src/discovery.rs:296-303 | Two strings of one length that differ in exactly one byte have different hashes. |
| DnsLabel.FnvReferenceValues | src/discovery.rs:296-303 | The published FNV-1a values of the empty string and of "a". |
| DnsLabel.HexReadsBack | src/discovery.rs:292 | The sixteen digits written read back as the hash, in lower case. |
| DnsLabel.MakeUniqueDnsLabel | src/discovery.rs:281-293 | At most 63 bytes of valid UTF-8, the 17-byte hash suffix included, at most 3 bytes short of that for long inputs, and the input itself if it fits. |
| DnsLabel.HexInjective | src/discovery.rs:292 | Numbers below 16^k with equal k-digit hexadecimal forms are equal. |
| DnsLabel.LabelsCoincideExactly | src/discovery.rs:276-293 | Two valid inputs share a label if and only if they are equal, or both are long with equal prefix and 64-bit hash, or one is long and the other is its prefix and suffix spelled out. |
| DnsLabel.LongInputSharesItsLabel | src/discovery.rs:276-293 | Every long input shares its label with a different valid input, the label itself. |
| DnsLabel.DistinctInputsShareALabel | src/discovery.rs:276-293 | A concrete pair: 64 times the letter a, and its label. |

## Left out

Premises the results rest on:

- HeartbeatSafety.HeartbeatsOfATermAgree: stated, like `HonestInEveryRun` and `LeaderYieldsOnlyToHigherTerm`, for runs in which a sender of a heartbeat still leads when it reads its term; without that both fail, and `HeartbeatRace` gives the runs. `RootedInEveryRun` and `FollowedLeadersWereElected` have no such premise.
- ElectionSafety.LeadersOfATermAgree: a tally must count a majority of the cluster; the code uses the momentary count of connected peers (`src/lib.rs:402`), and `QuorumExactness` shows what happens otherwise.
- ElectionSafety.LeadersOfATermAgree: assignments are excluded, terms must not wrap around (a debug build would panic there), and a node does not come back under its old identifier after losing its in-memory state.
- NodeRuns.RolesInEveryRun: `handle_peer_left` is not called with the local identifier; `RoleStep` shows this is the only exception.
- ChannelOwnership.LiveReaderIsRegistered: the check and the clear of a data-channel cleanup are taken as one step, or the clear finds its token still uncancelled; `LateClearBreaksExactly` says what happens otherwise.
- ChannelOwnership.PatientCleanupRemovesOnlyItsOwn: re-registration only after the old control task has cleaned up; `ControlCleanupRemovesExactly` says what happens otherwise.
- Codec.EndToEnd: LZ4 is any pair of functions of which decompression undoes compression.
- RoutingEquivalence.CentralizedBroadcastIsEquivalentExactly: a full mesh of connected peers with room in their queues, one agreed leader, a message within every node's size limit, and postcard as an encoding whose decoding undoes it.
- QuietCluster.NoElectionWhileAllFollow: the timer's three checks and the start it makes are one step; the election results let a timeout start an election at any moment, so they cover a heartbeat arriving in between.
- Following.LeaderIsFollowedAfterAnyRun: no further election is opened while the heartbeats travel.
- Reconnect.Run: whether a wait, a connection attempt or a runtime switch ends a round is an input; that each wait lasts as long as asked is the timer's business.
- NodeDriver.HandlingIsDelivery: handling without interruption, at a node not in the middle of a heartbeat tick; the interrupted case is the cluster's separate steps.

How the model differs from the source:

- Each operation and the notice or event it sends are one step, although the source sends after releasing the lock; two concurrent operations may therefore send in the other order.
- Notices and events are those sent: the notification channel drops when full and the membership broadcast lags, and neither is modelled.
- In `Broadcast` and `SendToPeer` the reading of the table and the queueing are one step; the source queues on cloned senders after releasing the lock.
- `set_leader` and the broadcast of its assignment (`src/ffi.rs:571-583`) are one step of the cluster.
- A message that is encoded for sending is assumed to be within the size limit in the election modules, so encoding never fails there.
- The write tasks appear as steps that take from a queue or close it; the tasks themselves, and the sink they write to, are in `Pipeline`.
- Cancellation tokens are named by kind, peer and a serial number; cancelling the shutdown token cancels them all.
- Times are numbers passed in; `Instant` and the wall clock are not told apart.
- `PeerInfo` carries address, status, time and round trip only; a connection carries no statistics.

Not modelled:

- FFI exports, the callback thread and the C# bindings: pass-through.
- Sockets, keepalive, linger, timers, the mDNS daemon and the tokio scheduler: timeouts are steps that may happen at any time.
- Handshakes, data-channel handshakes, peer-list sync, ping and pong as messages, what a heartbeat response does where it arrives, and opening the data channel: connection set-up that ends in the registrations modelled here.
- A bound of `max_connections` under concurrent handshakes: the check is apart from the insert.
- Replacement of a leader that timed out, and agreement after concurrent assignments: the code does neither (`src/lib.rs:493-497`, `src/lib.rs:631-634`, `src/leader.rs:283-291`).
- Election liveness: it depends on random timers.
- Order of user messages across a switch from the control to the data channel: they travel on different sockets.
- `send_from_leader`, `check_timeouts`, `get_connected_peers`, `drain_send_queues`, the transport's `update_peer_status`, which nothing calls, and the farewell messages: one-branch members that add nothing to the results. The router's three setters and the notice helper of the election module are in the classes, without a row.
- Remaining configuration checks, error codes and message-type constants: single-branch facts.
