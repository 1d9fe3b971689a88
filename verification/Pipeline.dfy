/** One channel of a connection, from the bounded send queue of one peer to the
    incoming queue of the other, as a state machine: bytes cross in pieces of any
    size, and the writer and the reader may stop at any point. */
module Pipeline {
  import opened Types
  import opened Messaging
  import opened Codec

  /** Queue capacity and the size limits of the two ends, which need not agree. */
  datatype Limits = Limits(capacity: nat, writerMax: u32, readerMax: u32)

  /** `accepted` and `taken` are history: what `try_send` took, and what the writer framed. */
  datatype Channel = Channel(
    accepted: seq<RawPacket>,
    queue: seq<RawPacket>,
    taken: seq<RawPacket>,
    unflushed: seq<byte>,
    wire: seq<byte>,
    received: seq<byte>,
    delivered: seq<RawPacket>,
    writerUp: bool,
    readerUp: bool)

  datatype Step =
    | TrySend(packet: RawPacket)
    | Write
    | Flush(bytes: nat)
    | Arrive(bytes: nat)
    | Deliver
    | StopWriter
    | StopReader

  const Opened := Channel([], [], [], [], [], [], [], true, true)

  function Apply(l: Limits, c: Channel, step: Step): Channel {
    match step
    case TrySend(p) =>
      if c.writerUp && |c.queue| < l.capacity then c.(accepted := c.accepted + [p], queue := c.queue + [p]) else c
    case Write =>
      if !c.writerUp || c.queue == [] then c
      else
        var p := c.queue[0];
        if |p.payload| > l.writerMax then c.(writerUp := false, queue := [])
        else c.(queue := c.queue[1..], taken := c.taken + [p], unflushed := c.unflushed + Frame(p))
    case Flush(n) =>
      if c.writerUp && n <= |c.unflushed| then
        c.(unflushed := c.unflushed[n..], wire := c.wire + c.unflushed[..n])
      else c
    case Arrive(n) =>
      if c.readerUp && n <= |c.wire| then c.(wire := c.wire[n..], received := c.received + c.wire[..n]) else c
    case Deliver =>
      if !c.readerUp then c
      else
        (match DecodeOne(l.readerMax, c.received)
         case NeedMore => c
         case TooLarge(_) => c.(readerUp := false)
         case Packet(p, rest) => c.(delivered := c.delivered + [p], received := rest))
    case StopWriter => c.(writerUp := false, queue := [])
    case StopReader => c.(readerUp := false)
  }

  function Exec(l: Limits, c: Channel, steps: seq<Step>): Channel {
    if steps == [] then c else Apply(l, Exec(l, c, steps[..|steps| - 1]), steps[|steps| - 1])
  }

  // --- the invariant ---------------------------------------------------------

  ghost predicate Framable(l: Limits, ps: seq<RawPacket>) {
    forall p | p in ps :: |p.payload| <= l.writerMax
  }

  /** The bytes under way are exactly the frames of what was taken and not yet
      delivered, and the queue is exactly what was accepted and not yet taken. */
  ghost predicate Consistent(l: Limits, c: Channel) {
    && Framable(l, c.taken)
    && c.delivered <= c.taken <= c.accepted
    && (c.writerUp ==> c.accepted == c.taken + c.queue)
    && c.received + (c.wire + c.unflushed) == FrameAll(c.taken[|c.delivered|..])
  }

  lemma {:induction false} FrameAllSnoc(l: Limits, ps: seq<RawPacket>, p: RawPacket)
    requires Framable(l, ps + [p])
    ensures FrameAll(ps + [p]) == FrameAll(ps) + Frame(p)
  {
    if ps == [] {
      assert [p][1..] == [] && ps + [p] == [p];
    } else {
      assert (ps + [p])[1..] == ps[1..] + [p];
      FrameAllSnoc(l, ps[1..], p);
    }
  }

  /** One more frame at the end of the bytes under way is one more packet pending. */
  lemma PendingBytes(l: Limits, pending: seq<RawPacket>, received: seq<byte>, wire: seq<byte>, unflushed: seq<byte>,
                     p: RawPacket)
    requires Framable(l, pending + [p]) && Framable(l, pending)
    requires received + (wire + unflushed) == FrameAll(pending)
    ensures received + (wire + (unflushed + Frame(p))) == FrameAll(pending + [p])
  {
    FrameAllSnoc(l, pending, p);
    Regroup(wire, unflushed, Frame(p));
    Regroup(received, wire + unflushed, Frame(p));
  }

  lemma FramableMore(l: Limits, taken: seq<RawPacket>, delivered: nat, p: RawPacket)
    requires Framable(l, taken) && delivered <= |taken| && |p.payload| <= l.writerMax
    ensures Framable(l, taken + [p]) && Framable(l, taken[delivered..]) && Framable(l, taken[delivered..] + [p])
    ensures (taken + [p])[delivered..] == taken[delivered..] + [p]
  {
  }

  lemma WriteBytes(l: Limits, c: Channel, p: RawPacket)
    requires Consistent(l, c) && |p.payload| <= l.writerMax
    ensures Framable(l, c.taken + [p])
    ensures c.received + (c.wire + (c.unflushed + Frame(p))) == FrameAll((c.taken + [p])[|c.delivered|..])
  {
    FramableMore(l, c.taken, |c.delivered|, p);
    PendingBytes(l, c.taken[|c.delivered|..], c.received, c.wire, c.unflushed, p);
  }

  lemma WriteKeeps(l: Limits, c: Channel)
    requires Consistent(l, c) && c.writerUp && c.queue != []
    ensures Consistent(l, Apply(l, c, Write))
  {
    var p := c.queue[0];
    if |p.payload| <= l.writerMax {
      WriteBytes(l, c, p);
      assert c.taken + c.queue == c.taken + [p] + c.queue[1..];
    }
  }

  lemma MoveKeeps(l: Limits, c: Channel, n: nat)
    requires Consistent(l, c)
    ensures Consistent(l, Apply(l, c, Flush(n))) && Consistent(l, Apply(l, c, Arrive(n)))
  {
    if n <= |c.unflushed| {
      assert c.wire + c.unflushed[..n] + c.unflushed[n..] == c.wire + c.unflushed;
    }
    if n <= |c.wire| {
      assert c.received + c.wire[..n] + (c.wire[n..] + c.unflushed) == c.received + (c.wire + c.unflushed);
    }
  }

  /** What the reader takes off a proper prefix of framed packets is the first of them. */
  lemma FirstFrame(l: Limits, pending: seq<RawPacket>, front: seq<byte>, back: seq<byte>)
    requires Framable(l, pending) && front + back == FrameAll(pending)
    ensures var d := DecodeOne(l.readerMax, front);
            && (d.Packet? ==> pending != [] && d.packet == pending[0] && |d.packet.payload| <= l.readerMax
                              && d.rest + back == FrameAll(pending[1..]))
            && (d.TooLarge? ==> pending != [] && |pending[0].payload| == d.length > l.readerMax)
  {
    DecodeMore(l.readerMax, front, back);
    if pending != [] {
      DecodeFrame(l.readerMax, pending[0], FrameAll(pending[1..]));
    }
  }

  lemma DeliverBytes(l: Limits, taken: seq<RawPacket>, delivered: seq<RawPacket>, received: seq<byte>, back: seq<byte>)
    requires Framable(l, taken) && delivered <= taken
    requires received + back == FrameAll(taken[|delivered|..])
    requires DecodeOne(l.readerMax, received).Packet?
    ensures var d := DecodeOne(l.readerMax, received);
            && |delivered| < |taken| && d.packet == taken[|delivered|]
            && d.rest + back == FrameAll(taken[|delivered| + 1..])
  {
    var pending := taken[|delivered|..];
    FirstFrame(l, pending, received, back);
    assert pending[1..] == taken[|delivered| + 1..];
  }

  lemma DeliverKeeps(l: Limits, c: Channel)
    requires Consistent(l, c)
    ensures Consistent(l, Apply(l, c, Deliver))
  {
    if DecodeOne(l.readerMax, c.received).Packet? {
      DeliverBytes(l, c.taken, c.delivered, c.received, c.wire + c.unflushed);
    }
  }

  lemma StepKeeps(l: Limits, c: Channel, step: Step)
    requires Consistent(l, c)
    ensures Consistent(l, Apply(l, c, step))
  {
    match step
    case TrySend(p) => assert c.taken + c.queue + [p] == c.taken + (c.queue + [p]);
    case Write => if c.writerUp && c.queue != [] { WriteKeeps(l, c); }
    case Flush(n) => MoveKeeps(l, c, n);
    case Arrive(n) => MoveKeeps(l, c, n);
    case Deliver => DeliverKeeps(l, c);
    case _ =>
  }

  lemma {:induction false} ConsistentInEveryRun(l: Limits, steps: seq<Step>)
    ensures Consistent(l, Exec(l, Opened, steps))
  {
    if steps != [] {
      ConsistentInEveryRun(l, steps[..|steps| - 1]);
      StepKeeps(l, Exec(l, Opened, steps[..|steps| - 1]), steps[|steps| - 1]);
    }
  }

  // --- what follows ----------------------------------------------------------

  /** What the reader hands over is always a prefix of what the sender's queue accepted. */
  lemma DeliveredIsPrefix(l: Limits, steps: seq<Step>)
    ensures Exec(l, Opened, steps).delivered <= Exec(l, Opened, steps).accepted
  {
    ConsistentInEveryRun(l, steps);
  }

  /** Nothing is lost while both ends run: once the queue and the bytes under way
      have drained, everything accepted has been delivered. */
  lemma NothingIsLost(l: Limits, steps: seq<Step>)
    requires var c := Exec(l, Opened, steps);
             c.writerUp && c.queue == [] && c.unflushed == [] && c.wire == [] && c.received == []
    ensures Exec(l, Opened, steps).delivered == Exec(l, Opened, steps).accepted
  {
    ConsistentInEveryRun(l, steps);
    var c := Exec(l, Opened, steps);
    var pending := c.taken[|c.delivered|..];
    assert FrameAll(pending) == [];
    assert pending == [];
  }

  /** The reader refuses a stream exactly because the next packet is over its own
      limit; with a limit no smaller than the writer's it never does. */
  lemma RefusalsAreOversize(l: Limits, steps: seq<Step>)
    ensures var c := Exec(l, Opened, steps);
            DecodeOne(l.readerMax, c.received).TooLarge? ==>
              && |c.delivered| < |c.accepted|
              && |c.accepted[|c.delivered|].payload| > l.readerMax
              && l.readerMax < l.writerMax
  {
    ConsistentInEveryRun(l, steps);
    var c := Exec(l, Opened, steps);
    var pending := c.taken[|c.delivered|..];
    FirstFrame(l, pending, c.received, c.wire + c.unflushed);
    if DecodeOne(l.readerMax, c.received).TooLarge? {
      assert pending[0] == c.taken[|c.delivered|] == c.accepted[|c.delivered|];
    }
  }

  // --- a channel that stays up delivers everything ---------------------------

  lemma ExecSnoc(l: Limits, c: Channel, steps: seq<Step>, step: Step)
    ensures Exec(l, c, steps + [step]) == Apply(l, Exec(l, c, steps), step)
  {
    assert (steps + [step])[..|steps|] == steps;
  }

  lemma {:induction false} ExecConcat(l: Limits, c: Channel, a: seq<Step>, b: seq<Step>)
    ensures Exec(l, c, a + b) == Exec(l, Exec(l, c, a), b)
  {
    if b == [] {
      assert a + b == a;
    } else {
      var front := b[..|b| - 1];
      assert a + b == (a + front) + [b[|b| - 1]];
      ExecSnoc(l, c, a + front, b[|b| - 1]);
      ExecConcat(l, c, a, front);
    }
  }

  lemma OneStep(l: Limits, c: Channel, step: Step)
    ensures Exec(l, c, [step]) == Apply(l, c, step)
  {
    ExecSnoc(l, c, [], step);
    assert [] + [step] == [step];
  }

  /** Both ends run, and both accept every packet the queue accepted. */
  ghost predicate Healthy(l: Limits, c: Channel) {
    && Consistent(l, c) && c.writerUp && c.readerUp
    && forall p | p in c.accepted :: |p.payload| <= l.writerMax && |p.payload| <= l.readerMax
  }

  lemma {:induction false} WriteAll(l: Limits, c: Channel) returns (steps: seq<Step>)
    requires Healthy(l, c)
    ensures var d := Exec(l, c, steps); Healthy(l, d) && d.accepted == c.accepted && d.queue == []
    decreases |c.queue|
  {
    if c.queue == [] {
      steps := [];
    } else {
      var d := Apply(l, c, Write);
      assert c.queue[0] in c.accepted by { assert c.accepted[|c.taken|] == c.queue[0]; }
      StepKeeps(l, c, Write);
      OneStep(l, c, Write);
      var rest := WriteAll(l, d);
      ExecConcat(l, c, [Write], rest);
      steps := [Write] + rest;
    }
  }

  lemma FlushAll(l: Limits, c: Channel)
    requires Healthy(l, c)
    ensures var d := Apply(l, c, Flush(|c.unflushed|));
            Healthy(l, d) && d.accepted == c.accepted && d.queue == c.queue && d.unflushed == []
  {
    StepKeeps(l, c, Flush(|c.unflushed|));
  }

  lemma ArriveAll(l: Limits, c: Channel)
    requires Healthy(l, c)
    ensures var d := Apply(l, c, Arrive(|c.wire|));
            && Healthy(l, d) && d.accepted == c.accepted && d.queue == c.queue
            && d.unflushed == c.unflushed && d.wire == []
  {
    StepKeeps(l, c, Arrive(|c.wire|));
  }

  /** All bytes under way cross to the reader. */
  lemma Cross(l: Limits, c: Channel) returns (steps: seq<Step>)
    requires Healthy(l, c) && c.queue == []
    ensures var d := Exec(l, c, steps);
            && Healthy(l, d) && d.accepted == c.accepted && d.queue == []
            && d.wire == [] && d.unflushed == []
  {
    FlushAll(l, c);
    OneStep(l, c, Flush(|c.unflushed|));
    var d := Apply(l, c, Flush(|c.unflushed|));
    ArriveAll(l, d);
    steps := [Flush(|c.unflushed|)] + [Arrive(|d.wire|)];
    ExecSnoc(l, c, [Flush(|c.unflushed|)], Arrive(|d.wire|));
  }

  lemma DeliverOne(l: Limits, c: Channel)
    requires Healthy(l, c) && c.wire == [] && c.unflushed == [] && |c.delivered| < |c.taken|
    ensures var d := Apply(l, c, Deliver);
            && Healthy(l, d) && d.accepted == c.accepted && d.taken == c.taken && d.queue == c.queue
            && d.wire == [] && d.unflushed == [] && |d.delivered| == |c.delivered| + 1
  {
    StepKeeps(l, c, Deliver);
    var pending := c.taken[|c.delivered|..];
    assert pending[0] == c.taken[|c.delivered|] == c.accepted[|c.delivered|];
    assert c.received + ([] + []) == c.received;
    DecodeFrame(l.readerMax, pending[0], FrameAll(pending[1..]));
  }

  lemma {:induction false} DeliverAll(l: Limits, c: Channel) returns (steps: seq<Step>)
    requires Healthy(l, c) && c.queue == [] && c.wire == [] && c.unflushed == []
    ensures Exec(l, c, steps).delivered == c.accepted && Exec(l, c, steps).accepted == c.accepted
    decreases |c.taken| - |c.delivered|
  {
    assert c.taken + c.queue == c.taken;
    if |c.delivered| == |c.taken| {
      steps := [];
    } else {
      DeliverOne(l, c);
      OneStep(l, c, Deliver);
      var rest := DeliverAll(l, Apply(l, c, Deliver));
      ExecConcat(l, c, [Deliver], rest);
      steps := [Deliver] + rest;
    }
  }

  /** From any point of any run at which both ends still run, everything accepted so
      far can still be delivered, if it is within both limits. */
  lemma EverythingCanArrive(l: Limits, past: seq<Step>) returns (steps: seq<Step>)
    requires Healthy(l, Exec(l, Opened, past))
    ensures Exec(l, Opened, past + steps).delivered == Exec(l, Opened, past).accepted
  {
    var c := Exec(l, Opened, past);
    var write := WriteAll(l, c);
    var d := Exec(l, c, write);
    var cross := Cross(l, d);
    var e := Exec(l, d, cross);
    var deliver := DeliverAll(l, e);
    ExecConcat(l, c, write, cross);
    ExecConcat(l, c, write + cross, deliver);
    steps := write + cross + deliver;
    ExecConcat(l, Opened, past, steps);
  }

  /** A packet is accepted if and only if the writer runs and the queue has room, and
      the writer gives up of itself only at a packet over its own limit. */
  lemma AcceptedExactly(l: Limits, c: Channel, p: RawPacket)
    ensures var d := Apply(l, c, TrySend(p));
            && (d.accepted == c.accepted + [p] <==> c.writerUp && |c.queue| < l.capacity)
            && (d.accepted == c.accepted + [p] || d == c)
    ensures c.writerUp ==>
              (!Apply(l, c, Write).writerUp <==> c.queue != [] && |c.queue[0].payload| > l.writerMax)
    ensures c.readerUp ==>
              (!Apply(l, c, Deliver).readerUp <==> DecodeOne(l.readerMax, c.received).TooLarge?)
  {
    assert |c.accepted + [p]| == |c.accepted| + 1;
  }
}
