/** The reconnect loop: exponential backoff with saturating arithmetic. */
module Reconnect {
  import opened Types

  type u8 = x: int | 0 <= x < 0x100

  const U32_MAX: u32 := 0xFFFF_FFFF

  /** What the world does in one round: the wait may end in a shutdown or find
      reconnecting switched off, and the connection attempt may be cut short by a
      shutdown, succeed or fail. */
  datatype Round = ShutdownInWait | SwitchedOff | ShutdownInConnect | Connects | Fails

  /** Lifecycle events as sent to the observer. */
  const SUCCEEDED: u8 := 1
  const GAVE_UP: u8 := 2

  function Min(a: int, b: int): int {
    if a < b then a else b
  }

  function SaturatingDouble(n: u32): u32 {
    Min(2 * n as int, U32_MAX)
  }

  function Pow2(k: nat): nat {
    if k == 0 then 1 else 2 * Pow2(k - 1)
  }

  /** The documented wait before attempt `k`, over unbounded integers. */
  function Backoff(initial: u16, max: u32, k: nat): u32
  {
    PowPositive(k);
    Min(initial * Pow2(k), max)
  }

  lemma PowPositive(k: nat)
    ensures Pow2(k) >= 1
  {
  }

  predicate Attempts(r: Round) {
    r.ShutdownInConnect? || r.Connects? || r.Fails?
  }

  /** Round `k` is the last one: anything but a failure with retries left. */
  predicate Final(r: Round, k: nat, maxRetries: u8) {
    !r.Fails? || (maxRetries > 0 && k + 1 >= maxRetries)
  }

  function TerminalEvents(r: Round): seq<u8> {
    match r
    case Connects => [SUCCEEDED]
    case Fails => [GAVE_UP]
    case SwitchedOff => [GAVE_UP]
    case _ => []
  }

  predicate StoppedByShutdown(r: Round) {
    r.ShutdownInWait? || r.ShutdownInConnect?
  }

  lemma DoublingStep(initial: u16, max: u32, k: nat, delay: u32)
    requires delay == (if k == 0 then initial as int else Backoff(initial, max, k))
    ensures Min(SaturatingDouble(delay), max) == Backoff(initial, max, k + 1)
  {
    PowPositive(k);
    assert initial * Pow2(k + 1) == 2 * (initial * Pow2(k));
  }

  /** Run the loop against the given rounds; `running` if they ran out first. A
      loop that ends sends exactly one terminal event, and none on shutdown. */
  method Run(initial: u16, max: u32, maxRetries: u8, rounds: seq<Round>)
    returns (waits: seq<u32>, connects: nat, events: seq<u8>, running: bool)
    ensures |waits| <= |rounds|
    ensures forall k | 0 <= k < |waits| :: waits[k] == if k == 0 then initial as int else Backoff(initial, max, k)
    ensures forall k | 0 <= k < |waits| - 1 :: rounds[k] == Fails && !Final(rounds[k], k, maxRetries)
    ensures running ==> |waits| == |rounds| && events == []
    ensures running && rounds != [] ==> !Final(rounds[|rounds| - 1], |rounds| - 1, maxRetries)
    ensures !running ==> waits != [] && Final(rounds[|waits| - 1], |waits| - 1, maxRetries)
                         && events == TerminalEvents(rounds[|waits| - 1])
    ensures |events| == if running || StoppedByShutdown(rounds[|waits| - 1]) then 0 else 1
    ensures running <==> (forall r | r in rounds :: r.Fails?) && (maxRetries > 0 ==> |rounds| < maxRetries)
    ensures events == [1] <==> !running && rounds[|waits| - 1].Connects?
    ensures events == [2] <==> !running && (rounds[|waits| - 1].SwitchedOff? || rounds[|waits| - 1].Fails?)
    ensures connects == if waits == [] then 0 else |waits| - 1 + if Attempts(rounds[|waits| - 1]) then 1 else 0
    ensures maxRetries > 0 ==> connects <= maxRetries && (|rounds| >= maxRetries ==> !running)
  {
    waits, connects, events, running := [], 0, [], true;
    var delay: u32, attempts: u8 := initial, 0;
    var k := 0;
    while k < |rounds|
      invariant k == |waits| == connects <= |rounds| && running && events == []
      invariant attempts == Min(k, 255)
      invariant maxRetries > 0 ==> k < maxRetries
      invariant delay == if k == 0 then initial as int else Backoff(initial, max, k)
      invariant forall j | 0 <= j < k :: waits[j] == if j == 0 then initial as int else Backoff(initial, max, j)
      invariant forall j | 0 <= j < k :: rounds[j] == Fails && !Final(rounds[j], j, maxRetries)
    {
      waits := waits + [delay];
      running := false;
      match rounds[k]
      case ShutdownInWait => return;
      case SwitchedOff =>
        events := [GAVE_UP];
        return;
      case ShutdownInConnect =>
        connects := connects + 1;
        return;
      case Connects =>
        connects := connects + 1;
        events := [SUCCEEDED];
        return;
      case Fails =>
        connects := connects + 1;
        attempts := Min(attempts + 1, 255);
        if maxRetries > 0 && attempts >= maxRetries {
          events := [GAVE_UP];
          return;
        }
        DoublingStep(initial, max, k, delay);
        delay := Min(SaturatingDouble(delay), max);
      running := true;
      k := k + 1;
    }
  }

  /** The first wait is the documented one exactly for configurations that pass
      validation; every later wait is the documented one for all of them. */
  lemma FirstWaitNeedsValidConfig(initial: u16, max: u32)
    ensures initial == Backoff(initial, max, 0) <==> initial <= max
  {
  }

  /** Waits never shrink and never exceed the maximum. */
  lemma {:induction false} BackoffGrows(initial: u16, max: u32, j: nat, k: nat)
    requires j <= k
    ensures Backoff(initial, max, j) <= Backoff(initial, max, k) <= max
    decreases k
  {
    if j < k {
      BackoffGrows(initial, max, j, k - 1);
      PowPositive(k - 1);
      assert initial * Pow2(k) == 2 * (initial * Pow2(k - 1));
    }
  }
}
