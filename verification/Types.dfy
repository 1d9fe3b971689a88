/** Fixed-width integers, peer identifiers and the byte-wise order on them. */
module Types {
  type byte = x: int | 0 <= x < 0x100
  type u16 = x: int | 0 <= x < 0x1_0000
  type u32 = x: int | 0 <= x < 0x1_0000_0000

  const U64_MAX: int := 0xFFFF_FFFF_FFFF_FFFF
  type u64 = x: int | 0 <= x <= U64_MAX

  /** A peer identifier is a UTF-8 string; Rust compares strings byte by byte. */
  type PeerId = seq<byte>

  datatype Option<+T> = None | Some(value: T)

  datatype PeerStatus = Connected | Disconnected | Reconnecting | Handshaking

  /** The strict lexicographic order that `<` on `str` denotes. */
  predicate Less(a: PeerId, b: PeerId) {
    if b == [] then false
    else if a == [] then true
    else a[0] < b[0] || (a[0] == b[0] && Less(a[1..], b[1..]))
  }

  lemma {:induction false} LessIrreflexive(a: PeerId)
    ensures !Less(a, a)
  {
    if a != [] { LessIrreflexive(a[1..]); }
  }

  lemma {:induction false} LessTransitive(a: PeerId, b: PeerId, c: PeerId)
    requires Less(a, b) && Less(b, c)
    ensures Less(a, c)
  {
    if a != [] && a[0] == b[0] && b[0] == c[0] {
      LessTransitive(a[1..], b[1..], c[1..]);
    }
  }

  lemma {:induction false} LessTotal(a: PeerId, b: PeerId)
    ensures Less(a, b) || Less(b, a) || a == b
  {
    if a != [] && b != [] && a[0] == b[0] {
      LessTotal(a[1..], b[1..]);
      assert a == [a[0]] + a[1..] && b == [b[0]] + b[1..];
    }
  }

  lemma LessAsymmetric(a: PeerId, b: PeerId)
    requires Less(a, b)
    ensures !Less(b, a) && a != b
  {
    LessIrreflexive(a);
    if Less(b, a) { LessTransitive(a, b, a); }
  }

  /** Where two strings part, the one with the smaller byte, or without one, is less. */
  predicate PartsAt(a: PeerId, b: PeerId, k: nat) {
    && k <= |a| && k < |b| && a[..k] == b[..k]
    && (k == |a| || a[k] < b[k])
  }

  lemma {:induction false} LessIsByteOrder(a: PeerId, b: PeerId)
    ensures Less(a, b) <==> exists k: nat :: PartsAt(a, b, k)
  {
    if b != [] && a != [] && a[0] == b[0] {
      LessIsByteOrder(a[1..], b[1..]);
      forall k: nat ensures PartsAt(a[1..], b[1..], k) <==> PartsAt(a, b, k + 1) { PartsLater(a, b, k); }
      if k: nat :| PartsAt(a, b, k) {
        assert k > 0;
        assert PartsAt(a[1..], b[1..], k - 1);
      }
    } else {
      assert b != [] && (a == [] || a[0] < b[0]) ==> PartsAt(a, b, 0);
      forall k: nat | PartsAt(a, b, k) ensures b != [] && (a == [] || a[0] < b[0]) { PartsFirst(a, b, k); }
    }
  }

  lemma PartsFirst(a: PeerId, b: PeerId, k: nat)
    requires PartsAt(a, b, k)
    ensures b != [] && (a == [] || a[0] <= b[0])
    ensures a != [] && a[0] == b[0] ==> k > 0
  {
    if k > 0 { assert a[..k][0] == b[..k][0]; }
  }

  lemma PartsLater(a: PeerId, b: PeerId, k: nat)
    requires a != [] && b != [] && a[0] == b[0]
    ensures PartsAt(a[1..], b[1..], k) <==> PartsAt(a, b, k + 1)
  {
    if k + 1 <= |a| && k + 1 <= |b| {
      assert a[..k + 1] == [a[0]] + a[1..][..k] && b[..k + 1] == [b[0]] + b[1..][..k];
      assert a[1..][..k] == a[..k + 1][1..] && b[1..][..k] == b[..k + 1][1..];
    }
  }

  /** `m` is the greatest identifier of `s`. */
  ghost predicate IsGreatest(m: PeerId, s: set<PeerId>) {
    m in s && forall p | p in s && p != m :: Less(p, m)
  }

  /** Every nonempty finite set of identifiers has a greatest one. */
  lemma {:induction false} GreatestExists(s: set<PeerId>) returns (m: PeerId)
    requires s != {}
    ensures IsGreatest(m, s)
    decreases |s|
  {
    var p :| p in s;
    if s == {p} {
      m := p;
    } else {
      var rest := GreatestExists(s - {p});
      LessTotal(p, rest);
      if Less(p, rest) {
        m := rest;
      } else {
        m := p;
        forall q | q in s && q != p ensures Less(q, p) {
          if q != rest { LessTransitive(q, rest, p); }
        }
      }
    }
  }
}
