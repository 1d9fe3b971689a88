/** DNS labels cut from UTF-8 strings (section 2.3.4 of RFC 1035, section 3 of RFC 3629). */
module DnsLabel {
  import opened Types

  const MAX_DNS_LABEL_BYTES := 63

  // --- UTF-8 -----------------------------------------------------------------

  predicate IsContinuation(b: byte) {
    0x80 <= b < 0xC0
  }

  /** Bytes in the character a lead byte announces; 0 if it announces none. */
  function Width(lead: byte): nat {
    if lead < 0x80 then 1
    else if 0xC2 <= lead < 0xE0 then 2
    else if 0xE0 <= lead < 0xF0 then 3
    else if 0xF0 <= lead < 0xF5 then 4
    else 0
  }

  /** Second bytes that would make an overlong form, a surrogate or a value above U+10FFFF are out. */
  predicate SecondByteFits(lead: byte, second: byte) {
    && IsContinuation(second)
    && (lead == 0xE0 ==> second >= 0xA0) && (lead == 0xED ==> second < 0xA0)
    && (lead == 0xF0 ==> second >= 0x90) && (lead == 0xF4 ==> second < 0x90)
  }

  predicate StartsWithChar(s: seq<byte>) {
    && s != [] && 1 <= Width(s[0]) <= |s|
    && (Width(s[0]) > 1 ==> SecondByteFits(s[0], s[1]))
    && forall i | 2 <= i < Width(s[0]) :: IsContinuation(s[i])
  }

  predicate ValidUtf8(s: seq<byte>) {
    s == [] || (StartsWithChar(s) && ValidUtf8(s[Width(s[0])..]))
  }

  /** `str::is_char_boundary` */
  predicate IsCharBoundary(s: seq<byte>, i: nat) {
    i == 0 || i == |s| || (i < |s| && !IsContinuation(s[i]))
  }

  lemma BoundaryIsPastFirst(s: seq<byte>, i: nat)
    requires StartsWithChar(s) && 1 <= i <= |s| && IsCharBoundary(s, i)
    ensures i >= Width(s[0])
  {
  }

  /** Cutting valid UTF-8 at a character boundary leaves valid UTF-8 on both sides. */
  lemma {:induction false} SplitAtBoundary(s: seq<byte>, i: nat)
    requires ValidUtf8(s) && i <= |s| && IsCharBoundary(s, i)
    ensures ValidUtf8(s[..i]) && ValidUtf8(s[i..])
    decreases |s|
  {
    if i == 0 {
      assert s[0..] == s;
    } else {
      var w := Width(s[0]);
      BoundaryIsPastFirst(s, i);
      assert IsCharBoundary(s[w..], i - w);
      SplitAtBoundary(s[w..], i - w);
      assert s[..i][w..] == s[w..][..i - w] && s[i..] == s[w..][i - w..];
      var front := s[..i];
      assert forall k | 0 <= k < i :: front[k] == s[k];
      assert StartsWithChar(front);
    }
  }

  lemma {:induction false} JoinValid(a: seq<byte>, b: seq<byte>)
    requires ValidUtf8(a) && ValidUtf8(b)
    ensures ValidUtf8(a + b)
    decreases |a|
  {
    if a == [] {
      assert a + b == b;
    } else {
      var w := Width(a[0]);
      JoinValid(a[w..], b);
      assert (a + b)[w..] == a[w..] + b;
    }
  }

  lemma {:induction false} AsciiValid(s: seq<byte>)
    requires forall i | 0 <= i < |s| :: s[i] < 0x80
    ensures ValidUtf8(s)
  {
    if s != [] { AsciiValid(s[1..]); }
  }

  /** Of four consecutive bytes one starts a character. */
  lemma {:induction false} BoundaryWithinFour(s: seq<byte>, i: nat)
    requires ValidUtf8(s) && i + 3 < |s|
    ensures exists j | i <= j <= i + 3 :: !IsContinuation(s[j])
    decreases |s|
  {
    var w := Width(s[0]);
    if i == 0 {
      assert !IsContinuation(s[0]);
    } else if i < w {
      assert s[w..][0] == s[w];
      assert !IsContinuation(s[w]);
    } else {
      BoundaryWithinFour(s[w..], i - w);
      var j :| i - w <= j <= i - w + 3 && !IsContinuation(s[w..][j]);
      assert s[w..][j] == s[j + w];
    }
  }

  // --- truncation ------------------------------------------------------------

  /** The last character boundary no later than `limit`. */
  function Cut(s: seq<byte>, limit: nat): (end: nat)
    ensures end <= limit && IsCharBoundary(s, end)
    ensures forall i | end < i <= limit :: !IsCharBoundary(s, i)
  {
    if IsCharBoundary(s, limit) then limit else Cut(s, limit - 1)
  }

  lemma CutIsNear(s: seq<byte>, limit: nat)
    requires ValidUtf8(s) && 3 <= limit < |s|
    ensures limit - 3 <= Cut(s, limit)
    ensures ValidUtf8(s[..Cut(s, limit)]) && ValidUtf8(s[Cut(s, limit)..])
  {
    BoundaryWithinFour(s, limit - 3);
    var j :| limit - 3 <= j <= limit && !IsContinuation(s[j]);
    assert IsCharBoundary(s, j);
    SplitAtBoundary(s, Cut(s, limit));
  }

  /** Step back from the limit to a character boundary. */
  method FindCut(s: seq<byte>, limit: nat) returns (end: nat)
    requires ValidUtf8(s) && 3 <= limit < |s|
    ensures end == Cut(s, limit) && limit - 3 <= end <= limit
    ensures ValidUtf8(s[..end]) && ValidUtf8(s[end..])
  {
    end := limit;
    while !IsCharBoundary(s, end)
      invariant end <= limit && Cut(s, limit) == Cut(s, end)
      decreases end
    {
      end := end - 1;
    }
    CutIsNear(s, limit);
  }

  method DnsLabelTruncate(s: seq<byte>) returns (text: seq<byte>)
    requires ValidUtf8(s)
    ensures |text| <= MAX_DNS_LABEL_BYTES && text <= s
    ensures |s| <= MAX_DNS_LABEL_BYTES ==> text == s
    ensures |s| > MAX_DNS_LABEL_BYTES ==> MAX_DNS_LABEL_BYTES - 3 <= |text|
    ensures ValidUtf8(text) && ValidUtf8(s[|text|..])
    ensures forall i | |text| < i <= MAX_DNS_LABEL_BYTES && i <= |s| :: !IsCharBoundary(s, i)
  {
    if |s| <= MAX_DNS_LABEL_BYTES {
      assert s[|s|..] == [];
      return s;
    }
    var end := FindCut(s, MAX_DNS_LABEL_BYTES);
    return s[..end];
  }

  // --- hashed labels ---------------------------------------------------------

  const FNV_OFFSET: u64 := 0xcbf2_9ce4_8422_2325
  const FNV_PRIME: u64 := 0x0000_0100_0000_01b3

  function Pow2(k: nat): nat {
    if k == 0 then 1 else 2 * Pow2(k - 1)
  }

  /** Exclusive or of the lowest `bits` bits: each bit of the result is set if exactly one is. */
  function Xor(a: nat, b: nat, bits: nat): (r: nat)
    ensures r < Pow2(bits)
  {
    if bits == 0 then 0 else 2 * Xor(a / 2, b / 2, bits - 1) + (a % 2 + b % 2) % 2
  }

  function XorByte(a: byte, b: byte): byte {
    assert Pow2(8) == 0x100;
    Xor(a, b, 8)
  }

  /** The hash with the byte folded into its low byte, which is all it meets. */
  function Mix(h: u64, b: byte): u64 {
    h - h % 0x100 + XorByte(h % 0x100, b)
  }

  /** The product wraps around. */
  function FnvStep(h: u64, b: byte): u64 {
    Mix(h, b) * FNV_PRIME % (U64_MAX + 1)
  }

  function Fnv1a(s: seq<byte>): u64 {
    if s == [] then FNV_OFFSET else FnvStep(Fnv1a(s[..|s| - 1]), s[|s| - 1])
  }

  /** The multiplicative inverse of the prime modulo 2^64: it is odd. */
  const FNV_INVERSE: u64 := 0xce965057aff6957b

  const FNV_QUOTIENT := 887285111055

  lemma CancelPrime(x: u64)
    ensures (x * FNV_PRIME % (U64_MAX + 1)) * FNV_INVERSE % (U64_MAX + 1) == x
  {
    var m := U64_MAX + 1;
    var q, r := x * FNV_PRIME / m, x * FNV_PRIME % m;
    assert FNV_PRIME * FNV_INVERSE == 1 + FNV_QUOTIENT * m;
    assert r * FNV_INVERSE == x + m * (x * FNV_QUOTIENT - q * FNV_INVERSE) by {
      assert r == x * FNV_PRIME - q * m;
      assert r * FNV_INVERSE == x * (FNV_PRIME * FNV_INVERSE) - q * m * FNV_INVERSE;
    }
    RemainderOf(x, m, x * FNV_QUOTIENT - q * FNV_INVERSE, r * FNV_INVERSE);
  }

  lemma MultipleAtLeast(m: int, d: int)
    requires m > 0
    ensures d >= 1 ==> m * d >= m
    ensures d <= -1 ==> m * d <= -m
  {
  }

  lemma RemainderOf(x: int, m: int, t: int, y: int)
    requires 0 <= x < m && y == x + m * t
    ensures y % m == x
  {
    MultipleAtLeast(m, y / m - t);
    assert m * (y / m - t) == x - y % m;
  }

  lemma LastBit(x: nat, y: nat, p: nat, q: nat)
    requires 2 * x + p == 2 * y + q && p < 2 && q < 2
    ensures x == y && p == q
  {
  }

  lemma BitCancels(a: nat, b: nat, c: nat)
    requires (a % 2 + b % 2) % 2 == (a % 2 + c % 2) % 2
    ensures b % 2 == c % 2
  {
  }

  lemma {:induction false} XorCancels(a: nat, b: nat, c: nat, bits: nat)
    requires b < Pow2(bits) && c < Pow2(bits)
    requires Xor(a, b, bits) == Xor(a, c, bits)
    ensures b == c
  {
    if bits > 0 {
      LastBit(Xor(a / 2, b / 2, bits - 1), Xor(a / 2, c / 2, bits - 1), (a % 2 + b % 2) % 2, (a % 2 + c % 2) % 2);
      BitCancels(a, b, c);
      XorCancels(a / 2, b / 2, c / 2, bits - 1);
    }
  }

  lemma {:induction false} XorCommutes(a: nat, b: nat, bits: nat)
    ensures Xor(a, b, bits) == Xor(b, a, bits)
  {
    if bits > 0 { XorCommutes(a / 2, b / 2, bits - 1); }
  }

  lemma SameParts(x: nat, y: nat, u: byte, v: byte)
    requires 0x100 * x + u == 0x100 * y + v
    ensures x == y && u == v
  {
  }

  lemma MixInjective(g: u64, h: u64, a: byte, b: byte)
    requires Mix(g, a) == Mix(h, b)
    ensures g == h ==> a == b
    ensures a == b ==> g == h
  {
    SameParts(g / 0x100, h / 0x100, XorByte(g % 0x100, a), XorByte(h % 0x100, b));
    assert Pow2(8) == 0x100;
    if g == h { XorCancels(g % 0x100, a, b, 8); }
    if a == b {
      XorCommutes(g % 0x100, a, 8);
      XorCommutes(h % 0x100, a, 8);
      XorCancels(a, g % 0x100, h % 0x100, 8);
    }
  }

  /** Every byte counts, and so does everything before it: two steps that agree in the
      hash before or in the byte, and not in the other, end in different hashes. */
  lemma FnvStepInjective(g: u64, h: u64, a: byte, b: byte)
    requires FnvStep(g, a) == FnvStep(h, b)
    ensures g == h ==> a == b
    ensures a == b ==> g == h
  {
    CancelPrime(Mix(g, a));
    CancelPrime(Mix(h, b));
    MixInjective(g, h, a, b);
  }

  /** Two inputs of one length that differ in exactly one byte have different hashes. */
  lemma {:induction false} OneByteMatters(s: seq<byte>, t: seq<byte>, k: nat)
    requires |s| == |t| && k < |s| && s[k] != t[k]
    requires forall i | 0 <= i < |s| && i != k :: s[i] == t[i]
    ensures Fnv1a(s) != Fnv1a(t)
  {
    var n := |s| - 1;
    if Fnv1a(s) == Fnv1a(t) {
      FnvStepInjective(Fnv1a(s[..n]), Fnv1a(t[..n]), s[n], t[n]);
    }
    if k == n {
      assert s[..n] == t[..n];
    } else {
      OneByteMatters(s[..n], t[..n], k);
    }
  }

  lemma XorBit(a: nat, b: nat, bits: nat, rest: nat)
    requires Xor(a / 2, b / 2, bits) == rest
    ensures Xor(a, b, bits + 1) == 2 * rest + (a % 2 + b % 2) % 2
  {
  }

  lemma FirstXor(a: nat, b: nat)
    requires a == 0x25 && b == 97
    ensures Xor(a, b, 8) == 0x44
  {
    var a1, b1 := a / 2, b / 2;
    var a2, b2 := a1 / 2, b1 / 2;
    var a3, b3 := a2 / 2, b2 / 2;
    var a4, b4 := a3 / 2, b3 / 2;
    var a5, b5 := a4 / 2, b4 / 2;
    var a6, b6 := a5 / 2, b5 / 2;
    var a7, b7 := a6 / 2, b6 / 2;
    var a8, b8 := a7 / 2, b7 / 2;
    XorBit(a7, b7, 0, 0);
    XorBit(a6, b6, 1, 0);
    XorBit(a5, b5, 2, 1);
    XorBit(a4, b4, 3, 2);
    XorBit(a3, b3, 4, 4);
    XorBit(a2, b2, 5, 8);
    XorBit(a1, b1, 6, 17);
    XorBit(a, b, 7, 34);
  }

  lemma WrapsTo(x: u64, q: nat, r: u64)
    requires x * FNV_PRIME == q * (U64_MAX + 1) + r
    ensures x * FNV_PRIME % (U64_MAX + 1) == r
  {
    RemainderOf(r, U64_MAX + 1, q, x * FNV_PRIME);
  }

  /** The published values for the empty string and for "a" (64-bit FNV-1a). */
  lemma FnvReferenceValues()
    ensures Fnv1a([]) == 0xcbf2_9ce4_8422_2325 && Fnv1a([97]) == 0xaf63_dc4c_8601_ec8c
  {
    assert [97][..0] == [];
    FirstXor(0x25, 97);
    assert FNV_OFFSET % 0x100 == 0x25;
    assert Mix(FNV_OFFSET, 97) == 0xcbf2_9ce4_8422_2344;
    WrapsTo(0xcbf2_9ce4_8422_2344, 875948729822, 0xaf63_dc4c_8601_ec8c);
  }

  method ComputeFnv1a(s: seq<byte>) returns (h: u64)
    ensures h == Fnv1a(s)
  {
    h := FNV_OFFSET;
    for i := 0 to |s|
      invariant h == Fnv1a(s[..i])
    {
      assert s[..i + 1][..i] == s[..i];
      h := FnvStep(h, s[i]);
    }
    assert s[..|s|] == s;
  }

  function HexDigit(d: nat): byte
    requires d < 16
  {
    if d < 10 then 48 + d else 87 + d
  }

  /** The lowest `digits` hexadecimal digits of `n`, most significant first. */
  function Hex(n: nat, digits: nat): (r: seq<byte>)
    ensures |r| == digits && forall i | 0 <= i < |r| :: r[i] < 0x80
  {
    if digits == 0 then [] else Hex(n / 16, digits - 1) + [HexDigit(n % 16)]
  }

  lemma {:induction false} HexInjective(m: nat, n: nat, digits: nat)
    requires Hex(m, digits) == Hex(n, digits)
    requires m < Pow16(digits) && n < Pow16(digits)
    ensures m == n
  {
    if digits > 0 {
      var a, b := Hex(m / 16, digits - 1), Hex(n / 16, digits - 1);
      assert (a + [HexDigit(m % 16)])[..digits - 1] == a && (b + [HexDigit(n % 16)])[..digits - 1] == b;
      assert (a + [HexDigit(m % 16)])[digits - 1] == (b + [HexDigit(n % 16)])[digits - 1];
      HexInjective(m / 16, n / 16, digits - 1);
    }
  }

  /** The value of a hexadecimal digit as it is read. */
  function DigitValue(c: byte): Option<nat> {
    if 48 <= c <= 57 then Some(c - 48) else if 97 <= c <= 102 then Some(c - 87) else None
  }

  function ReadHex(r: seq<byte>): Option<nat> {
    if r == [] then Some(0)
    else
      match (ReadHex(r[..|r| - 1]), DigitValue(r[|r| - 1]))
      case (Some(n), Some(d)) => Some(16 * n + d)
      case _ => None
  }

  /** What is written reads back as the number, all digits lower-case. */
  lemma {:induction false} HexReadsBack(n: nat, digits: nat)
    requires n < Pow16(digits)
    ensures ReadHex(Hex(n, digits)) == Some(n)
  {
    if digits > 0 {
      var r := Hex(n, digits);
      assert r[..|r| - 1] == Hex(n / 16, digits - 1) && r[|r| - 1] == HexDigit(n % 16);
      HexReadsBack(n / 16, digits - 1);
    }
  }

  function Pow16(k: nat): nat {
    if k == 0 then 1 else 16 * Pow16(k - 1)
  }

  function Suffix(s: seq<byte>): seq<byte> {
    [0x5F] + Hex(Fnv1a(s), 16)
  }

  predicate Long(s: seq<byte>) {
    |s| > MAX_DNS_LABEL_BYTES
  }

  /** What is left of a long input before the suffix. */
  function Prefix(s: seq<byte>): seq<byte>
    requires Long(s)
  {
    s[..Cut(s, MAX_DNS_LABEL_BYTES - 17)]
  }

  function UniqueLabel(s: seq<byte>): seq<byte> {
    if Long(s) then Prefix(s) + Suffix(s) else s
  }

  lemma Suffixed(front: seq<byte>, suffix: seq<byte>)
    requires ValidUtf8(front) && |suffix| == 17 && forall i | 0 <= i < |suffix| :: suffix[i] < 0x80
    ensures ValidUtf8(front + suffix)
    ensures |front + suffix| == |front| + 17 && (front + suffix)[..|front + suffix| - 17] == front
  {
    AsciiValid(suffix);
    JoinValid(front, suffix);
  }

  method MakeUniqueDnsLabel(s: seq<byte>) returns (text: seq<byte>)
    requires ValidUtf8(s)
    ensures text == UniqueLabel(s)
    ensures |text| <= MAX_DNS_LABEL_BYTES && ValidUtf8(text)
    ensures |s| > MAX_DNS_LABEL_BYTES ==>
              && MAX_DNS_LABEL_BYTES - 3 <= |text|
              && text[..|text| - 17] <= s && ValidUtf8(s[|text| - 17..])
  {
    if |s| <= MAX_DNS_LABEL_BYTES { return s; }
    var end := FindCut(s, MAX_DNS_LABEL_BYTES - 17);
    var hash := ComputeFnv1a(s);
    var suffix := [0x5F] + Hex(hash, 16);
    Suffixed(s[..end], suffix);
    text := s[..end] + suffix;
  }

  /** The documentation promises distinct labels for distinct inputs. Exactly when
      they are not: two long inputs agree in prefix and 64-bit hash, or one input
      is long and the other is its prefix and suffix spelled out. */
  lemma LabelsCoincideExactly(s: seq<byte>, t: seq<byte>)
    requires ValidUtf8(s) && ValidUtf8(t)
    ensures UniqueLabel(s) == UniqueLabel(t) <==>
              || s == t
              || (Long(s) && Long(t) && Prefix(s) == Prefix(t) && Fnv1a(s) == Fnv1a(t))
              || (Long(s) && !Long(t) && t == Prefix(s) + Suffix(s))
              || (Long(t) && !Long(s) && s == Prefix(t) + Suffix(t))
  {
    if Long(s) && Long(t) && UniqueLabel(s) == UniqueLabel(t) {
      EqualTails(Prefix(s), Suffix(s), Prefix(t), Suffix(t));
      SuffixInjective(Fnv1a(s), Fnv1a(t));
    }
  }

  /** So every long input shares its label with another valid input: the label itself. */
  lemma LongInputSharesItsLabel(s: seq<byte>)
    requires ValidUtf8(s) && Long(s)
    ensures var t := UniqueLabel(s);
            ValidUtf8(t) && t != s && UniqueLabel(t) == UniqueLabel(s)
  {
    CutIsNear(s, MAX_DNS_LABEL_BYTES - 17);
    Suffixed(Prefix(s), Suffix(s));
  }

  /** And there are such inputs: 64 times the letter a, and its label. */
  lemma DistinctInputsShareALabel() returns (s: seq<byte>, t: seq<byte>)
    ensures s == seq(64, _ => 97) && ValidUtf8(s) && ValidUtf8(t)
    ensures s != t && UniqueLabel(s) == UniqueLabel(t)
  {
    s := seq(64, _ => 97);
    AsciiValid(s);
    LongInputSharesItsLabel(s);
    t := UniqueLabel(s);
  }

  lemma EqualTails(a: seq<byte>, x: seq<byte>, b: seq<byte>, y: seq<byte>)
    requires |x| == |y| && a + x == b + y
    ensures a == b && x == y
  {
    assert |a| == |b|;
    assert (a + x)[..|a|] == a && (b + y)[..|a|] == b;
    assert (a + x)[|a|..] == x && (b + y)[|a|..] == y;
  }

  lemma SuffixInjective(m: u64, n: u64)
    requires [0x5F] + Hex(m, 16) == [0x5F] + Hex(n, 16)
    ensures m == n
  {
    EqualTails([0x5F], Hex(m, 16), [0x5F], Hex(n, 16));
    assert Pow16(4) == 0x1_0000;
    assert Pow16(8) == 0x1_0000_0000;
    assert Pow16(12) == 0x1_0000_0000_0000;
    assert Pow16(16) == U64_MAX + 1;
    HexInjective(m, n, 16);
  }
}
