/**
 The rank of a 64-bit digest in a HyperLogLog sketch: one more than the zeros in front of the first one bit
 after the 9 index bits. JavaScript takes it from two 32-bit halves, Swift looks at one bit after the other.
 */
module HashRank {
  const PRECISION := 9

  function Pow2(n: nat): (p: nat)
    ensures p >= 1
  {
    if n == 0 then 1 else 2 * Pow2(n - 1)
  }

  lemma {:induction false} Pow2Sum(a: nat, b: nat)
    ensures Pow2(a + b) == Pow2(a) * Pow2(b)
  {
    if b > 0 { Pow2Sum(a, b - 1); }
  }

  lemma Powers()
    ensures Pow2(9) == 0x200 && Pow2(23) == 0x80_0000 && Pow2(32) == 0x1_0000_0000 && Pow2(55) == 0x80_0000_0000_0000
  {
    assert Pow2(3) == 8;
    Pow2Sum(3, 3); Pow2Sum(6, 3); Pow2Sum(9, 9); Pow2Sum(18, 3); Pow2Sum(21, 2); Pow2Sum(23, 9); Pow2Sum(23, 32);
    assert Pow2(2) == 4;
  }

  /** Zeros in front of the first one bit of a number of that many bits. */
  function LeadingZeros(x: nat, width: nat): (z: nat)
    ensures z <= width
  {
    if width == 0 || x >= Pow2(width - 1) then 0 else 1 + LeadingZeros(x, width - 1)
  }

  /** The defining property: that many zeros, then a one bit unless there is none. */
  lemma {:induction false} LeadingZerosMeaning(x: nat, width: nat)
    requires x < Pow2(width)
    ensures var z := LeadingZeros(x, width);
      x < Pow2(width - z) && (z < width ==> x >= Pow2(width - z - 1)) && (z == width ==> x == 0)
  {
    if width > 0 && x < Pow2(width - 1) { LeadingZerosMeaning(x, width - 1); }
  }

  lemma {:induction false} WiderNumber(x: nat, width: nat, k: nat)
    requires x < Pow2(width)
    ensures LeadingZeros(x, width + k) == k + LeadingZeros(x, width)
  {
    if k > 0 {
      WiderNumber(x, width, k - 1);
      Monotone(width, width + k - 1);
    }
  }

  lemma {:induction false} Monotone(a: nat, b: nat)
    requires a <= b
    ensures Pow2(a) <= Pow2(b)
  {
    if a < b { Monotone(a, b - 1); }
  }

  lemma Compare(x: nat, p: nat, k: nat, r: nat)
    requires k >= 1 && r < k
    ensures x * k + r >= p * k <==> x >= p
  {
    if x >= p { assert x * k >= p * k; }
    if x < p { assert (x + 1) * k <= p * k; }
  }

  /** Bits behind a one bit do not matter. */
  lemma {:induction false} LongerNumber(x: nat, width: nat, k: nat, r: nat)
    requires 0 < x < Pow2(width) && r < Pow2(k)
    ensures LeadingZeros(x * Pow2(k) + r, width + k) == LeadingZeros(x, width)
  {
    Pow2Sum(width - 1, k);
    Compare(x, Pow2(width - 1), Pow2(k), r);
    if x < Pow2(width - 1) { LongerNumber(x, width - 1, k, r); }
  }

  function Clz32(x: nat): nat
    requires x < 0x1_0000_0000
  {
    LeadingZeros(x, 32)
  }

  /** What both implementations compute. */
  function Rank(digest: nat): nat { LeadingZeros(digest % Pow2(55), 55) + 1 }

  /** rankAfterIndex of the JavaScript client; the shift keeps 32 bits. */
  function RankAfterIndex(digest: nat): nat
    requires digest < 0x1_0000_0000_0000_0000
  {
    var remainingHigh := ((digest / 0x1_0000_0000) * 0x200) % 0x1_0000_0000;
    if remainingHigh != 0 then Clz32(remainingHigh) + 1
    else 32 - PRECISION + Clz32(digest % 0x1_0000_0000) + 1
  }

  lemma Halves(digest: nat, high: nat, low: nat, h: nat)
    requires high == digest / 0x1_0000_0000 && low == digest % 0x1_0000_0000 && h == high % 0x80_0000
    ensures (high * 0x200) % 0x1_0000_0000 == h * 0x200
    ensures digest % 0x80_0000_0000_0000 == h * 0x1_0000_0000 + low
  {
  }

  /**
   The rank from two 32-bit halves: one more than the zeros that the 55 bits behind the index start with, before
   a one bit unless all are zero.
   */
  lemma HalvesAgree(digest: nat)
    requires digest < 0x1_0000_0000_0000_0000
    ensures RankAfterIndex(digest) == Rank(digest) && 1 <= Rank(digest) <= 56
    ensures var bits, zeros := digest % Pow2(55), Rank(digest) - 1;
      bits < Pow2(55 - zeros) && (if zeros == 55 then bits == 0 else bits >= Pow2(54 - zeros))
  {
    LeadingZerosMeaning(digest % Pow2(55), 55);
    hide Pow2, LeadingZeros;
    Powers();
    var high, low := digest / 0x1_0000_0000, digest % 0x1_0000_0000;
    var h := high % 0x80_0000;
    Halves(digest, high, low, h);
    if h != 0 {
      LongerNumber(h, 23, 9, 0);
      LongerNumber(h, 23, 32, low);
    } else {
      WiderNumber(low, 32, 23);
    }
  }

  predicate Bit(x: nat, p: nat) { if p == 0 then x % 2 == 1 else Bit(x / 2, p - 1) }

  lemma HalfOfRemainder(x: nat, m: nat)
    requires m > 0
    ensures (x % (2 * m)) / 2 == (x / 2) % m && (x % (2 * m)) % 2 == x % 2
  {
    var q, r := x / (2 * m), x % (2 * m);
    assert x == q * (2 * m) + r;
    assert q * (2 * m) == 2 * (q * m);
    assert x / 2 == q * m + r / 2 && 0 <= r / 2 < m;
    Division(x / 2, q, r / 2, m);
  }

  lemma Division(x: nat, q: nat, r: nat, m: nat)
    requires m > 0 && x == q * m + r && r < m
    ensures x % m == r
  {
    var k := x / m - q;
    assert x == (x / m) * m + x % m;
    assert k * m == r - x % m;
    if k >= 1 { AtLeastOnce(k, m); }
    if k <= -1 { AtLeastOnce(-k, m); }
  }

  lemma AtLeastOnce(k: int, m: int)
    requires k >= 1 && m >= 1
    ensures k * m >= m
  {
  }

  lemma {:induction false} BitOfRemainder(x: nat, width: nat, p: nat)
    requires p < width
    ensures Bit(x % Pow2(width), p) == Bit(x, p)
  {
    HalfOfRemainder(x, Pow2(width - 1));
    if p > 0 { BitOfRemainder(x / 2, width - 1, p - 1); }
  }

  lemma {:induction false} TopBit(x: nat, p: nat)
    requires x < Pow2(p + 1)
    ensures Bit(x, p) <==> x >= Pow2(p)
  {
    if p > 0 { TopBit(x / 2, p - 1); }
  }

  lemma ZerosUnfold(x: nat, width: nat)
    requires width > 0
    ensures LeadingZeros(x, width) == if x >= Pow2(width - 1) then 0 else 1 + LeadingZeros(x, width - 1)
    ensures LeadingZeros(x, 0) == 0
  {
  }

  /** rankAfterIndex of the Swift client. */
  method RankBitByBit(digest: nat) returns (rank: nat)
    ensures rank == Rank(digest)
  {
    hide Bit, Pow2, LeadingZeros;
    rank := 1;
    ghost var rest := digest % Pow2(55);
    for bit := PRECISION to 64
      invariant rank == bit - PRECISION + 1
      invariant rest < Pow2(64 - bit) && Rank(digest) == rank + LeadingZeros(rest, 64 - bit)
    {
      BitOfRemainder(digest, 55, 63 - bit);
      TopBit(rest, 63 - bit);
      ZerosUnfold(rest, 64 - bit);
      if Bit(digest, 63 - bit) { return; }
      rank := rank + 1;
    }
  }
}
