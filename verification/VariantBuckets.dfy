/** Assigning a 32-bit hash to one of an experiment's weighted variants, in exact arithmetic. */
module VariantBuckets {
  import opened RealArithmetic

  const UINT32: nat := 0x1_0000_0000

  datatype Outcome = Nobody | Variant(index: nat) | NoVariants | InvalidWeight | NoWeight

  function HashToUnitInterval(hash: nat): real { hash as real / UINT32 as real }

  function Sum(weights: seq<real>, i: nat): real
    requires i <= |weights|
  {
    if i == 0 then 0.0 else Sum(weights, i - 1) + weights[i - 1]
  }

  ghost predicate ValidWeights(weights: seq<real>) {
    && (forall i :: 0 <= i < |weights| ==> weights[i] >= 0.0)
    && Sum(weights, |weights|) > 0.0
  }

  function Portion(weight: real, total: real, allocation: real): real
    requires total > 0.0
  {
    (weight / total) * allocation
  }

  /** A variant's share of the allocated traffic. */
  function Share(weights: seq<real>, allocation: real, i: nat): real
    requires i < |weights| && Sum(weights, |weights|) > 0.0
  {
    Portion(weights[i], Sum(weights, |weights|), allocation)
  }

  /** The sum of the first i shares. */
  function Threshold(weights: seq<real>, allocation: real, i: nat): real
    requires i <= |weights| && Sum(weights, |weights|) > 0.0
  {
    if i == 0 then 0.0 else Threshold(weights, allocation, i - 1) + Share(weights, allocation, i - 1)
  }

  function Ceiling(x: real): int { -((-x).Floor) }

  lemma CeilingIsLeast(x: real, n: int)
    ensures n as real >= x <==> n >= Ceiling(x)
    ensures x <= Ceiling(x) as real < x + 1.0
  {
    var f := (-x).Floor;
    assert f as real <= -x < f as real + 1.0;
  }

  /** The first hash that belongs to variant i. */
  function FirstHash(weights: seq<real>, allocation: real, i: nat): int
    requires i <= |weights| && Sum(weights, |weights|) > 0.0
  {
    Ceiling(UINT32 as real * Threshold(weights, allocation, i))
  }

  lemma BucketBelow(hash: nat, t: real)
    ensures HashToUnitInterval(hash) < t <==> hash < Ceiling(UINT32 as real * t)
  {
    var b, n := HashToUnitInterval(hash), UINT32 as real;
    assert b * n == hash as real;
    if b < t { Scale(n, t, b); } else { Product(n, t, b); }
    CeilingIsLeast(n * t, hash);
  }

  lemma {:induction false} ThresholdIsProportional(weights: seq<real>, allocation: real, i: nat)
    requires i <= |weights| && Sum(weights, |weights|) > 0.0
    ensures Threshold(weights, allocation, i) == Sum(weights, i) / Sum(weights, |weights|) * allocation
  {
    if i > 0 {
      ThresholdIsProportional(weights, allocation, i - 1);
      AddShares(Sum(weights, i - 1), weights[i - 1], Sum(weights, |weights|), allocation);
    }
  }

  lemma AddShares(a: real, b: real, total: real, allocation: real)
    requires total > 0.0
    ensures a / total * allocation + b / total * allocation == (a + b) / total * allocation
  {
    assert (a + b) / total == a / total + b / total;
  }

  /** All the shares together are the whole allocation. */
  lemma SharesCoverAllocation(weights: seq<real>, allocation: real)
    requires ValidWeights(weights)
    ensures Threshold(weights, allocation, |weights|) == allocation
  {
    ThresholdIsProportional(weights, allocation, |weights|);
    assert Sum(weights, |weights|) / Sum(weights, |weights|) == 1.0;
  }

  lemma ShareSign(weights: seq<real>, allocation: real, i: nat)
    requires ValidWeights(weights) && allocation >= 0.0 && i < |weights|
    ensures Share(weights, allocation, i) >= 0.0
  {
    var q := weights[i] / Sum(weights, |weights|);
    assert q >= 0.0;
  }

  lemma {:induction false} ThresholdsAscend(weights: seq<real>, allocation: real, i: nat, j: nat)
    requires ValidWeights(weights) && allocation >= 0.0 && i <= j <= |weights|
    ensures Threshold(weights, allocation, i) <= Threshold(weights, allocation, j)
  {
    if i < j {
      ThresholdsAscend(weights, allocation, i, j - 1);
      ShareSign(weights, allocation, j - 1);
    }
  }

  lemma CeilingAscends(x: real, y: real)
    requires x <= y
    ensures Ceiling(x) <= Ceiling(y)
  {
    CeilingIsLeast(x, Ceiling(y));
    CeilingIsLeast(y, Ceiling(y));
  }

  /** The hashes of the variants are neighbouring ranges that cover exactly the hashes below the allocation. */
  lemma RangesTile(weights: seq<real>, allocation: real, hash: nat)
    requires ValidWeights(weights) && allocation >= 0.0
    ensures FirstHash(weights, allocation, 0) == 0
    ensures forall i, j :: 0 <= i <= j <= |weights| ==>
      FirstHash(weights, allocation, i) <= FirstHash(weights, allocation, j)
    ensures hash < FirstHash(weights, allocation, |weights|) <==> HashToUnitInterval(hash) < allocation
  {
    SharesCoverAllocation(weights, allocation);
    BucketBelow(hash, allocation);
    forall i, j | 0 <= i <= j <= |weights|
      ensures FirstHash(weights, allocation, i) <= FirstHash(weights, allocation, j)
    {
      ThresholdsAscend(weights, allocation, i, j);
      Product(UINT32 as real, Threshold(weights, allocation, i), Threshold(weights, allocation, j));
      hide Threshold;
      CeilingAscends(UINT32 as real * Threshold(weights, allocation, i),
                     UINT32 as real * Threshold(weights, allocation, j));
    }
  }

  /** Each range is within one hash of its exact share. */
  lemma RangeSize(weights: seq<real>, allocation: real, i: nat)
    requires ValidWeights(weights) && i < |weights|
    ensures var size := FirstHash(weights, allocation, i + 1) - FirstHash(weights, allocation, i);
      var exact := UINT32 as real * Share(weights, allocation, i);
      exact - 1.0 < size as real < exact + 1.0
  {
    var a, b := UINT32 as real * Threshold(weights, allocation, i),
      UINT32 as real * Threshold(weights, allocation, i + 1);
    CeilingIsLeast(a, 0);
    CeilingIsLeast(b, 0);
    assert b == a + UINT32 as real * Share(weights, allocation, i);
  }

  ghost predicate InRange(weights: seq<real>, allocation: real, hash: nat, i: nat) {
    && i < |weights| && Sum(weights, |weights|) > 0.0
    && FirstHash(weights, allocation, i) <= hash < FirstHash(weights, allocation, i + 1)
  }

  lemma ThresholdsToHashes(weights: seq<real>, allocation: real, hash: nat, i: nat)
    requires i < |weights| && Sum(weights, |weights|) > 0.0
    requires Threshold(weights, allocation, i) <= HashToUnitInterval(hash) < Threshold(weights, allocation, i + 1)
    ensures InRange(weights, allocation, hash, i)
  {
    BucketBelow(hash, Threshold(weights, allocation, i));
    BucketBelow(hash, Threshold(weights, allocation, i + 1));
    hide Threshold, HashToUnitInterval, Ceiling;
  }

  /** assignVariant; `fellThrough` says that the loop found no variant, which cannot happen. */
  method AssignVariant(enabled: bool, allocation: real, weights: seq<real>, hash: nat)
    returns (outcome: Outcome, fellThrough: bool)
    requires hash < UINT32
    ensures !fellThrough
    ensures outcome == Nobody <==> !enabled || HashToUnitInterval(hash) >= allocation
    ensures outcome != Nobody ==>
      (outcome == NoVariants <==> weights == []) &&
      (outcome == InvalidWeight <==> exists i :: 0 <= i < |weights| && weights[i] < 0.0) &&
      (outcome.Variant? <==> ValidWeights(weights))
    ensures outcome.Variant? ==> InRange(weights, allocation, hash, outcome.index)
  {
    fellThrough := false;
    if !enabled { return Nobody, false; }
    var bucket := HashToUnitInterval(hash);
    if bucket >= allocation { return Nobody, false; }
    if |weights| == 0 { return NoVariants, false; }
    var totalWeight := 0.0;
    for i := 0 to |weights|
      invariant totalWeight == Sum(weights, i)
      invariant forall j :: 0 <= j < i ==> weights[j] >= 0.0
    {
      if weights[i] < 0.0 { return InvalidWeight, false; }
      totalWeight := totalWeight + weights[i];
    }
    if totalWeight <= 0.0 { return NoWeight, false; }
    var threshold := 0.0;
    fellThrough, outcome := true, Variant(|weights| - 1);
    SharesCoverAllocation(weights, allocation);
    assert bucket >= 0.0;
    hide InRange, HashToUnitInterval, Portion;
    for i := 0 to |weights|
      invariant fellThrough && outcome == Variant(|weights| - 1)
      invariant threshold == Threshold(weights, allocation, i) <= bucket
    {
      threshold := threshold + Portion(weights[i], totalWeight, allocation);
      if bucket < threshold {
        ThresholdsToHashes(weights, allocation, hash, i);
        return Variant(i), false;
      }
    }
  }
}
