/** The Holm step-down correction of an experiment's comparisons, in exact arithmetic. */
module HolmCorrection {
  import opened RealArithmetic
  import Sequences
  import opened StableSort

  datatype Comparison = Comparison(key: string, pValue: real)

  datatype Adjusted = Adjusted(key: string, pValue: real, holmAlpha: real, adjustedPValue: real, significant: bool)

  /** By p-value, then by key. */
  function CompareComparisons(locale: (string, string) -> int, a: Comparison, b: Comparison): int {
    if a.pValue < b.pValue then -1 else if a.pValue > b.pValue then 1 else locale(a.key, b.key)
  }

  function ByPValue(locale: (string, string) -> int): (Comparison, Comparison) -> int {
    (a: Comparison, b: Comparison) => CompareComparisons(locale, a, b)
  }

  lemma ByPValueOrders(locale: (string, string) -> int)
    requires TotalPreorder(locale)
    ensures TotalPreorder(ByPValue(locale))
  {
    var cmp := ByPValue(locale);
    forall a, b ensures cmp(a, b) < 0 <==> cmp(b, a) > 0 {
    }
    forall a, b, c | cmp(a, b) <= 0 && cmp(b, c) <= 0 ensures cmp(a, c) <= 0 {
    }
  }

  function Least(a: real, b: real): real { if a < b then a else b }

  function Greatest(a: real, b: real): real { if a < b then b else a }

  /** The threshold of a comparison when `remaining` are not yet rejected. */
  function Share(alpha: real, remaining: nat): real
    requires remaining > 0
  {
    alpha / remaining as real
  }

  function AdjustedP(previous: real, p: real, remaining: nat): real {
    Least(1.0, Greatest(previous, p * remaining as real))
  }

  /** The step-down condition up to rank r: every smaller p-value passed its own threshold. */
  ghost predicate StepDown(ordered: seq<Comparison>, alpha: real, r: int)
    requires r < |ordered|
  {
    forall j :: 0 <= j <= r ==> ordered[j].pValue * (|ordered| - j) as real <= alpha
  }

  ghost predicate AscendingP(ordered: seq<Comparison>) {
    forall i, j :: 0 <= i < j < |ordered| ==> ordered[i].pValue <= ordered[j].pValue
  }

  /** The adjusted p-value is the smallest level at which the comparison would be rejected, and 1 if there is none. */
  ghost predicate IsLevel(ordered: seq<Comparison>, r: int, adjusted: real)
    requires r < |ordered|
  {
    0.0 <= adjusted <= 1.0 && forall t :: 0.0 <= t < 1.0 ==> (adjusted <= t <==> StepDown(ordered, t, r))
  }

  /** What the correction says about the comparison at rank r. */
  ghost predicate IsAdjusted(ordered: seq<Comparison>, alpha: real, r: nat, a: Adjusted)
    requires r < |ordered|
  {
    && a.key == ordered[r].key && a.pValue == ordered[r].pValue
    && a.holmAlpha == alpha / (|ordered| - r) as real
    && (a.significant <==> StepDown(ordered, alpha, r))
    && IsLevel(ordered, r, a.adjustedPValue)
  }

  lemma StepDownNext(ordered: seq<Comparison>, alpha: real, r: nat)
    requires r < |ordered|
    ensures StepDown(ordered, alpha, r) <==>
      StepDown(ordered, alpha, r - 1) && ordered[r].pValue * (|ordered| - r) as real <= alpha
  {
  }

  lemma OrderedAscending(comparisons: seq<Comparison>, locale: (string, string) -> int)
    requires TotalPreorder(locale)
    ensures AscendingP(SortRows(ByPValue(locale), comparisons))
    ensures |SortRows(ByPValue(locale), comparisons)| == |comparisons|
  {
    ByPValueOrders(locale);
    SortRowsSorts(ByPValue(locale), comparisons);
    hide TotalPreorder, SortRows;
  }

  /** holmAdjust: sort, then one pass that stops rejecting at the first p-value above its threshold. */
  method HolmAdjust(comparisons: seq<Comparison>, alpha: real, locale: (string, string) -> int)
    returns (out: seq<Adjusted>)
    requires TotalPreorder(locale) && 0.0 < alpha < 1.0
    ensures var ordered := SortRows(ByPValue(locale), comparisons);
      && |out| == |ordered| == |comparisons|
      && AscendingP(ordered)
      && forall r :: 0 <= r < |out| ==> IsAdjusted(ordered, alpha, r, out[r])
  {
    hide *;
    OrderedAscending(comparisons, locale);
    var ordered := SortRows(ByPValue(locale), comparisons);
    out := [];
    var canReject, previousAdjusted := true, 0.0;
    Nothing(ordered, alpha);
    for rank := 0 to |ordered|
      invariant |out| == rank
      invariant canReject <==> StepDown(ordered, alpha, rank - 1)
      invariant IsLevel(ordered, rank - 1, previousAdjusted)
      invariant forall r :: 0 <= r < rank ==> IsAdjusted(ordered, alpha, r, out[r])
    {
      var remaining: nat := |ordered| - rank;
      var comparison := ordered[rank];
      var holmAlpha := Share(alpha, remaining);
      var adjusted := AdjustedP(previousAdjusted, comparison.pValue, remaining);
      var significant := canReject && comparison.pValue <= holmAlpha;
      AdjustNext(ordered, alpha, rank, canReject, previousAdjusted, holmAlpha, adjusted, significant);
      out := out + [Adjusted(comparison.key, comparison.pValue, holmAlpha, adjusted, significant)];
      if !significant { canReject := false; }
      previousAdjusted := adjusted;
    }
  }

  /**
   One pass of the loop keeps "still rejecting" equal to the step-down condition, and the adjusted value its
   level.
   */
  lemma AdjustNext(ordered: seq<Comparison>, alpha: real, rank: nat, canReject: bool, previous: real,
        holmAlpha: real, adjusted: real, significant: bool)
    requires rank < |ordered| && 0.0 < alpha < 1.0
    requires canReject <==> StepDown(ordered, alpha, rank - 1)
    requires IsLevel(ordered, rank - 1, previous)
    requires holmAlpha == Share(alpha, |ordered| - rank)
    requires adjusted == AdjustedP(previous, ordered[rank].pValue, |ordered| - rank)
    requires significant <==> canReject && ordered[rank].pValue <= holmAlpha
    ensures significant <==> StepDown(ordered, alpha, rank)
    ensures IsLevel(ordered, rank, adjusted)
    ensures IsAdjusted(ordered, alpha, rank,
                       Adjusted(ordered[rank].key, ordered[rank].pValue, holmAlpha, adjusted, significant))
  {
    Threshold(ordered[rank].pValue, (|ordered| - rank) as real, alpha);
    StepDownNext(ordered, alpha, rank);
    LevelNext(ordered, rank, previous, adjusted);
    hide StepDown, IsLevel;
  }

  lemma LevelNext(ordered: seq<Comparison>, rank: nat, previous: real, adjusted: real)
    requires rank < |ordered| && IsLevel(ordered, rank - 1, previous)
    requires adjusted == AdjustedP(previous, ordered[rank].pValue, |ordered| - rank)
    ensures IsLevel(ordered, rank, adjusted)
  {
    var own := ordered[rank].pValue * (|ordered| - rank) as real;
    forall t | 0.0 <= t < 1.0 ensures adjusted <= t <==> StepDown(ordered, t, rank) {
      StepDownNext(ordered, t, rank);
      assert previous <= t <==> StepDown(ordered, t, rank - 1);
      assert adjusted <= t <==> previous <= t && own <= t;
    }
    hide StepDown;
  }

  lemma Nothing(ordered: seq<Comparison>, alpha: real)
    ensures StepDown(ordered, alpha, -1) && IsLevel(ordered, -1, 0.0)
  {
  }

  lemma Threshold(p: real, n: real, alpha: real)
    requires n > 0.0
    ensures p <= alpha / n <==> p * n <= alpha
  {
    var q := alpha / n;
    assert q * n == alpha;
    if p <= q { Product(n, p, q); }
    if p > q { Scale(n, p, q); }
  }

  // The closure of Bonferroni

  ghost predicate Family(ranks: set<nat>, m: nat) { ranks != {} && forall i :: i in ranks ==> i < m }

  /** Bonferroni rejects the family: its smallest p-value is at most alpha over its size. */
  ghost predicate BonferroniRejects(ordered: seq<Comparison>, ranks: set<nat>, alpha: real)
    requires Family(ranks, |ordered|)
  {
    exists i :: i in ranks && ordered[i].pValue <= alpha / |ranks| as real
  }

  predicate InRange(i: nat, j: nat, m: nat) { j <= i < m }

  function From(j: nat, m: nat): set<nat> { set i: nat | i < m && InRange(i, j, m) }

  lemma {:induction false} FromSize(j: nat, m: nat)
    requires j <= m
    ensures |From(j, m)| == m - j
    decreases m - j
  {
    if j == m {
      assert From(j, m) == {};
    } else {
      FromSize(j + 1, m);
      assert From(j, m) == From(j + 1, m) + {j};
    }
  }

  lemma {:induction false} Smallest(s: set<nat>) returns (j: nat)
    requires s != {}
    ensures j in s && forall i :: i in s ==> j <= i
    decreases s
  {
    var x :| x in s;
    j := x;
    if s != {x} {
      assert s == s - {x} + {x};
      var k := Smallest(s - {x});
      if k < x { j := k; }
      forall i | i in s ensures j <= i {
        if i != x { assert i in s - {x}; }
      }
    }
  }

  lemma SmallerFamily(p: real, small: nat, large: nat, alpha: real)
    requires 0 < small <= large && alpha > 0.0 && p * large as real <= alpha
    ensures p <= alpha / small as real
  {
    Threshold(p, small as real, alpha);
    if p > 0.0 { Product(p, small as real, large as real); }
    else { Product(small as real, p, 0.0); }
  }

  lemma RejectedByFamilies(ordered: seq<Comparison>, alpha: real, r: nat, ranks: set<nat>)
    requires AscendingP(ordered) && alpha > 0.0 && r < |ordered| && StepDown(ordered, alpha, r)
    requires Family(ranks, |ordered|) && r in ranks
    ensures BonferroniRejects(ordered, ranks, alpha)
  {
    var m := |ordered|;
    var j := Smallest(ranks);
    FromSize(j, m);
    Sequences.SubsetSize(ranks, From(j, m));
    SmallerFamily(ordered[j].pValue, |ranks|, m - j, alpha);
  }

  lemma TailRejects(ordered: seq<Comparison>, alpha: real, j: nat)
    requires AscendingP(ordered) && alpha > 0.0 && j < |ordered|
    requires Family(From(j, |ordered|), |ordered|) && BonferroniRejects(ordered, From(j, |ordered|), alpha)
    ensures ordered[j].pValue * (|ordered| - j) as real <= alpha
  {
    var m := |ordered|;
    FromSize(j, m);
    var i :| i in From(j, m) && ordered[i].pValue <= alpha / (m - j) as real;
    assert j <= i && ordered[j].pValue <= ordered[i].pValue;
    hide *;
    Threshold(ordered[j].pValue, (m - j) as real, alpha);
  }

  ghost predicate RejectedInEveryFamily(ordered: seq<Comparison>, alpha: real, r: nat)
    requires r < |ordered|
  {
    forall ranks: set<nat> :: Family(ranks, |ordered|) && r in ranks ==> BonferroniRejects(ordered, ranks, alpha)
  }

  lemma TailFamily(ordered: seq<Comparison>, alpha: real, r: nat, j: nat)
    requires j <= r < |ordered| && RejectedInEveryFamily(ordered, alpha, r)
    ensures Family(From(j, |ordered|), |ordered|) && BonferroniRejects(ordered, From(j, |ordered|), alpha)
  {
    assert r in From(j, |ordered|) && Family(From(j, |ordered|), |ordered|);
  }

  /**
   The correction is the closure of Bonferroni: a comparison is significant exactly when Bonferroni rejects
   every family of comparisons that contains it.
   */
  lemma ClosureOfBonferroni(ordered: seq<Comparison>, alpha: real, r: nat)
    requires AscendingP(ordered) && alpha > 0.0 && r < |ordered|
    ensures StepDown(ordered, alpha, r) <==> RejectedInEveryFamily(ordered, alpha, r)
  {
    if StepDown(ordered, alpha, r) {
      hide StepDown, AscendingP, BonferroniRejects, From;
      forall ranks: set<nat> | Family(ranks, |ordered|) && r in ranks ensures BonferroniRejects(ordered, ranks, alpha) {
        RejectedByFamilies(ordered, alpha, r, ranks);
      }
    }
    if RejectedInEveryFamily(ordered, alpha, r) {
      hide RejectedInEveryFamily, AscendingP, BonferroniRejects, From, Family;
      forall j | 0 <= j <= r ensures ordered[j].pValue * (|ordered| - j) as real <= alpha {
        TailFamily(ordered, alpha, r, j);
        TailRejects(ordered, alpha, j);
      }
    }
  }

  /** The correction does not depend on the order of the comparisons when no two tie on both p-value and key. */
  lemma InputOrderIrrelevant(a: seq<Comparison>, b: seq<Comparison>, locale: (string, string) -> int)
    requires TotalPreorder(locale) && multiset(a) == multiset(b)
    requires forall x, y :: x in a && y in a && locale(x.key, y.key) == 0 ==> x == y
    ensures SortRows(ByPValue(locale), a) == SortRows(ByPValue(locale), b)
  {
    ByPValueOrders(locale);
    SortIndependent(ByPValue(locale), a, b);
  }
}
