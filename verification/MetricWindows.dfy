/**
 What one client window says about a series, and what merging two windows means. A counter is its total, a
 histogram its count, sum, extremes and buckets, a distinct count its HyperLogLog registers.
 */
module MetricWindows {
  import opened Wrappers

  datatype Kind = Counter | Histogram | Distinct

  /** A counter increment, a histogram sample, or the register and rank that a distinct identifier hashes to. */
  datatype Payload = Amount(n: real) | Sample(value: real) | Hashed(index: nat, rank: nat)

  /** No minimum stands for Infinity and no maximum for -Infinity. */
  datatype Summary =
    | Total(value: real)
    | Samples(count: nat, sum: real, min: Option<real>, max: Option<real>, counts: seq<nat>)
    | Registers(ranks: seq<nat>)

  const REGISTER_COUNT := 512

  function Zeros(n: nat): seq<nat> { seq(n, _ => 0) }

  function Empty(kind: Kind, bounds: seq<real>): Summary {
    match kind
    case Counter => Total(0.0)
    case Histogram => Samples(0, 0.0, None, None, Zeros(|bounds|))
    case Distinct => Registers(Zeros(REGISTER_COUNT))
  }

  predicate Fits(s: Summary, kind: Kind, bounds: seq<real>) {
    match kind
    case Counter => s.Total?
    case Histogram => s.Samples? && |s.counts| == |bounds|
    case Distinct => s.Registers? && |s.ranks| == REGISTER_COUNT
  }

  predicate Suits(p: Payload, kind: Kind) {
    match kind
    case Counter => p.Amount?
    case Histogram => p.Sample?
    case Distinct => p.Hashed? && p.index < REGISTER_COUNT
  }

  function Lower(a: Option<real>, b: Option<real>): Option<real> {
    if a.None? then b else if b.None? then a else if b.value < a.value then b else a
  }

  function Higher(a: Option<real>, b: Option<real>): Option<real> {
    if a.None? then b else if b.None? then a else if b.value > a.value then b else a
  }

  /** The first bucket whose bound is at least the value, if there is one. */
  function Bucket(bounds: seq<real>, value: real): (i: nat)
    ensures i <= |bounds| && (i < |bounds| ==> value <= bounds[i]) && forall j :: 0 <= j < i ==> bounds[j] < value
  {
    if bounds == [] || value <= bounds[0] then 0
    else
      var i := Bucket(bounds[1..], value);
      assert forall j :: 0 < j <= i ==> bounds[j] == bounds[1..][j - 1];
      i + 1
  }

  function Plus(a: seq<nat>, b: seq<nat>): seq<nat>
    requires |a| == |b|
  {
    seq(|a|, i requires 0 <= i < |a| => a[i] + b[i])
  }

  function Larger(a: nat, b: nat): nat { if b > a then b else a }

  function Most(a: seq<nat>, b: seq<nat>): seq<nat>
    requires |a| == |b|
  {
    seq(|a|, i requires 0 <= i < |a| => Larger(a[i], b[i]))
  }

  function One(n: nat, i: nat, x: nat): seq<nat> { seq(n, j => if j == i then x else 0) }

  /** A window with one observation. */
  function Single(p: Payload, kind: Kind, bounds: seq<real>): (s: Summary)
    requires Suits(p, kind)
    ensures Fits(s, kind, bounds)
  {
    match p
    case Amount(n) => Total(n)
    case Sample(v) => Samples(1, v, Some(v), Some(v), One(|bounds|, Bucket(bounds, v), 1))
    case Hashed(index, rank) => Registers(One(REGISTER_COUNT, index, rank))
  }

  /** Both windows in one. */
  function Merge(a: Summary, b: Summary, kind: Kind, bounds: seq<real>): (s: Summary)
    requires Fits(a, kind, bounds) && Fits(b, kind, bounds)
    ensures Fits(s, kind, bounds)
  {
    match kind
    case Counter => Total(a.value + b.value)
    case Histogram =>
      Samples(a.count + b.count, a.sum + b.sum, Lower(a.min, b.min), Higher(a.max, b.max), Plus(a.counts, b.counts))
    case Distinct => Registers(Most(a.ranks, b.ranks))
  }

  /** A window with all the observations of a series that was never split. */
  function Summarize(payloads: seq<Payload>, kind: Kind, bounds: seq<real>): (s: Summary)
    requires forall p :: p in payloads ==> Suits(p, kind)
    ensures Fits(s, kind, bounds)
  {
    if payloads == [] then Empty(kind, bounds)
    else
      var n := |payloads| - 1;
      Merge(Summarize(payloads[..n], kind, bounds), Single(payloads[n], kind, bounds), kind, bounds)
  }

  lemma MergeCommutes(a: Summary, b: Summary, kind: Kind, bounds: seq<real>)
    requires Fits(a, kind, bounds) && Fits(b, kind, bounds)
    ensures Merge(a, b, kind, bounds) == Merge(b, a, kind, bounds)
  {
    match kind
    case Counter =>
    case Histogram => assert Plus(a.counts, b.counts) == Plus(b.counts, a.counts);
    case Distinct => assert Most(a.ranks, b.ranks) == Most(b.ranks, a.ranks);
  }

  lemma MergeAssociates(a: Summary, b: Summary, c: Summary, kind: Kind, bounds: seq<real>)
    requires Fits(a, kind, bounds) && Fits(b, kind, bounds) && Fits(c, kind, bounds)
    ensures Merge(Merge(a, b, kind, bounds), c, kind, bounds) == Merge(a, Merge(b, c, kind, bounds), kind, bounds)
  {
    match kind
    case Counter =>
    case Histogram => assert Plus(Plus(a.counts, b.counts), c.counts) == Plus(a.counts, Plus(b.counts, c.counts));
    case Distinct => assert Most(Most(a.ranks, b.ranks), c.ranks) == Most(a.ranks, Most(b.ranks, c.ranks));
  }

  lemma MergeEmpty(a: Summary, kind: Kind, bounds: seq<real>)
    requires Fits(a, kind, bounds)
    ensures Merge(a, Empty(kind, bounds), kind, bounds) == a && Merge(Empty(kind, bounds), a, kind, bounds) == a
  {
    match kind
    case Counter =>
    case Histogram =>
      assert Plus(a.counts, Zeros(|bounds|)) == a.counts && Plus(Zeros(|bounds|), a.counts) == a.counts;
    case Distinct =>
      assert Most(a.ranks, Zeros(REGISTER_COUNT)) == a.ranks && Most(Zeros(REGISTER_COUNT), a.ranks) == a.ranks;
  }

  /** A register sketch that is delivered twice counts once. */
  lemma MergeRepeats(a: Summary, b: Summary, bounds: seq<real>)
    requires Fits(a, Distinct, bounds) && Fits(b, Distinct, bounds)
    ensures Merge(Merge(a, b, Distinct, bounds), b, Distinct, bounds) == Merge(a, b, Distinct, bounds)
  {
    assert Most(Most(a.ranks, b.ranks), b.ranks) == Most(a.ranks, b.ranks);
  }

  ghost predicate AllSuit(payloads: seq<Payload>, kind: Kind) { forall p :: p in payloads ==> Suits(p, kind) }

  /** Merging is a homomorphism: two windows merged are the window of both streams. */
  lemma {:induction false} SummarizeConcat(a: seq<Payload>, b: seq<Payload>, kind: Kind, bounds: seq<real>)
    requires AllSuit(a, kind) && AllSuit(b, kind)
    ensures AllSuit(a + b, kind)
    ensures Summarize(a + b, kind, bounds) ==
      Merge(Summarize(a, kind, bounds), Summarize(b, kind, bounds), kind, bounds)
  {
    if b == [] {
      assert a + b == a;
      MergeEmpty(Summarize(a, kind, bounds), kind, bounds);
    } else {
      var n := |b| - 1;
      SummarizeConcat(a, b[..n], kind, bounds);
      assert (a + b)[..|a| + n] == a + b[..n] && (a + b)[|a| + n] == b[n];
      var x, y, z := Summarize(a, kind, bounds), Summarize(b[..n], kind, bounds), Single(b[n], kind, bounds);
      hide Merge, Single;
      MergeAssociates(x, y, z, kind, bounds);
    }
  }

  lemma MoveToEnd(a: seq<Payload>, x: Payload, b: seq<Payload>, kind: Kind, bounds: seq<real>)
    requires AllSuit(a + [x] + b, kind)
    ensures AllSuit(a + b + [x], kind)
    ensures Summarize(a + [x] + b, kind, bounds) == Summarize(a + b + [x], kind, bounds)
  {
    assert forall p :: p in a + [x] + b <==> p in a || p == x || p in b;
    SummarizeConcat(a, [x], kind, bounds);
    SummarizeConcat(a + [x], b, kind, bounds);
    SummarizeConcat(a, b, kind, bounds);
    SummarizeConcat(a + b, [x], kind, bounds);
    var s, t, u := Summarize(a, kind, bounds), Summarize([x], kind, bounds), Summarize(b, kind, bounds);
    hide Summarize, Merge;
    MergeAssociates(s, t, u, kind, bounds);
    MergeAssociates(s, u, t, kind, bounds);
    MergeCommutes(t, u, kind, bounds);
  }

  /** The order of the observations does not matter. */
  lemma {:induction false} SummarizePermutes(a: seq<Payload>, b: seq<Payload>, kind: Kind, bounds: seq<real>)
    requires AllSuit(a, kind) && multiset(a) == multiset(b)
    ensures AllSuit(b, kind) && Summarize(a, kind, bounds) == Summarize(b, kind, bounds)
  {
    forall p | p in b ensures p in a { assert p in multiset(a); }
    if a == [] {
      assert |multiset(b)| == 0;
    } else {
      var n := |a| - 1;
      var x := a[n];
      assert x in multiset(b);
      var i :| 0 <= i < |b| && b[i] == x;
      var before, after := b[..i], b[i + 1..];
      Without(a, b, i);
      assert b == before + [x] + after;
      MoveToEnd(before, x, after, kind, bounds);
      assert AllSuit(a[..n], kind);
      SummarizePermutes(a[..n], before + after, kind, bounds);
      assert (before + after + [x])[..n] == before + after;
    }
  }

  lemma Without<T>(a: seq<T>, b: seq<T>, i: nat)
    requires a != [] && multiset(a) == multiset(b) && i < |b| && b[i] == a[|a| - 1]
    ensures multiset(a[..|a| - 1]) == multiset(b[..i] + b[i + 1..]) && |b[..i] + b[i + 1..]| == |a| - 1
  {
    var n := |a| - 1;
    assert a == a[..n] + [a[n]];
    assert b == b[..i] + [b[i]] + b[i + 1..];
    assert multiset(a[..n]) == multiset(a) - multiset{a[n]};
    assert multiset(b[..i] + b[i + 1..]) == multiset(b) - multiset{b[i]};
    assert |multiset(a)| == |a| && |multiset(b)| == |b|;
  }

  // What the buckets and registers of a window mean

  /** How many samples are above the previous bound and at most this one. */
  function CountBetween(payloads: seq<Payload>, bounds: seq<real>, i: nat): nat
    requires i < |bounds| && forall p :: p in payloads ==> p.Sample?
  {
    if payloads == [] then 0
    else
      var n := |payloads| - 1;
      CountBetween(payloads[..n], bounds, i) + if Between(payloads[n].value, bounds, i) then 1 else 0
  }

  predicate Between(value: real, bounds: seq<real>, i: nat)
    requires i < |bounds|
  {
    value <= bounds[i] && (i > 0 ==> bounds[i - 1] < value)
  }

  ghost predicate StrictlyIncreasing(bounds: seq<real>) {
    forall i, j :: 0 <= i < j < |bounds| ==> bounds[i] < bounds[j]
  }

  /**
   Every bucket holds the samples between its bounds, and `count` counts all samples, those above the last
   bound too.
   */
  lemma {:induction false} BucketsCountRanges(payloads: seq<Payload>, bounds: seq<real>, i: nat)
    requires AllSuit(payloads, Histogram) && StrictlyIncreasing(bounds) && i < |bounds|
    ensures Summarize(payloads, Histogram, bounds).counts[i] == CountBetween(payloads, bounds, i)
    ensures Summarize(payloads, Histogram, bounds).count == |payloads|
  {
    if payloads != [] {
      var n := |payloads| - 1;
      BucketsCountRanges(payloads[..n], bounds, i);
      assert payloads[n] in payloads && Suits(payloads[n], Histogram);
      assert Bucket(bounds, payloads[n].value) == i <==> Between(payloads[n].value, bounds, i);
    }
  }

  lemma EmptySummary(bounds: seq<real>)
    ensures Summarize([], Histogram, bounds) == Empty(Histogram, bounds)
  {
  }

  /** The extremes are those of the samples. */
  lemma {:induction false} ExtremesAreSamples(payloads: seq<Payload>, bounds: seq<real>)
    requires AllSuit(payloads, Histogram) && payloads != []
    ensures var s := Summarize(payloads, Histogram, bounds);
      && s.min.Some? && Sample(s.min.value) in payloads && s.max.Some? && Sample(s.max.value) in payloads
      && forall p :: p in payloads ==> s.min.value <= p.value <= s.max.value
  {
    var n := |payloads| - 1;
    var last := payloads[n];
    assert last in payloads && Suits(last, Histogram) && last == Sample(last.value);
    var before := Summarize(payloads[..n], Histogram, bounds);
    var s := Summarize(payloads, Histogram, bounds);
    assert s.min == Lower(before.min, Some(last.value)) && s.max == Higher(before.max, Some(last.value));
    assert payloads == payloads[..n] + [last];
    hide Summarize;
    if n > 0 {
      ExtremesAreSamples(payloads[..n], bounds);
    } else {
      assert before == Empty(Histogram, bounds) by { EmptySummary(bounds); }
    }
  }

  /** A register is the largest rank that was hashed to it. */
  lemma {:induction false} RegistersAreMaxima(payloads: seq<Payload>, bounds: seq<real>, i: nat)
    requires AllSuit(payloads, Distinct) && i < REGISTER_COUNT
    ensures var r := Summarize(payloads, Distinct, bounds).ranks[i];
      && (forall p :: p in payloads && p.index == i ==> p.rank <= r)
      && (r > 0 ==> Hashed(i, r) in payloads)
  {
    if payloads != [] {
      var n := |payloads| - 1;
      var last := payloads[n];
      assert last in payloads && Suits(last, Distinct) && last == Hashed(last.index, last.rank);
      assert payloads == payloads[..n] + [last];
      RegistersAreMaxima(payloads[..n], bounds, i);
    }
  }

  // What a window says, in terms of its observations alone

  /** What an observation adds to a counter or to the sum of a histogram. */
  function ValueOf(p: Payload): real {
    match p
    case Amount(n) => n
    case Sample(v) => v
    case Hashed(_, _) => 0.0
  }

  function ValueSum(payloads: seq<Payload>): real {
    if payloads == [] then 0.0 else ValueSum(payloads[..|payloads| - 1]) + ValueOf(payloads[|payloads| - 1])
  }

  /** A counter is the sum of its amounts, and the sum of a histogram that of its samples. */
  lemma {:induction false} SummarizeSums(payloads: seq<Payload>, kind: Kind, bounds: seq<real>)
    requires AllSuit(payloads, kind)
    ensures kind == Counter ==> Summarize(payloads, kind, bounds) == Total(ValueSum(payloads))
    ensures kind == Histogram ==> Summarize(payloads, kind, bounds).sum == ValueSum(payloads)
  {
    if payloads != [] {
      var n := |payloads| - 1;
      assert payloads[n] in payloads && Suits(payloads[n], kind);
      SummarizeSums(payloads[..n], kind, bounds);
    }
  }

  ghost predicate AreExtremes(min: Option<real>, max: Option<real>, payloads: seq<Payload>)
    requires AllSuit(payloads, Histogram)
  {
    if payloads == [] then min.None? && max.None?
    else
      && min.Some? && Sample(min.value) in payloads && max.Some? && Sample(max.value) in payloads
      && forall p :: p in payloads ==> min.value <= p.value <= max.value
  }

  ghost predicate IsLargestRank(rank: nat, payloads: seq<Payload>, i: nat)
    requires AllSuit(payloads, Distinct)
  {
    && (forall p :: p in payloads && p.index == i ==> p.rank <= rank)
    && (rank > 0 ==> Hashed(i, rank) in payloads)
  }

  /**
   What a series must say after these observations: a counter their sum; a histogram their number, sum and
   extremes and how many lie in each bucket; a distinct count the largest rank for each register.
   */
  ghost predicate Reports(s: Summary, payloads: seq<Payload>, kind: Kind, bounds: seq<real>)
    requires AllSuit(payloads, kind)
  {
    match kind
    case Counter => s == Total(ValueSum(payloads))
    case Histogram =>
      && s.Samples? && s.count == |payloads| && s.sum == ValueSum(payloads)
      && AreExtremes(s.min, s.max, payloads)
      && |s.counts| == |bounds|
      && forall i :: 0 <= i < |bounds| ==> s.counts[i] == CountBetween(payloads, bounds, i)
    case Distinct =>
      && s.Registers? && |s.ranks| == REGISTER_COUNT
      && forall i :: 0 <= i < REGISTER_COUNT ==> IsLargestRank(s.ranks[i], payloads, i)
  }

  lemma HistogramReports(payloads: seq<Payload>, bounds: seq<real>)
    requires AllSuit(payloads, Histogram) && StrictlyIncreasing(bounds)
    ensures Reports(Summarize(payloads, Histogram, bounds), payloads, Histogram, bounds)
  {
    SummarizeSums(payloads, Histogram, bounds);
    SampleCount(payloads, bounds);
    forall i | 0 <= i < |bounds|
      ensures Summarize(payloads, Histogram, bounds).counts[i] == CountBetween(payloads, bounds, i)
    {
      BucketsCountRanges(payloads, bounds, i);
    }
    if payloads == [] {
      EmptySummary(bounds);
    } else {
      ExtremesAreSamples(payloads, bounds);
    }
    hide Summarize;
  }

  lemma {:induction false} SampleCount(payloads: seq<Payload>, bounds: seq<real>)
    requires AllSuit(payloads, Histogram)
    ensures Summarize(payloads, Histogram, bounds).count == |payloads|
  {
    if payloads != [] {
      var n := |payloads| - 1;
      assert payloads[n] in payloads && Suits(payloads[n], Histogram);
      SampleCount(payloads[..n], bounds);
    }
  }

  lemma RegistersReport(payloads: seq<Payload>, bounds: seq<real>)
    requires AllSuit(payloads, Distinct)
    ensures Reports(Summarize(payloads, Distinct, bounds), payloads, Distinct, bounds)
  {
    forall i | 0 <= i < REGISTER_COUNT
      ensures IsLargestRank(Summarize(payloads, Distinct, bounds).ranks[i], payloads, i)
    {
      RegistersAreMaxima(payloads, bounds, i);
    }
  }

  /** There is only one thing to say about a series. */
  lemma OneReport(a: Summary, b: Summary, payloads: seq<Payload>, kind: Kind, bounds: seq<real>)
    requires AllSuit(payloads, kind) && Reports(a, payloads, kind, bounds) && Reports(b, payloads, kind, bounds)
    ensures a == b
  {
    match kind
    case Counter =>
    case Histogram =>
      assert a.counts == b.counts;
      assert a.min == b.min && a.max == b.max;
    case Distinct =>
      forall i | 0 <= i < REGISTER_COUNT ensures a.ranks[i] == b.ranks[i] {
        assert IsLargestRank(a.ranks[i], payloads, i) && IsLargestRank(b.ranks[i], payloads, i);
      }
      assert a.ranks == b.ranks;
  }

  /** The window of these observations is exactly the one that reports them. */
  lemma ReportsExactly(s: Summary, payloads: seq<Payload>, kind: Kind, bounds: seq<real>)
    requires AllSuit(payloads, kind) && StrictlyIncreasing(bounds)
    ensures s == Summarize(payloads, kind, bounds) <==> Reports(s, payloads, kind, bounds)
  {
    match kind {
      case Counter => SummarizeSums(payloads, kind, bounds);
      case Histogram => HistogramReports(payloads, bounds);
      case Distinct => RegistersReport(payloads, bounds);
    }
    hide Summarize, Reports;
    if Reports(s, payloads, kind, bounds) { OneReport(s, Summarize(payloads, kind, bounds), payloads, kind, bounds); }
  }
}
