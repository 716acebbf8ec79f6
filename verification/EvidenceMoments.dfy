/**
 What the evidence of a variant says of the events: it counts and sums exactly the exposures and goals ever accepted
 for the variant from the sources that count, and its variance is that of the accepted goal values.
 */
module EvidenceMoments {
  import opened Wrappers
  import opened RealArithmetic
  import opened ExperimentLedger
  import opened EvidenceHistory
  import opened EvidenceDecision

  /** What is asked for: a variant of an experiment, and whether only trusted sources count. */
  datatype Question = Question(project: string, experiment: string, variant: string, trustedOnly: bool)

  predicate Concerns(q: Question, key: TotalsKey) {
    && key.project == q.project && key.experiment == q.experiment && key.variant == q.variant
    && (q.trustedOnly ==> key.source.trusted)
  }

  function ExposuresFor(h: seq<Evidence>, q: Question): nat {
    if h == [] then 0
    else
      var last := h[|h| - 1];
      ExposuresFor(h[..|h| - 1], q) + if last.AnExposure? && Concerns(q, last.key) then 1 else 0
  }

  /** The values of the goals that count. */
  function ValuesFor(h: seq<Evidence>, q: Question): seq<real> {
    if h == [] then []
    else
      var last := h[|h| - 1];
      ValuesFor(h[..|h| - 1], q) + if last.AGoal? && Concerns(q, last.key) then [last.value] else []
  }

  // Counts and sums of some evidence

  datatype Moments = Moments(exposures: nat, goals: nat, sum: real, squares: real)

  function Plus(a: Moments, b: Moments): Moments {
    Moments(a.exposures + b.exposures, a.goals + b.goals, a.sum + b.sum, a.squares + b.squares)
  }

  function One(x: Evidence): Moments {
    match x
    case AnExposure(_) => Moments(1, 0, 0.0, 0.0)
    case AGoal(_, v) => Moments(0, 1, v, v * v)
  }

  const NONE := Moments(0, 0, 0.0, 0.0)

  function Under(h: seq<Evidence>, key: TotalsKey): Moments {
    var values := GoalValues(h, key);
    Moments(Exposures(h, key), |values|, Sum(values), SumOfSquares(values))
  }

  function For(h: seq<Evidence>, q: Question): Moments {
    var values := ValuesFor(h, q);
    Moments(ExposuresFor(h, q), |values|, Sum(values), SumOfSquares(values))
  }

  lemma SumsNext(values: seq<real>, v: real)
    ensures Sum(values + [v]) == Sum(values) + v && SumOfSquares(values + [v]) == SumOfSquares(values) + v * v
  {
    assert (values + [v])[..|values|] == values;
  }

  lemma UnderNext(h: seq<Evidence>, x: Evidence, key: TotalsKey)
    ensures Under(h + [x], key) == if x.key == key then Plus(Under(h, key), One(x)) else Under(h, key)
  {
    Push(h, x, key);
    var values := GoalValues(h, key);
    hide GoalValues, Exposures, Sum, SumOfSquares;
    if x.AGoal? { SumsNext(values, x.value); }
    assert values + [] == values;
  }

  lemma ForNext(h: seq<Evidence>, x: Evidence, q: Question)
    ensures For(h + [x], q) == if Concerns(q, x.key) then Plus(For(h, q), One(x)) else For(h, q)
  {
    assert (h + [x])[..|h|] == h;
    var values := ValuesFor(h, q);
    assert ValuesFor(h + [x], q) == values + if x.AGoal? && Concerns(q, x.key) then [x.value] else [];
    hide ValuesFor, Sum, SumOfSquares;
    if x.AGoal? { SumsNext(values, x.value); }
    assert values + [] == values;
  }

  // The rows of a listing

  function RowKeyOf(q: Question, row: TotalsRow): TotalsKey {
    TotalsKey(q.project, q.experiment, row.variant, row.source)
  }

  /** No two rows are of the same variant and source. */
  ghost predicate OnePerSource(rows: seq<TotalsRow>) {
    forall i, j :: 0 <= i < j < |rows| ==> rows[i].variant != rows[j].variant || rows[i].source != rows[j].source
  }

  ghost predicate Listed(rows: seq<TotalsRow>, q: Question, key: TotalsKey) {
    exists i :: 0 <= i < |rows| && RowKeyOf(q, rows[i]) == key
  }

  /** The evidence under the rows that count. */
  function Pooled(rows: seq<TotalsRow>, q: Question, h: seq<Evidence>): Moments {
    if rows == [] then NONE
    else
      var n := |rows| - 1;
      var before := Pooled(rows[..n], q, h);
      if Concerns(q, RowKeyOf(q, rows[n])) then Plus(before, Under(h, RowKeyOf(q, rows[n]))) else before
  }

  lemma {:induction false} PooledNext(rows: seq<TotalsRow>, q: Question, h: seq<Evidence>, x: Evidence)
    requires OnePerSource(rows)
    ensures Pooled(rows, q, h + [x]) ==
            if Listed(rows, q, x.key) && Concerns(q, x.key) then Plus(Pooled(rows, q, h), One(x))
            else Pooled(rows, q, h)
  {
    hide Under, One, Listed;
    if rows != [] {
      var n := |rows| - 1;
      PooledNext(rows[..n], q, h, x);
      UnderNext(h, x, RowKeyOf(q, rows[n]));
      ListedNext(rows, q, x.key);
      hide OnePerSource;
    } else {
      NoneListed(q, x.key);
    }
  }

  lemma NoneListed(q: Question, key: TotalsKey)
    ensures !Listed([], q, key)
  {
  }

  lemma ListedNext(rows: seq<TotalsRow>, q: Question, key: TotalsKey)
    requires rows != [] && OnePerSource(rows)
    ensures Listed(rows, q, key) <==> Listed(rows[..|rows| - 1], q, key) || RowKeyOf(q, rows[|rows| - 1]) == key
    ensures RowKeyOf(q, rows[|rows| - 1]) == key ==> !Listed(rows[..|rows| - 1], q, key)
  {
    var n := |rows| - 1;
    assert forall i :: 0 <= i < n ==> rows[..n][i] == rows[i];
    if i :| 0 <= i < n && RowKeyOf(q, rows[i]) == key { assert RowKeyOf(q, rows[..n][i]) == key; }
  }

  /** When every row that evidence counts under is listed, the rows hold all of it. */
  lemma {:induction false} PooledIsAll(rows: seq<TotalsRow>, q: Question, h: seq<Evidence>)
    requires OnePerSource(rows) && forall x :: x in h && Concerns(q, x.key) ==> Listed(rows, q, x.key)
    ensures Pooled(rows, q, h) == For(h, q)
    decreases |h|
  {
    hide OnePerSource, Listed, Concerns;
    if h == [] {
      NothingPooled(rows, q);
    } else {
      var before, last := h[..|h| - 1], h[|h| - 1];
      assert h == before + [last];
      PooledIsAll(rows, q, before);
      PooledNext(rows, q, before, last);
      ForNext(before, last, q);
      hide Pooled, For;
    }
  }

  lemma {:induction false} NothingPooled(rows: seq<TotalsRow>, q: Question)
    ensures Pooled(rows, q, []) == NONE && For([], q) == NONE
  {
    if rows != [] { NothingPooled(rows[..|rows| - 1], q); }
  }

  // The evidence of a reachable ledger

  /** One row for each totals row of the experiment. */
  ghost predicate ListsAll(l: Ledger, q: Question, rows: seq<TotalsRow>) {
    && ListsTotals(l, q.project, q.experiment, rows) && OnePerSource(rows)
    && forall key :: key in l.totals && key.project == q.project && key.experiment == q.experiment ==>
       Listed(rows, q, key)
  }

  lemma {:induction false} EvidenceIsPooled(l: Ledger, h: seq<Evidence>, rows: seq<TotalsRow>, q: Question)
    requires ListsTotals(l, q.project, q.experiment, rows)
    requires forall i :: 0 <= i < |rows| ==> TotalsMean(TotalsAt(l, RowKeyOf(q, rows[i])), h, RowKeyOf(q, rows[i]))
    ensures var e, p := EvidenceOf(rows, q.trustedOnly, q.variant), Pooled(rows, q, h);
      e.exposures == p.exposures && e.goals == p.goals && e.goalSum == p.sum && e.goalSumSq == p.squares
  {
    hide Exposures, GoalValues, Sum, SumOfSquares, TotalsAt;
    if rows != [] {
      var n := |rows| - 1;
      EvidenceIsPooled(l, h, rows[..n], q);
      assert TotalsMean(rows[n].totals, h, RowKeyOf(q, rows[n]));
    }
  }

  lemma {:induction false} EvidenceUnder(h: seq<Evidence>, x: Evidence)
    requires x in h
    ensures Exposures(h, x.key) > 0 || |GoalValues(h, x.key)| > 0
  {
    var n := |h| - 1;
    if x != h[n] { EvidenceUnder(h[..n], x); }
  }

  /** What evidence there is was counted under a totals row. */
  lemma EvidenceIsListed(l: Ledger, h: seq<Evidence>, q: Question, rows: seq<TotalsRow>, x: Evidence)
    requires ListsAll(l, q, rows) && TotalsMean(TotalsAt(l, x.key), h, x.key) && x in h && Concerns(q, x.key)
    ensures Listed(rows, q, x.key)
  {
    hide Listed, ListsTotals, OnePerSource;
    EvidenceUnder(h, x);
    hide Exposures, GoalValues, Sum, SumOfSquares;
    assert x.key in l.totals;
  }

  // The variance

  /** The squared distances from m. */
  function Deviations(values: seq<real>, m: real): real {
    if values == [] then 0.0
    else
      var v := values[|values| - 1];
      Deviations(values[..|values| - 1], m) + (v - m) * (v - m)
  }

  /** The squared distances d from m of n values with this sum and sum of squares. */
  predicate Expands(d: real, squares: real, sum: real, n: real, m: real) {
    d == squares - 2.0 * (m * sum) + n * (m * m)
  }

  lemma {:induction false} DeviationsExpand(values: seq<real>, m: real)
    ensures Expands(Deviations(values, m), SumOfSquares(values), Sum(values), |values| as real, m)
  {
    if values != [] {
      hide Expands;
      var front, v := values[..|values| - 1], values[|values| - 1];
      DeviationsExpand(front, m);
      ExpandStep(Deviations(front, m), SumOfSquares(front), Sum(front), |front| as real, v, m);
      assert |values| as real == |front| as real + 1.0;
    }
  }

  lemma ExpandStep(d: real, q: real, s: real, n: real, v: real, m: real)
    requires Expands(d, q, s, n, m)
    ensures Expands(d + (v - m) * (v - m), q + v * v, s + v, n + 1.0, m)
  {
    Distribute(m, s + v, s, v);
    Distribute(m * m, n + 1.0, n, 1.0);
    ExpandSquare(v, m);
  }

  lemma Distribute(m: real, sum: real, a: real, b: real)
    requires sum == a + b
    ensures m * sum == m * a + m * b && sum * m == a * m + b * m
  {
  }

  lemma ExpandSquare(v: real, m: real)
    ensures (v - m) * (v - m) == v * v - 2.0 * (m * v) + m * m
  {
  }

  lemma {:induction false} DeviationsArePositive(values: seq<real>, m: real)
    ensures Deviations(values, m) >= 0.0
  {
    if values != [] {
      DeviationsArePositive(values[..|values| - 1], m);
      SquareIsPositive(values[|values| - 1] - m);
    }
  }

  lemma SquareIsPositive(x: real)
    ensures x * x >= 0.0
  {
  }

  /** The variance computed from count, sum and sum of squares is the mean squared distance from the mean. */
  lemma VarianceOfValues(row: VariantRow, values: seq<real>)
    requires row.goals == |values| && row.goalSum == Sum(values) && row.goalSumSq == SumOfSquares(values)
    ensures SampleVariance(row) ==
            if |values| < 2 then None
            else Some(Deviations(values, Sum(values) / |values| as real) / (|values| as real - 1.0))
  {
    hide Deviations, Sum, SumOfSquares;
    if |values| >= 2 {
      var n, s := |values| as real, Sum(values);
      var m := s / n;
      assert m * n == s;
      DeviationsExpand(values, m);
      DeviationsArePositive(values, m);
      MeanSquares(n, m, s);
      SquareOverCount(n, m, s);
      hide SampleVariance;
      VarianceOfSquares(row, Deviations(values, m));
    }
  }

  lemma VarianceOfSquares(row: VariantRow, squares: real)
    requires row.goals >= 2 && squares >= 0.0 && CenteredSquares(row) == squares
    ensures SampleVariance(row) == Some(squares / (row.goals as real - 1.0))
  {
    hide CenteredSquares, Tolerance;
    assert Larger(0.0, CenteredSquares(row)) == squares;
  }

  lemma MeanSquares(n: real, m: real, s: real)
    requires m * n == s
    ensures n * (m * m) == m * s
  {
  }

  lemma SquareOverCount(n: real, m: real, s: real)
    requires n > 0.0 && m * n == s
    ensures s * s / n == m * s
  {
    assert (m * s) * n == s * s;
  }

  /**
   In every reachable ledger the evidence of a variant counts the exposures and sums the goals that were ever accepted
   for it from the sources that count, whichever rows have expired since, and its variance is that of those goals.
   */
  lemma EvidenceMeansHistory(states: seq<Ledger>, ops: seq<Operation>, maxRows: nat, maxWriteBatch: nat, k: nat,
                             q: Question, rows: seq<TotalsRow>)
    requires IsRun(states, ops, maxRows, maxWriteBatch) && k <= |ops| && ListsAll(states[k], q, rows)
    ensures var e, h := EvidenceOf(rows, q.trustedOnly, q.variant), AcceptedBy(ops[..k]);
      var values := ValuesFor(h, q);
      && e.exposures == ExposuresFor(h, q) && e.goals == |values|
      && e.goalSum == Sum(values) && e.goalSumSq == SumOfSquares(values)
      && SampleVariance(e) ==
         if |values| < 2 then None
         else Some(Deviations(values, Sum(values) / |values| as real) / (|values| as real - 1.0))
  {
    hide Step, TotalsMean, SampleVariance, Deviations, KeySound, TotalsAt, Listed, ListsTotals, OnePerSource, Pooled,
      EvidenceOf, ValuesFor, ExposuresFor, Sum, SumOfSquares, AcceptedBy;
    var l, h := states[k], AcceptedBy(ops[..k]);
    forall key ensures TotalsMean(TotalsAt(l, key), h, key) {
      TotalsMeanHistory(states, ops, maxRows, maxWriteBatch, k, key);
    }
    forall x | x in h && Concerns(q, x.key) ensures Listed(rows, q, x.key) { EvidenceIsListed(l, h, q, rows, x); }
    EvidenceIsPooled(l, h, rows, q);
    PooledIsAll(rows, q, h);
    VarianceOfValues(EvidenceOf(rows, q.trustedOnly, q.variant), ValuesFor(h, q));
  }
}
