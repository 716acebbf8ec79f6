/** From the totals of the ledger to the rows a decision is taken on, in exact arithmetic. */
module EvidenceDecision {
  import opened Wrappers
  import opened RealArithmetic
  import opened ExperimentLedger
  import opened EvidenceHistory

  /** One row of the totals of an experiment, as ExperimentLedger.totals lists them. */
  datatype TotalsRow = TotalsRow(variant: string, source: Source, totals: Totals)

  datatype VariantRow = VariantRow(key: string, exposures: nat, goals: nat, goalSum: real, goalSumSq: real)

  function EmptyRow(key: string): VariantRow { VariantRow(key, 0, 0, 0.0, 0.0) }

  function AddTotals(row: VariantRow, t: Totals): VariantRow {
    VariantRow(row.key, row.exposures + t.exposures, row.goals + t.goals, row.goalSum + t.goalSum,
               row.goalSumSq + t.goalSumSq)
  }

  predicate Counts(row: TotalsRow, trustedOnly: bool, key: string) {
    row.variant == key && (!trustedOnly || row.source.trusted)
  }

  /** The evidence of one variant: the sum of its eligible rows. */
  function EvidenceOf(rows: seq<TotalsRow>, trustedOnly: bool, key: string): VariantRow {
    if rows == [] then EmptyRow(key)
    else
      var before := EvidenceOf(rows[..|rows| - 1], trustedOnly, key);
      if Counts(rows[|rows| - 1], trustedOnly, key) then AddTotals(before, rows[|rows| - 1].totals) else before
  }

  predicate HasEvidence(rows: seq<TotalsRow>, trustedOnly: bool, key: string) {
    exists i :: 0 <= i < |rows| && Counts(rows[i], trustedOnly, key)
  }

  predicate HasRow(out: seq<VariantRow>, key: string) { exists i :: 0 <= i < |out| && out[i].key == key }

  ghost predicate OnePerVariant(out: seq<VariantRow>) {
    forall i, j :: 0 <= i < j < |out| ==> out[i].key != out[j].key
  }

  /** One row for every variant that has an eligible totals row, holding their sum. */
  ghost predicate Aggregates(out: seq<VariantRow>, rows: seq<TotalsRow>, trustedOnly: bool) {
    && OnePerVariant(out)
    && (forall i :: 0 <= i < |out| ==>
       HasEvidence(rows, trustedOnly, out[i].key) && out[i] == EvidenceOf(rows, trustedOnly, out[i].key))
    && (forall key: string :: HasEvidence(rows, trustedOnly, key) ==> HasRow(out, key))
  }

  /** The output once the n-th row has been taken into account at position `at`, if it is eligible. */
  function Taken(out: seq<VariantRow>, at: nat, row: TotalsRow): seq<VariantRow>
    requires at <= |out|
  {
    if at == |out| then out + [AddTotals(EmptyRow(row.variant), row.totals)]
      else out[at := AddTotals(out[at], row.totals)]
  }

  lemma RowAt(rows: seq<TotalsRow>, trustedOnly: bool, key: string, n: nat)
    requires n < |rows|
    ensures HasEvidence(rows[..n + 1], trustedOnly, key) <==>
      HasEvidence(rows[..n], trustedOnly, key) || Counts(rows[n], trustedOnly, key)
    ensures EvidenceOf(rows[..n + 1], trustedOnly, key) ==
      (if Counts(rows[n], trustedOnly, key) then AddTotals(EvidenceOf(rows[..n], trustedOnly, key), rows[n].totals)
       else EvidenceOf(rows[..n], trustedOnly, key))
  {
    MoreEvidence(rows, trustedOnly, key, n);
    assert rows[..n + 1][..n] == rows[..n];
    hide HasEvidence;
  }

  lemma SkipRow(out: seq<VariantRow>, rows: seq<TotalsRow>, trustedOnly: bool, n: nat)
    requires n < |rows| && Aggregates(out, rows[..n], trustedOnly) && trustedOnly && !rows[n].source.trusted
    ensures Aggregates(out, rows[..n + 1], trustedOnly)
  {
    forall key: string
      ensures HasEvidence(rows[..n + 1], trustedOnly, key) <==> HasEvidence(rows[..n], trustedOnly, key)
      ensures EvidenceOf(rows[..n + 1], trustedOnly, key) == EvidenceOf(rows[..n], trustedOnly, key)
    {
      RowAt(rows, trustedOnly, key, n);
    }
    hide HasEvidence, EvidenceOf, HasRow;
  }

  lemma TakeRow(out: seq<VariantRow>, rows: seq<TotalsRow>, trustedOnly: bool, n: nat, at: nat)
    requires n < |rows| && Aggregates(out, rows[..n], trustedOnly) && (trustedOnly ==> rows[n].source.trusted)
    requires at <= |out| && (at < |out| ==> out[at].key == rows[n].variant)
    requires at == |out| ==> forall i :: 0 <= i < |out| ==> out[i].key != rows[n].variant
    ensures Aggregates(Taken(out, at, rows[n]), rows[..n + 1], trustedOnly)
  {
    var row, after := rows[n], Taken(out, at, rows[n]);
    if at == |out| {
      assert !HasEvidence(rows[..n], trustedOnly, row.variant);
      NoEvidence(rows[..n], trustedOnly, row.variant);
    }
    RowAt(rows, trustedOnly, row.variant, n);
    assert after[at] == AddTotals(EvidenceOf(rows[..n], trustedOnly, row.variant), row.totals);
    hide AddTotals, EvidenceOf, HasEvidence;
    forall i | 0 <= i < |after|
      ensures HasEvidence(rows[..n + 1], trustedOnly, after[i].key)
      ensures after[i] == EvidenceOf(rows[..n + 1], trustedOnly, after[i].key)
    {
      if i != at { RowAt(rows, trustedOnly, out[i].key, n); }
    }
    forall key: string | HasEvidence(rows[..n + 1], trustedOnly, key) ensures HasRow(after, key) {
      RowAt(rows, trustedOnly, key, n);
      KeepsRow(out, after, at, key, row);
    }
    OneMoreVariant(out, after, at, row);
  }

  lemma AddedKey(row: VariantRow, totals: Totals)
    ensures AddTotals(row, totals).key == row.key
  {
  }

  lemma KeepsRow(out: seq<VariantRow>, after: seq<VariantRow>, at: nat, key: string, row: TotalsRow)
    requires at <= |out| && after == Taken(out, at, row) && (at < |out| ==> out[at].key == row.variant)
    requires HasRow(out, key) || key == row.variant
    ensures HasRow(after, key)
  {
    AddedKey(EmptyRow(row.variant), row.totals);
    if at < |out| { AddedKey(out[at], row.totals); }
    if key == row.variant {
      assert after[at].key == key;
    } else {
      var i :| 0 <= i < |out| && out[i].key == key;
      assert after[i].key == key;
    }
  }

  lemma OneMoreVariant(out: seq<VariantRow>, after: seq<VariantRow>, at: nat, row: TotalsRow)
    requires OnePerVariant(out) && at <= |out| && after == Taken(out, at, row)
    requires (at < |out| ==> out[at].key == row.variant)
    requires at == |out| ==> forall i :: 0 <= i < |out| ==> out[i].key != row.variant
    ensures OnePerVariant(after)
  {
    AddedKey(EmptyRow(row.variant), row.totals);
    if at < |out| { AddedKey(out[at], row.totals); }
    hide AddTotals;
  }

  /** aggregateEvidence: the totals rows of each variant, summed in a map from variants to rows. */
  method AggregateEvidence(rows: seq<TotalsRow>, trustedOnly: bool) returns (out: seq<VariantRow>)
    ensures Aggregates(out, rows, trustedOnly)
  {
    out := [];
    assert rows[..0] == [];
    hide HasRow, OnePerVariant, EvidenceOf, AddTotals;
    assert Aggregates(out, rows[..0], trustedOnly) by { NothingAggregated(trustedOnly); }
    hide Aggregates;
    for n := 0 to |rows|
      invariant Aggregates(out, rows[..n], trustedOnly)
    {
      var row := rows[n];
      if trustedOnly && !row.source.trusted {
        SkipRow(out, rows, trustedOnly, n);
      } else {
        var at := IndexOf(out, row.variant);
        TakeRow(out, rows, trustedOnly, n, at);
        if at == |out| {
          out := out + [AddTotals(EmptyRow(row.variant), row.totals)];
        } else {
          out := out[at := AddTotals(out[at], row.totals)];
        }
      }
    }
    assert rows[..|rows|] == rows;
  }

  lemma NothingAggregated(trustedOnly: bool)
    ensures Aggregates([], [], trustedOnly)
  {
  }

  method IndexOf(out: seq<VariantRow>, key: string) returns (at: nat)
    ensures at <= |out|
    ensures at < |out| ==> out[at].key == key
    ensures at == |out| ==> forall i :: 0 <= i < |out| ==> out[i].key != key
  {
    at := 0;
    while at < |out| && out[at].key != key
      invariant at <= |out| && forall i :: 0 <= i < at ==> out[i].key != key
    {
      at := at + 1;
    }
  }

  lemma MoreEvidence(rows: seq<TotalsRow>, trustedOnly: bool, key: string, n: nat)
    requires n < |rows|
    ensures HasEvidence(rows[..n + 1], trustedOnly, key) <==>
      HasEvidence(rows[..n], trustedOnly, key) || Counts(rows[n], trustedOnly, key)
  {
    if HasEvidence(rows[..n], trustedOnly, key) {
      var i :| 0 <= i < n && Counts(rows[..n][i], trustedOnly, key);
      assert Counts(rows[..n + 1][i], trustedOnly, key);
    }
    if Counts(rows[n], trustedOnly, key) {
      assert Counts(rows[..n + 1][n], trustedOnly, key);
    }
    if HasEvidence(rows[..n + 1], trustedOnly, key) && !Counts(rows[n], trustedOnly, key) {
      var i :| 0 <= i < n + 1 && Counts(rows[..n + 1][i], trustedOnly, key);
      assert Counts(rows[..n][i], trustedOnly, key);
    }
  }

  lemma {:induction false} NoEvidence(rows: seq<TotalsRow>, trustedOnly: bool, key: string)
    requires !HasEvidence(rows, trustedOnly, key)
    ensures EvidenceOf(rows, trustedOnly, key) == EmptyRow(key)
  {
    if rows != [] {
      var n := |rows| - 1;
      assert rows[..n + 1] == rows;
      MoreEvidence(rows, trustedOnly, key, n);
      NoEvidence(rows[..n], trustedOnly, key);
    }
  }

  // Sample variance and the two branches that call evidence impossible

  /** Number.EPSILON */
  const EPSILON: real := 1.0 / 4503599627370496.0

  function Larger(a: real, b: real): real { if a < b then b else a }

  function Abs(x: real): real { if x < 0.0 then -x else x }

  /** The sum of squares about the mean, from the sums of the goals. */
  function CenteredSquares(row: VariantRow): real
    requires row.goals > 0
  {
    row.goalSumSq - row.goalSum * row.goalSum / row.goals as real
  }

  /** What rounding may take from it. */
  function Tolerance(row: VariantRow): (r: real)
    ensures r >= 0.0
  {
    assert Larger(1.0, Abs(row.goalSumSq)) >= 1.0;
    EPSILON * Larger(1.0, Abs(row.goalSumSq)) * 16.0
  }

  function SampleVariance(row: VariantRow): Option<real> {
    if row.goals < 2 || CenteredSquares(row) < -Tolerance(row) then None
    else Some(Larger(0.0, CenteredSquares(row)) / (row.goals as real - 1.0))
  }

  predicate GoalsExceedExposures(variants: seq<VariantRow>) {
    exists i :: 0 <= i < |variants| && variants[i].goals > variants[i].exposures
  }

  predicate InconsistentStatistics(variants: seq<VariantRow>) {
    exists i :: 0 <= i < |variants| && variants[i].goals >= 2 && SampleVariance(variants[i]).None?
  }

  function RowFor(rows: seq<VariantRow>, key: string): VariantRow {
    if rows == [] then EmptyRow(key)
    else if rows[|rows| - 1].key == key then rows[|rows| - 1]
    else RowFor(rows[..|rows| - 1], key)
  }

  function MissingKeys(keys: seq<string>, rows: seq<VariantRow>): seq<string>
    decreases |rows|
  {
    if rows == [] then keys
    else
      var before := MissingKeys(keys, rows[..|rows| - 1]);
      if rows[|rows| - 1].key in before then before else before + [rows[|rows| - 1].key]
  }

  /** mergeVariantRows: a row for every variant of the definition, empty when there is no evidence. */
  function MergeVariantRows(defined: seq<string>, rows: seq<VariantRow>): seq<VariantRow> {
    var keys := MissingKeys(defined, rows);
    seq(|keys|, i requires 0 <= i < |keys| => RowFor(rows, keys[i]))
  }

  // Why reachable evidence is always consistent

  predicate Consistent(exposures: nat, goals: nat, sum: real, sumSq: real) {
    goals <= exposures && sumSq >= 0.0 && sum * sum <= goals as real * sumSq
  }

  lemma {:induction false} CauchySchwarz(values: seq<real>)
    ensures SumOfSquares(values) >= 0.0
    ensures Sum(values) * Sum(values) <= |values| as real * SumOfSquares(values)
  {
    if values != [] {
      var n := |values| - 1;
      var v := values[n];
      CauchySchwarz(values[..n]);
      assert v * v >= 0.0;
      PooledSquares(n as real, Sum(values[..n]), SumOfSquares(values[..n]), 1.0, v, v * v);
    }
  }

  lemma {:induction false} EvidenceConsistent(rows: seq<TotalsRow>, trustedOnly: bool, key: string)
    requires forall i :: 0 <= i < |rows| ==>
      var t := rows[i].totals; Consistent(t.exposures, t.goals, t.goalSum, t.goalSumSq)
    ensures var e := EvidenceOf(rows, trustedOnly, key); Consistent(e.exposures, e.goals, e.goalSum, e.goalSumSq)
  {
    if rows != [] {
      var e, t := EvidenceOf(rows[..|rows| - 1], trustedOnly, key), rows[|rows| - 1].totals;
      EvidenceConsistent(rows[..|rows| - 1], trustedOnly, key);
      PooledSquares(e.goals as real, e.goalSum, e.goalSumSq, t.goals as real, t.goalSum, t.goalSumSq);
      assert (e.goals + t.goals) as real == e.goals as real + t.goals as real;
    }
  }

  lemma VarianceExists(row: VariantRow)
    requires Consistent(row.exposures, row.goals, row.goalSum, row.goalSumSq) && row.goals >= 2
    ensures SampleVariance(row).Some? && SampleVariance(row).value >= 0.0
  {
    var n, s := row.goals as real, row.goalSum * row.goalSum;
    var mean := s / n;
    assert n * mean == s;
    Cancel(n, mean, row.goalSumSq);
    assert CenteredSquares(row) >= 0.0;
    hide CenteredSquares, Tolerance;
    assert Larger(0.0, CenteredSquares(row)) / (n - 1.0) >= 0.0;
  }

  /** The listing of an experiment's totals. */
  ghost predicate ListsTotals(l: Ledger, project: string, experiment: string, rows: seq<TotalsRow>) {
    forall i :: 0 <= i < |rows| ==>
      rows[i].totals == TotalsAt(l, TotalsKey(project, experiment, rows[i].variant, rows[i].source))
  }

  lemma {:induction false} MergedRow(rows: seq<VariantRow>, key: string)
    ensures RowFor(rows, key) == EmptyRow(key) || RowFor(rows, key) in rows
  {
    if rows != [] && rows[|rows| - 1].key != key {
      MergedRow(rows[..|rows| - 1], key);
    }
  }

  /**
   In every reachable ledger, whatever the sources and however rows expired, the evidence of an experiment has no
   more goals than exposures and admits a variance: the two branches of decideExperiment that call the evidence
   impossible or inconsistent are never taken.
   */
  lemma InvalidBranchesUnreachable(states: seq<Ledger>, ops: seq<Operation>, maxRows: nat, maxWriteBatch: nat, k: nat,
                                   project: string, experiment: string, rows: seq<TotalsRow>, trustedOnly: bool,
                                   evidence: seq<VariantRow>, defined: seq<string>)
    requires IsRun(states, ops, maxRows, maxWriteBatch) && k <= |ops|
    requires ListsTotals(states[k], project, experiment, rows)
    requires forall i :: 0 <= i < |evidence| ==> evidence[i] == EvidenceOf(rows, trustedOnly, evidence[i].key)
    ensures !GoalsExceedExposures(MergeVariantRows(defined, evidence))
    ensures !InconsistentStatistics(MergeVariantRows(defined, evidence))
  {
    forall i | 0 <= i < |rows|
      ensures var t := rows[i].totals; Consistent(t.exposures, t.goals, t.goalSum, t.goalSumSq) {
      TotalsConsistent(states, ops, maxRows, maxWriteBatch, k,
                       TotalsKey(project, experiment, rows[i].variant, rows[i].source));
    }
    hide IsRun, Consistent, SampleVariance, EvidenceOf, RowFor, MissingKeys;
    var keys := MissingKeys(defined, evidence);
    forall i | 0 <= i < |keys|
      ensures RowFor(evidence, keys[i]).goals <= RowFor(evidence, keys[i]).exposures
      ensures RowFor(evidence, keys[i]).goals >= 2 ==> SampleVariance(RowFor(evidence, keys[i])).Some?
    {
      MergedRow(evidence, keys[i]);
      RowConsistent(rows, trustedOnly, evidence, RowFor(evidence, keys[i]));
    }
  }

  lemma TotalsConsistent(states: seq<Ledger>, ops: seq<Operation>, maxRows: nat, maxWriteBatch: nat, k: nat,
                         key: TotalsKey)
    requires IsRun(states, ops, maxRows, maxWriteBatch) && k <= |ops|
    ensures var t := TotalsAt(states[k], key); Consistent(t.exposures, t.goals, t.goalSum, t.goalSumSq)
  {
    TotalsMeanHistory(states, ops, maxRows, maxWriteBatch, k, key);
    hide IsRun, KeySound, TotalsAt, Consistent;
    MeaningConsistent(TotalsAt(states[k], key), AcceptedBy(ops[..k]), key);
  }

  lemma MeaningConsistent(t: Totals, h: seq<Evidence>, key: TotalsKey)
    requires TotalsMean(t, h, key) && t.goals <= t.exposures
    ensures Consistent(t.exposures, t.goals, t.goalSum, t.goalSumSq)
  {
    var values := GoalValues(h, key);
    CauchySchwarz(values);
    hide GoalValues, Exposures, Sum, SumOfSquares;
    assert t.goalSum == Sum(values) && t.goalSumSq == SumOfSquares(values);
  }

  lemma RowConsistent(rows: seq<TotalsRow>, trustedOnly: bool, evidence: seq<VariantRow>, row: VariantRow)
    requires forall i :: 0 <= i < |rows| ==>
      var t := rows[i].totals; Consistent(t.exposures, t.goals, t.goalSum, t.goalSumSq)
    requires forall i :: 0 <= i < |evidence| ==> evidence[i] == EvidenceOf(rows, trustedOnly, evidence[i].key)
    requires row == EmptyRow(row.key) || row in evidence
    ensures row.goals <= row.exposures && (row.goals >= 2 ==> SampleVariance(row).Some?)
  {
    if row != EmptyRow(row.key) {
      var i :| 0 <= i < |evidence| && evidence[i] == row;
      EvidenceConsistent(rows, trustedOnly, row.key);
      if row.goals >= 2 { VarianceExists(row); }
    }
  }
}
