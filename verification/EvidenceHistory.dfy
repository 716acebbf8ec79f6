/** What the totals of every reachable ledger mean, and what the decision code may rely on. */
module EvidenceHistory {
  import opened Wrappers
  import Sequences
  import opened ExperimentLedger

  // Runs

  datatype Operation =
    | Batch(project: string, events: seq<Event>, source: Source, reply: Result<seq<Status>, LedgerError>)
    | Schedule(project: string, experiment: string, expiresAt: nat)
    | Clear(project: string, experiment: string)
    | Prune(now: nat)
    | Decide(project: string, experiment: string, decision: Decision)

  /** One step of a ledger: the outcomes that the class methods of ExperimentLedger promise. */
  ghost predicate Step(l: Ledger, op: Operation, next: Ledger, maxRows: nat, maxWriteBatch: nat) {
    match op
    case Batch(project, events, source, reply) => BatchOutcome(l, next, project, events, source, maxRows,
                                                               maxWriteBatch, reply)
    case Schedule(project, experiment, at) => next == if at >= 1 then Scheduled(l, project, experiment, at) else l
    case Clear(project, experiment) => next == Cleared(l, project, experiment)
    case Prune(now) => next == Pruned(l, now)
    case Decide(project, experiment, decision) => next == Persisted(l, project, experiment, decision)
  }

  ghost predicate IsRun(states: seq<Ledger>, ops: seq<Operation>, maxRows: nat, maxWriteBatch: nat) {
    && |states| == |ops| + 1
    && states[0] == Ledger(map[], map[], map[])
    && forall i :: 0 <= i < |ops| ==> Step(states[i], ops[i], states[i + 1], maxRows, maxWriteBatch)
  }

  // The rows ever accepted

  /** An accepted exposure, or an accepted goal with its value, under a totals key. */
  datatype Evidence = AnExposure(key: TotalsKey) | AGoal(key: TotalsKey, value: real)

  /** The evidence that a status stands for. */
  function Evidenced(project: string, e: Event, source: Source, status: Status): seq<Evidence> {
    match status
    case AcceptedExposure => [AnExposure(EventTotals(project, e, source))]
    case AcceptedGoal => if e.Goal? then [AGoal(EventTotals(project, e, source), e.value)] else []
    case _ => []
  }

  function AcceptedNow(l: Ledger, project: string, e: Event, source: Source): seq<Evidence> {
    Evidenced(project, e, source, StatusOf(l, project, e, source))
  }

  function AcceptedAll(l: Ledger, project: string, events: seq<Event>, source: Source): seq<Evidence>
    decreases |events|
  {
    if events == [] then []
    else
      var before := events[..|events| - 1];
      AcceptedAll(l, project, before, source)
        + AcceptedNow(IngestAll(l, project, before, source), project, events[|events| - 1], source)
  }

  /** The rows a batch was told it had accepted. */
  function AcceptedIn(project: string, events: seq<Event>, source: Source, statuses: seq<Status>): seq<Evidence>
    requires |statuses| == |events|
  {
    if statuses == [] then []
    else
      var n := |statuses| - 1;
      AcceptedIn(project, events[..n], source, statuses[..n]) + Evidenced(project, events[n], source, statuses[n])
  }

  /** What a step accepted, as its caller was told. */
  function StepAccepts(op: Operation): seq<Evidence> {
    if op.Batch? && op.reply.Ok? && |op.reply.value| <= |op.events|
    then AcceptedIn(op.project, op.events[..|op.reply.value|], op.source, op.reply.value) else []
  }

  function Exposures(h: seq<Evidence>, key: TotalsKey): nat {
    if h == [] then 0
    else Exposures(h[..|h| - 1], key) + if h[|h| - 1] == AnExposure(key) then 1 else 0
  }

  /** The values of the goals ever accepted under a key. */
  function GoalValues(h: seq<Evidence>, key: TotalsKey): seq<real> {
    if h == [] then []
    else
      var last := h[|h| - 1];
      GoalValues(h[..|h| - 1], key) + if last.AGoal? && last.key == key then [last.value] else []
  }

  function Sum(values: seq<real>): real {
    if values == [] then 0.0 else Sum(values[..|values| - 1]) + values[|values| - 1]
  }

  function SumOfSquares(values: seq<real>): real {
    if values == [] then 0.0 else SumOfSquares(values[..|values| - 1]) + values[|values| - 1] * values[|values| - 1]
  }

  /** The rows that could still take a goal counted under the key. */
  function OpenRows(rows: map<RowKey, Row>, key: TotalsKey): set<RowKey> {
    set k | k in rows && rows[k].goal.None?
      && TotalsKey(k.project, k.experiment, rows[k].variant, rows[k].source) == key
  }

  ghost predicate TotalsMean(t: Totals, h: seq<Evidence>, key: TotalsKey) {
    && t.exposures == Exposures(h, key)
    && t.goals == |GoalValues(h, key)|
    && t.goalSum == Sum(GoalValues(h, key))
    && t.goalSumSq == SumOfSquares(GoalValues(h, key))
  }

  ghost predicate KeySound(l: Ledger, h: seq<Evidence>, key: TotalsKey) {
    && TotalsMean(TotalsAt(l, key), h, key)
    && TotalsAt(l, key).goals + |OpenRows(l.rows, key)| <= TotalsAt(l, key).exposures
  }

  ghost predicate Sound(l: Ledger, h: seq<Evidence>) {
    forall key: TotalsKey :: KeySound(l, h, key)
  }

  lemma Push(h: seq<Evidence>, x: Evidence, key: TotalsKey)
    ensures Exposures(h + [x], key) == Exposures(h, key) + if x == AnExposure(key) then 1 else 0
    ensures GoalValues(h + [x], key) == GoalValues(h, key) + if x.AGoal? && x.key == key then [x.value] else []
  {
    assert (h + [x])[..|h|] == h;
  }

  lemma PushSum(values: seq<real>, v: real)
    ensures Sum(values + [v]) == Sum(values) + v
    ensures SumOfSquares(values + [v]) == SumOfSquares(values) + v * v
  {
    assert (values + [v])[..|values|] == values;
  }

  lemma IngestMeans(l: Ledger, h: seq<Evidence>, project: string, e: Event, source: Source, key: TotalsKey)
    requires TotalsMean(TotalsAt(l, key), h, key)
    ensures TotalsMean(TotalsAt(Ingest(l, project, e, source), key), h + AcceptedNow(l, project, e, source), key)
  {
    var added := AcceptedNow(l, project, e, source);
    hide Exposures, GoalValues, Sum, SumOfSquares;
    if added == [] {
      assert h + added == h;
    } else {
      Push(h, added[0], key);
      assert GoalValues(h, key) + [] == GoalValues(h, key);
      if added[0].AGoal? {
        PushSum(GoalValues(h, key), added[0].value);
      }
    }
  }

  predicate OpenFor(k: RowKey, r: Row, key: TotalsKey) {
    r.goal.None? && TotalsKey(k.project, k.experiment, r.variant, r.source) == key
  }

  lemma OpenRowsUpdate(rows: map<RowKey, Row>, k: RowKey, r: Row, key: TotalsKey)
    ensures |OpenRows(rows[k := r], key)| == |OpenRows(rows, key)|
      + (if OpenFor(k, r, key) then 1 else 0) - (if k in rows && OpenFor(k, rows[k], key) then 1 else 0)
  {
    var before, after := OpenRows(rows, key), OpenRows(rows[k := r], key);
    forall x ensures x in after <==> if x == k then OpenFor(k, r, key) else x in before {
    }
    assert k in before <==> k in rows && OpenFor(k, rows[k], key);
    hide OpenRows, OpenFor;
    assert after - {k} == before - {k};
    assert k in after ==> |after - {k}| == |after| - 1;
    assert k !in after ==> after - {k} == after;
    assert k !in before ==> before - {k} == before;
  }

  lemma IngestOpenRows(l: Ledger, project: string, e: Event, source: Source, key: TotalsKey)
    ensures var before, after := |OpenRows(l.rows, key)|, |OpenRows(Ingest(l, project, e, source).rows, key)|;
      if EventTotals(project, e, source) != key then after == before
      else match StatusOf(l, project, e, source)
        case AcceptedExposure => after == before + 1
        case AcceptedGoal => after == before - 1
        case _ => after == before
  {
    var row := EventRow(project, e);
    var next := Ingest(l, project, e, source);
    if StatusOf(l, project, e, source).AcceptedExposure? || StatusOf(l, project, e, source).AcceptedGoal? {
      OpenRowsUpdate(l.rows, row, next.rows[row], key);
      assert next.rows == l.rows[row := next.rows[row]];
    }
    hide OpenRows;
  }

  lemma IngestKeySound(l: Ledger, h: seq<Evidence>, project: string, e: Event, source: Source, key: TotalsKey)
    requires KeySound(l, h, key)
    ensures KeySound(Ingest(l, project, e, source), h + AcceptedNow(l, project, e, source), key)
  {
    IngestMeans(l, h, project, e, source, key);
    IngestOpenRows(l, project, e, source, key);
    hide TotalsMean, OpenRows, AcceptedNow;
  }

  lemma {:induction false} IngestAllKeySound(l: Ledger, h: seq<Evidence>, project: string, events: seq<Event>,
                                             source: Source, key: TotalsKey)
    requires KeySound(l, h, key)
    ensures KeySound(IngestAll(l, project, events, source), h + AcceptedAll(l, project, events, source), key)
    decreases |events|
  {
    if events == [] {
      assert h + [] == h;
    } else {
      var before, last := events[..|events| - 1], events[|events| - 1];
      IngestAllKeySound(l, h, project, before, source, key);
      var mid, h' := IngestAll(l, project, before, source), h + AcceptedAll(l, project, before, source);
      IngestKeySound(mid, h', project, last, source, key);
      assert h' + AcceptedNow(mid, project, last, source) == h + AcceptedAll(l, project, events, source);
    }
  }

  /** A rejected batch writes only counters of rejected rows. */
  lemma {:induction false} UntrustedEvidence(l: Ledger, project: string, events: seq<Event>, source: Source,
                                             key: TotalsKey)
    ensures var after := UntrustedBatch(l, project, events, source);
      after.rows == l.rows && after.terminal == l.terminal && SameEvidence(TotalsAt(l, key), TotalsAt(after, key))
    decreases |events|
  {
    if events != [] {
      UntrustedEvidence(l, project, events[..|events| - 1], source, key);
    }
  }

  predicate SameEvidence(a: Totals, b: Totals) {
    a.exposures == b.exposures && a.goals == b.goals && a.goalSum == b.goalSum && a.goalSumSq == b.goalSumSq
  }

  lemma RejectEvidence(l: Ledger, project: string, events: seq<Event>, source: Source, status: Status, k: nat,
                       key: TotalsKey)
    requires k < |events|
    ensures var after := RejectBatch(l, project, events, source, status, k);
      after.rows == l.rows && after.terminal == l.terminal && SameEvidence(TotalsAt(l, key), TotalsAt(after, key))
  {
    UntrustedEvidence(l, project, events, source, key);
  }

  lemma FewerOpenRows(before: map<RowKey, Row>, after: map<RowKey, Row>, key: TotalsKey)
    requires forall k :: k in after ==> k in before && after[k].(expiresAt := 0) == before[k].(expiresAt := 0)
    ensures |OpenRows(after, key)| <= |OpenRows(before, key)|
  {
    assert OpenRows(after, key) <= OpenRows(before, key);
    Sequences.SubsetSize(OpenRows(after, key), OpenRows(before, key));
  }

  // What every run keeps

  lemma {:induction false} AcceptedAsAnswered(l: Ledger, project: string, events: seq<Event>, source: Source,
                                              statuses: seq<Status>)
    requires |statuses| == |events|
    requires forall i :: 0 <= i < |events| ==> statuses[i] == StatusAt(l, project, events, source, i)
    ensures AcceptedIn(project, events, source, statuses) == AcceptedAll(l, project, events, source)
    decreases |events|
  {
    hide IngestAll, StatusOf, Evidenced;
    if events != [] {
      var n := |events| - 1;
      forall i | 0 <= i < n ensures statuses[..n][i] == StatusAt(l, project, events[..n], source, i) {
        StatusOfPrefix(l, project, events, source, n, i);
      }
      AcceptedAsAnswered(l, project, events[..n], source, statuses[..n]);
    }
  }

  lemma StatusOfPrefix(l: Ledger, project: string, events: seq<Event>, source: Source, n: nat, i: nat)
    requires i < n <= |events|
    ensures StatusAt(l, project, events[..n], source, i) == StatusAt(l, project, events, source, i)
  {
    assert events[..n][..i] == events[..i];
    hide IngestAll, StatusOf;
  }

  lemma BatchKeySound(l: Ledger, h: seq<Evidence>, op: Operation, next: Ledger, maxRows: nat, maxWriteBatch: nat,
                      key: TotalsKey)
    requires op.Batch? && KeySound(l, h, key) && Step(l, op, next, maxRows, maxWriteBatch)
    ensures KeySound(next, h + StepAccepts(op), key)
  {
    var Batch(project, events, source, reply) := op;
    hide KeySound, StatusAt, IngestAll, ValidEvent;
    if next == l && (reply.Err? || reply.value == []) {
      assert h + StepAccepts(op) == h;
    } else {
      var p :| IsDryRun(l, project, events, source, p)
        && if p.newAssignments + |l.rows| > maxRows then reply == Err(CapacityExceeded) && next == l
           else match p.rejected
             case Some((k, status)) => reply == Ok([status])
               && next == RejectBatch(l, project, events, source, status, k)
             case None =>
               && next == IngestAll(l, project, events, source)
               && reply.Ok? && |reply.value| == |events|
               && forall i :: 0 <= i < |events| ==> reply.value[i] == StatusAt(l, project, events, source, i);
      BatchKeySoundBy(l, h, op, next, maxRows, p, key);
    }
  }

  lemma BatchKeySoundBy(l: Ledger, h: seq<Evidence>, op: Operation, next: Ledger, maxRows: nat, p: Preflight,
                        key: TotalsKey)
    requires op.Batch? && KeySound(l, h, key) && IsDryRun(l, op.project, op.events, op.source, p)
    requires if p.newAssignments + |l.rows| > maxRows then op.reply == Err(CapacityExceeded) && next == l
             else match p.rejected
               case Some((k, status)) => op.reply == Ok([status])
                 && next == RejectBatch(l, op.project, op.events, op.source, status, k)
               case None =>
                 && next == IngestAll(l, op.project, op.events, op.source)
                 && op.reply.Ok? && |op.reply.value| == |op.events|
                 && forall i :: 0 <= i < |op.events| ==>
                    op.reply.value[i] == StatusAt(l, op.project, op.events, op.source, i)
    ensures KeySound(next, h + StepAccepts(op), key)
  {
    hide StatusAt, IngestAll, Exposures, GoalValues, OpenRows, TotalsMean;
    if op.reply.Err? {
      assert h + StepAccepts(op) == h;
    } else if p.rejected.Some? {
      RejectEvidence(l, op.project, op.events, op.source, p.rejected.value.1, p.rejected.value.0, key);
      RejectionAcceptsNothing(op);
      KeepsSound(l, h, next, key);
      assert h + [] == h;
    } else {
      assert op.events[..|op.events|] == op.events;
      AcceptedAsAnswered(l, op.project, op.events, op.source, op.reply.value);
      IngestAllKeySound(l, h, op.project, op.events, op.source, key);
    }
  }

  lemma RejectionAcceptsNothing(op: Operation)
    requires op.Batch? && op.reply.Ok? && |op.reply.value| == 1 && op.reply.value[0].Rejects()
    ensures StepAccepts(op) == []
  {
    if |op.events| >= 1 {
      var events := op.events[..1];
      assert AcceptedIn(op.project, events[..0], op.source, op.reply.value[..0]) == [];
      assert AcceptedIn(op.project, events, op.source, op.reply.value) == [];
    }
  }

  lemma KeepsSound(l: Ledger, h: seq<Evidence>, next: Ledger, key: TotalsKey)
    requires KeySound(l, h, key) && next.rows == l.rows && SameEvidence(TotalsAt(l, key), TotalsAt(next, key))
    ensures KeySound(next, h, key)
  {
  }

  lemma StepKeySound(l: Ledger, h: seq<Evidence>, op: Operation, next: Ledger, maxRows: nat, maxWriteBatch: nat,
                     key: TotalsKey)
    requires KeySound(l, h, key) && Step(l, op, next, maxRows, maxWriteBatch)
    ensures KeySound(next, h + StepAccepts(op), key)
  {
    if op.Batch? {
      BatchKeySound(l, h, op, next, maxRows, maxWriteBatch, key);
    } else {
      assert h + StepAccepts(op) == h;
      FewerOpenRows(l.rows, next.rows, key);
    }
  }

  /** Everything accepted in the first n steps of a run. */
  function AcceptedBy(ops: seq<Operation>): seq<Evidence> {
    if ops == [] then [] else AcceptedBy(ops[..|ops| - 1]) + StepAccepts(ops[|ops| - 1])
  }

  /**
   In every reachable ledger, after any expiry and pruning, each totals row counts and sums exactly the rows that
   were ever accepted under its key, and has no more goals than exposures.
   */
  lemma {:induction false} TotalsMeanHistory(states: seq<Ledger>, ops: seq<Operation>, maxRows: nat,
                                             maxWriteBatch: nat, k: nat, key: TotalsKey)
    requires IsRun(states, ops, maxRows, maxWriteBatch) && k <= |ops|
    ensures KeySound(states[k], AcceptedBy(ops[..k]), key)
    ensures TotalsMean(TotalsAt(states[k], key), AcceptedBy(ops[..k]), key)
    ensures TotalsAt(states[k], key).goals <= TotalsAt(states[k], key).exposures
  {
    if k == 0 {
      assert OpenRows(map[], key) == {};
    } else {
      hide Step;
      TotalsMeanHistory(states, ops, maxRows, maxWriteBatch, k - 1, key);
      StepKeySound(states[k - 1], AcceptedBy(ops[..k - 1]), ops[k - 1], states[k], maxRows, maxWriteBatch, key);
      assert ops[..k][..k - 1] == ops[..k - 1] && ops[..k][k - 1] == ops[k - 1];
    }
  }

  // The row limit

  lemma {:induction false} IngestAllRows(l: Ledger, project: string, events: seq<Event>, source: Source, n: nat)
    requires n <= |events|
    ensures |IngestAll(l, project, events[..n], source).rows| == |l.rows| + AcceptedCount(l, project, events, source, n)
  {
    if n > 0 {
      IngestAllRows(l, project, events, source, n - 1);
      assert events[..n][..n - 1] == events[..n - 1];
      IngestRows(IngestAll(l, project, events[..n - 1], source), project, events[n - 1], source);
    }
  }

  lemma IngestRows(l: Ledger, project: string, e: Event, source: Source)
    ensures |Ingest(l, project, e, source).rows| ==
      |l.rows| + if StatusOf(l, project, e, source).AcceptedExposure? then 1 else 0
    ensures l.rows.Keys <= Ingest(l, project, e, source).rows.Keys
  {
    var row := EventRow(project, e);
    if StatusOf(l, project, e, source).AcceptedExposure? {
      assert Ingest(l, project, e, source).rows.Keys == l.rows.Keys + {row};
    } else {
      assert Ingest(l, project, e, source).rows.Keys == l.rows.Keys;
    }
  }

  lemma StepRows(l: Ledger, op: Operation, next: Ledger, maxRows: nat, maxWriteBatch: nat)
    requires Step(l, op, next, maxRows, maxWriteBatch) && |l.rows| <= maxRows
    ensures |next.rows| <= maxRows
  {
    if op.Batch? {
      if next.rows != l.rows {
        assert op.events[..|op.events|] == op.events;
        IngestAllRows(l, op.project, op.events, op.source, |op.events|);
        RejectKeepsRows(l, op.project, op.events, op.source);
        hide IngestAll, StatusAt, AcceptedCount, ValidEvent, RejectBatch;
      }
    } else {
      assert next.rows.Keys <= l.rows.Keys;
      Sequences.SubsetSize(next.rows.Keys, l.rows.Keys);
    }
  }

  lemma RejectKeepsRows(l: Ledger, project: string, events: seq<Event>, source: Source)
    ensures forall status, k: nat :: k < |events| ==> RejectBatch(l, project, events, source, status, k).rows == l.rows
  {
    UntrustedEvidence(l, project, events, source, TotalsKey("", "", "", source));
  }

  /** The ledger never holds more rows than its limit. */
  lemma {:induction false} RowsBounded(states: seq<Ledger>, ops: seq<Operation>, maxRows: nat, maxWriteBatch: nat,
                                       k: nat)
    requires IsRun(states, ops, maxRows, maxWriteBatch) && k <= |ops|
    ensures |states[k].rows| <= maxRows
  {
    if k > 0 {
      hide Step;
      RowsBounded(states, ops, maxRows, maxWriteBatch, k - 1);
      StepRows(states[k - 1], ops[k - 1], states[k], maxRows, maxWriteBatch);
    }
  }

  // The terminal decision

  lemma {:induction false} TerminalIngest(l: Ledger, project: string, events: seq<Event>, source: Source,
                                          key: TotalsKey)
    requires IsTerminal(l, key.project, key.experiment)
    ensures var after := IngestAll(l, project, events, source);
      after.terminal == l.terminal && SameEvidence(TotalsAt(l, key), TotalsAt(after, key))
    decreases |events|
  {
    if events != [] {
      TerminalIngest(l, project, events[..|events| - 1], source, key);
    }
  }

  lemma StepFrozen(l: Ledger, op: Operation, next: Ledger, maxRows: nat, maxWriteBatch: nat, key: TotalsKey)
    requires Step(l, op, next, maxRows, maxWriteBatch) && IsTerminal(l, key.project, key.experiment)
    ensures var x := ExperimentKey(key.project, key.experiment);
      x in next.terminal && next.terminal[x] == l.terminal[x] && SameEvidence(TotalsAt(l, key), TotalsAt(next, key))
  {
    if op.Batch? {
      TerminalIngest(l, op.project, op.events, op.source, key);
      forall status: Status, k: nat | k < |op.events|
        ensures var after := RejectBatch(l, op.project, op.events, op.source, status, k);
          after.terminal == l.terminal && SameEvidence(TotalsAt(l, key), TotalsAt(after, key)) {
        RejectEvidence(l, op.project, op.events, op.source, status, k, key);
      }
      hide IngestAll, StatusAt, ValidEvent, RejectBatch;
    }
  }

  /** The first terminal decision of an experiment stays for ever, and freezes the evidence it was taken on. */
  lemma {:induction false} DecisionIsFinal(states: seq<Ledger>, ops: seq<Operation>, maxRows: nat, maxWriteBatch: nat,
                                           j: nat, k: nat, key: TotalsKey)
    requires IsRun(states, ops, maxRows, maxWriteBatch) && j <= k <= |ops|
    requires IsTerminal(states[j], key.project, key.experiment)
    ensures var x := ExperimentKey(key.project, key.experiment);
      x in states[k].terminal && states[k].terminal[x] == states[j].terminal[x]
    ensures SameEvidence(TotalsAt(states[j], key), TotalsAt(states[k], key))
    decreases k
  {
    if j < k {
      hide Step;
      DecisionIsFinal(states, ops, maxRows, maxWriteBatch, j, k - 1, key);
      StepFrozen(states[k - 1], ops[k - 1], states[k], maxRows, maxWriteBatch, key);
    }
  }
}
