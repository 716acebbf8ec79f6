/**
 The evidence ledger of experiments: one row per (project, experiment, assignment), running totals per variant
 and source, and one terminal decision per experiment. The three SQL tables are maps; a statement that updates
 or deletes many rows is one step.
 */
module ExperimentLedger {
  import opened Wrappers

  datatype Source = Source(role: string, trusted: bool)

  datatype Event =
    | Exposure(experiment: string, variant: string, hash: string)
    | Goal(experiment: string, variant: string, hash: string, value: real)

  datatype RowKey = RowKey(project: string, experiment: string, hash: string)

  /** An assignment row: its exposure, the value of its accepted goal, and when it expires (0 for never). */
  datatype Row = Row(variant: string, source: Source, goal: Option<real>, expiresAt: nat)

  datatype TotalsKey = TotalsKey(project: string, experiment: string, variant: string, source: Source)

  datatype Totals = Totals(
    exposures: nat, goals: nat, goalSum: real, goalSumSq: real,
    duplicateExposures: nat, duplicateGoals: nat, conflictingGoals: nat, variantConflicts: nat,
    untrustedRows: nat, lateRows: nat, missingExposures: nat, implicitExposures: nat)

  const EMPTY_TOTALS := Totals(0, 0, 0.0, 0.0, 0, 0, 0, 0, 0, 0, 0, 0)

  datatype ExperimentKey = ExperimentKey(project: string, experiment: string)

  datatype DecisionStatus = Winner | NoDifference | Inconclusive | Invalid | NotTerminal

  datatype Decision = Decision(status: DecisionStatus, method_: string, analysisAt: int)

  datatype Ledger = Ledger(rows: map<RowKey, Row>, totals: map<TotalsKey, Totals>,
                           terminal: map<ExperimentKey, Decision>)

  datatype Status =
    | AcceptedExposure | DuplicateExposure
    | AcceptedGoal | DuplicateGoal | ConflictingGoal
    | LateRow | VariantConflict | MissingExposure
  {
    predicate Rejects() { VariantConflict? || MissingExposure? }
  }

  datatype LedgerError = InvalidEvent | BatchTooLong | CapacityExceeded | InvalidDecision | InvalidTime

  predicate HexDigit(c: char) { '0' <= c <= '9' || 'a' <= c <= 'f' }

  predicate ValidEvent(e: Event) {
    e.experiment != "" && e.variant != "" && |e.hash| == 16 && forall i :: 0 <= i < 16 ==> HexDigit(e.hash[i])
  }

  // What one event does

  function TotalsAt(l: Ledger, key: TotalsKey): Totals {
    if key in l.totals then l.totals[key] else EMPTY_TOTALS
  }

  function EventTotals(project: string, e: Event, source: Source): TotalsKey {
    TotalsKey(project, e.experiment, e.variant, source)
  }

  function UntrustedCounted(t: Totals, source: Source): Totals {
    if source.trusted then t else t.(untrustedRows := t.untrustedRows + 1)
  }

  /** How a status moves the totals of the event's variant and source. */
  function Counted(t: Totals, status: Status, e: Event, source: Source): Totals {
    UntrustedCounted(
      match status
      case AcceptedExposure => t.(exposures := t.exposures + 1)
      case DuplicateExposure => t.(duplicateExposures := t.duplicateExposures + 1)
      case AcceptedGoal =>
        if !e.Goal? then t
        else t.(goals := t.goals + 1, goalSum := t.goalSum + e.value, goalSumSq := t.goalSumSq + e.value * e.value)
      case DuplicateGoal => t.(duplicateGoals := t.duplicateGoals + 1)
      case ConflictingGoal => t.(conflictingGoals := t.conflictingGoals + 1)
      case LateRow => t.(lateRows := t.lateRows + 1)
      case VariantConflict => t.(variantConflicts := t.variantConflicts + 1)
      case MissingExposure => t.(missingExposures := t.missingExposures + 1),
      source)
  }

  function EventRow(project: string, e: Event): RowKey { RowKey(project, e.experiment, e.hash) }

  predicate IsTerminal(l: Ledger, project: string, experiment: string)
  {
    ExperimentKey(project, experiment) in l.terminal
  }

  function StatusOf(l: Ledger, project: string, e: Event, source: Source): Status {
    var key := EventRow(project, e);
    if IsTerminal(l, project, e.experiment) || (key in l.rows && l.rows[key].expiresAt > 0) then LateRow
    else if key in l.rows && l.rows[key].variant != e.variant then VariantConflict
    else if e.Exposure? then (if key in l.rows then DuplicateExposure else AcceptedExposure)
    else if key !in l.rows || l.rows[key].source != source then MissingExposure
    else match l.rows[key].goal
      case None => AcceptedGoal
      case Some(value) => if value == e.value then DuplicateGoal else ConflictingGoal
  }

  function RowsAfter(l: Ledger, project: string, e: Event, source: Source): map<RowKey, Row> {
    var key := EventRow(project, e);
    match StatusOf(l, project, e, source)
    case AcceptedExposure => l.rows[key := Row(e.variant, source, None, 0)]
    case AcceptedGoal => if key in l.rows && e.Goal? then l.rows[key := l.rows[key].(goal := Some(e.value))] else l.rows
    case _ => l.rows
  }

  function Ingest(l: Ledger, project: string, e: Event, source: Source): Ledger {
    var key := EventTotals(project, e, source);
    l.(rows := RowsAfter(l, project, e, source),
       totals := l.totals[key := Counted(TotalsAt(l, key), StatusOf(l, project, e, source), e, source)])
  }

  /** The ledger after a list of events. */
  function IngestAll(l: Ledger, project: string, events: seq<Event>, source: Source): Ledger
    decreases |events|
  {
    if events == [] then l
    else Ingest(IngestAll(l, project, events[..|events| - 1], source), project, events[|events| - 1], source)
  }

  /** What event i of the list is answered when the ones before it have been ingested. */
  function StatusAt(l: Ledger, project: string, events: seq<Event>, source: Source, i: nat): Status
    requires i < |events|
  {
    StatusOf(IngestAll(l, project, events[..i], source), project, events[i], source)
  }

  function AcceptedCount(l: Ledger, project: string, events: seq<Event>, source: Source, n: nat): nat
    requires n <= |events|
  {
    if n == 0 then 0
    else
      var accepted := StatusAt(l, project, events, source, n - 1).AcceptedExposure?;
      AcceptedCount(l, project, events, source, n - 1) + if accepted then 1 else 0
  }

  // What a batch does

  function UntrustedBatch(l: Ledger, project: string, events: seq<Event>, source: Source): Ledger
    decreases |events|
  {
    if events == [] then l
    else
      var before := UntrustedBatch(l, project, events[..|events| - 1], source);
      var key := EventTotals(project, events[|events| - 1], source);
      var t := TotalsAt(before, key);
      before.(totals := before.totals[key := t.(untrustedRows := t.untrustedRows + 1)])
  }

  /** A rejected batch leaves a trace in the totals only. */
  function RejectBatch(l: Ledger, project: string, events: seq<Event>, source: Source, status: Status, k: nat): Ledger
    requires k < |events|
  {
    var marked := if source.trusted then l else UntrustedBatch(l, project, events, source);
    var key := EventTotals(project, events[k], source);
    var t := TotalsAt(marked, key);
    marked.(totals := marked.totals[key :=
      if status.VariantConflict? then t.(variantConflicts := t.variantConflicts + 1)
        else t.(missingExposures := t.missingExposures + 1)])
  }

  /** What the pre-check found: how many rows the batch would add, and the event that spoils it. */
  datatype Preflight = Preflight(newAssignments: nat, rejected: Option<(nat, Status)>)

  /** The pre-check is an exact dry run of ingesting the events one after the other. */
  ghost predicate IsDryRun(l: Ledger, project: string, events: seq<Event>, source: Source, p: Preflight) {
    var n := if p.rejected.Some? then p.rejected.value.0 else |events|;
    && n <= |events|
    && (forall i :: 0 <= i < n ==> !StatusAt(l, project, events, source, i).Rejects())
    && p.newAssignments == AcceptedCount(l, project, events, source, n)
    && (p.rejected.Some? ==>
        n < |events| && p.rejected.value.1 == StatusAt(l, project, events, source, n) && p.rejected.value.1.Rejects())
  }

  /** What the pre-check remembers of an assignment it has met. */
  datatype Seen = Closed | Open(variant: string, source: Source, goal: Option<real>)

  datatype Verdict = Reject(status: Status) | Keep(next: Seen, added: bool)

  /** How the pre-check goes on with an event, given what it knows of the assignment. */
  function Conclude(terminal: bool, current: Option<Seen>, e: Event, source: Source): Verdict {
    if terminal || current == Some(Closed) then Keep(Closed, false)
    else if current.Some? && current.value.variant != e.variant then Reject(VariantConflict)
    else if e.Exposure? then
      if current.None? then Keep(Open(e.variant, source, None), true) else Keep(current.value, false)
    else if current.None? || current.value.source != source then Reject(MissingExposure)
    else Keep(if current.value.goal.None? then current.value.(goal := Some(e.value)) else current.value, false)
  }

  class EvidenceLedger {
    const maxRows: nat
    const maxWriteBatch: nat
    var rows: map<RowKey, Row>
    var totals: map<TotalsKey, Totals>
    var terminal: map<ExperimentKey, Decision>

    ghost function State(): Ledger
      reads this
    {
      Ledger(rows, totals, terminal)
    }

    constructor (maxRows: nat, maxWriteBatch: nat)
      ensures State() == Ledger(map[], map[], map[]) && this.maxRows == maxRows && this.maxWriteBatch == maxWriteBatch
    {
      this.maxRows, this.maxWriteBatch := maxRows, maxWriteBatch;
      rows, totals, terminal := map[], map[], map[];
    }

    method CheckBatch(project: string, events: seq<Event>, source: Source) returns (p: Preflight)
      ensures IsDryRun(State(), project, events, source, p)
    {
      ghost var start := State();
      var seen: map<(string, string), Seen> := map[];
      var newAssignments := 0;
      var i := 0;
      CheckStart(start, project, events, source);
      hide Checking, IsDryRun, StatusAt, AcceptedCount, Clean, IngestAll, SeenSound, Recall, Conclude;
      while i < |events|
        invariant i <= |events| && Checking(start, project, events, source, i, seen, newAssignments)
      {
        var e := events[i];
        CheckStep(start, project, events, source, i, seen, newAssignments);
        match Conclude(ExperimentKey(project, e.experiment) in terminal, Recall(rows, project, e, seen), e, source) {
          case Reject(status) =>
            return Preflight(newAssignments, Some((i, status)));
          case Keep(next, added) =>
            seen := seen[(e.experiment, e.hash) := next];
            newAssignments := newAssignments + if added then 1 else 0;
        }
        i := i + 1;
      }
      CheckEnd(start, project, events, source, seen, newAssignments);
      return Preflight(newAssignments, None);
    }

    /** _updateTotals with the change that a status makes. */
    method UpdateTotals(project: string, e: Event, source: Source, status: Status)
      modifies this`totals
      ensures var key := EventTotals(project, e, source);
        totals == old(totals)[key := Counted(TotalsAt(old(State()), key), status, e, source)]
    {
      var key := EventTotals(project, e, source);
      var t := if key in totals then totals[key] else EMPTY_TOTALS;
      ghost var was := t;
      match status {
        case AcceptedExposure => t := t.(exposures := t.exposures + 1);
        case DuplicateExposure => t := t.(duplicateExposures := t.duplicateExposures + 1);
        case AcceptedGoal =>
          if e.Goal? {
            t := t.(goals := t.goals + 1, goalSum := t.goalSum + e.value, goalSumSq := t.goalSumSq + e.value * e.value);
          }
        case DuplicateGoal => t := t.(duplicateGoals := t.duplicateGoals + 1);
        case ConflictingGoal => t := t.(conflictingGoals := t.conflictingGoals + 1);
        case LateRow => t := t.(lateRows := t.lateRows + 1);
        case VariantConflict => t := t.(variantConflicts := t.variantConflicts + 1);
        case MissingExposure => t := t.(missingExposures := t.missingExposures + 1);
      }
      if !source.trusted { t := t.(untrustedRows := t.untrustedRows + 1); }
      assert t == Counted(was, status, e, source);
      totals := totals[key := t];
    }

    method IngestEvent(project: string, e: Event, source: Source) returns (status: Status)
      modifies this
      ensures State() == Ingest(old(State()), project, e, source)
      ensures status == StatusOf(old(State()), project, e, source)
    {
      hide Counted;
      var row := EventRow(project, e);
      if ExperimentKey(project, e.experiment) in terminal || (row in rows && rows[row].expiresAt > 0) {
        UpdateTotals(project, e, source, LateRow);
        return LateRow;
      }
      if row in rows && rows[row].variant != e.variant {
        UpdateTotals(project, e, source, VariantConflict);
        return VariantConflict;
      }
      if e.Exposure? {
        if row in rows {
          UpdateTotals(project, e, source, DuplicateExposure);
          return DuplicateExposure;
        }
        rows := rows[row := Row(e.variant, source, None, 0)];
        UpdateTotals(project, e, source, AcceptedExposure);
        return AcceptedExposure;
      }
      if row !in rows || rows[row].source != source {
        UpdateTotals(project, e, source, MissingExposure);
        return MissingExposure;
      }
      if rows[row].goal.Some? {
        status := if rows[row].goal.value != e.value then ConflictingGoal else DuplicateGoal;
        UpdateTotals(project, e, source, status);
        return status;
      }
      rows := rows[row := rows[row].(goal := Some(e.value))];
      UpdateTotals(project, e, source, AcceptedGoal);
      return AcceptedGoal;
    }

    /**
     Ingests a batch. An invalid batch and one that could exceed the row limit change nothing; a batch that the
     dry run rejects changes no row; any other batch is ingested event by event without a rejection.
     */
    method IngestBatch(project: string, events: seq<Event>, source: Source)
      returns (r: Result<seq<Status>, LedgerError>)
      modifies this
      ensures BatchOutcome(old(State()), State(), project, events, source, maxRows, maxWriteBatch, r)
    {
      if |events| > maxWriteBatch { return Err(BatchTooLong); }
      for i := 0 to |events|
        invariant forall j :: 0 <= j < i ==> ValidEvent(events[j])
      {
        if !ValidEvent(events[i]) { return Err(InvalidEvent); }
      }
      if events == [] { return Ok([]); }
      ghost var start := State();
      var check := CheckBatch(project, events, source);
      assert check.rejected.Some? ==> check.rejected.value.0 < |events|;
      hide IsDryRun, StatusAt, IngestAll, RejectBatch, ValidEvent;
      if check.newAssignments + |rows| > maxRows { return Err(CapacityExceeded); }
      if check.rejected.Some? {
        WriteRejection(project, events, source, check.rejected.value.1, check.rejected.value.0);
        return Ok([check.rejected.value.1]);
      }
      var statuses := IngestEvents(project, events, source);
      return Ok(statuses);
    }

    method WriteRejection(project: string, events: seq<Event>, source: Source, status: Status, k: nat)
      requires k < |events|
      modifies this
      ensures State() == RejectBatch(old(State()), project, events, source, status, k)
    {
      if !source.trusted {
        MarkUntrusted(project, events, source);
      }
      var key := EventTotals(project, events[k], source);
      var t := if key in totals then totals[key] else EMPTY_TOTALS;
      totals := totals[key :=
        if status.VariantConflict? then t.(variantConflicts := t.variantConflicts + 1)
          else t.(missingExposures := t.missingExposures + 1)];
    }

    method MarkUntrusted(project: string, events: seq<Event>, source: Source)
      modifies this
      ensures State() == UntrustedBatch(old(State()), project, events, source)
    {
      assert events[..0] == [];
      for i := 0 to |events|
        invariant State() == UntrustedBatch(old(State()), project, events[..i], source)
      {
        assert events[..i + 1][..i] == events[..i];
        var key := EventTotals(project, events[i], source);
        var t := if key in totals then totals[key] else EMPTY_TOTALS;
        totals := totals[key := t.(untrustedRows := t.untrustedRows + 1)];
      }
      assert events[..|events|] == events;
    }

    method IngestEvents(project: string, events: seq<Event>, source: Source) returns (statuses: seq<Status>)
      modifies this
      ensures State() == IngestAll(old(State()), project, events, source)
      ensures |statuses| == |events|
      ensures forall i :: 0 <= i < |events| ==> statuses[i] == StatusAt(old(State()), project, events, source, i)
    {
      statuses := [];
      ghost var start := State();
      assert events[..0] == [];
      for i := 0 to |events|
        invariant State() == IngestAll(start, project, events[..i], source)
        invariant |statuses| == i
        invariant forall j :: 0 <= j < i ==> statuses[j] == StatusAt(start, project, events, source, j)
      {
        assert events[..i + 1][..i] == events[..i];
        var status := IngestEvent(project, events[i], source);
        statuses := statuses + [status];
      }
      assert events[..|events|] == events;
    }

    /** UPDATE ... SET expires_at WHERE expires_at = 0 */
    method ScheduleExpiry(project: string, experiment: string, expiresAt: nat) returns (ok: bool)
      modifies this
      ensures ok <==> expiresAt >= 1
      ensures State() == if ok then Scheduled(old(State()), project, experiment, expiresAt) else old(State())
    {
      ok := expiresAt >= 1;
      if ok {
        rows := map k | k in rows ::
          if InExperiment(k, project, experiment) && rows[k].expiresAt == 0 then rows[k].(expiresAt := expiresAt)
            else rows[k];
      }
    }

    method ClearExpiry(project: string, experiment: string)
      modifies this
      ensures State() == Cleared(old(State()), project, experiment)
    {
      rows := map k | k in rows :: if InExperiment(k, project, experiment) then rows[k].(expiresAt := 0) else rows[k];
    }

    method PruneExpired(now: nat)
      modifies this
      ensures State() == Pruned(old(State()), now)
    {
      rows := map k | k in rows && !(0 < rows[k].expiresAt <= now) :: rows[k];
    }

    /** The first terminal decision wins; a later one is answered with it. */
    method PersistTerminalDecision(project: string, experiment: string, decision: Decision)
      returns (r: Result<Decision, LedgerError>)
      modifies this
      ensures State() == Persisted(old(State()), project, experiment, decision)
      ensures r == (if ExperimentKey(project, experiment) in terminal
                    then Ok(terminal[ExperimentKey(project, experiment)]) else Err(InvalidDecision))
    {
      var key := ExperimentKey(project, experiment);
      if key in terminal { return Ok(terminal[key]); }
      if !ValidDecision(decision) { return Err(InvalidDecision); }
      terminal := terminal[key := decision];
      return Ok(decision);
    }
  }

  predicate InExperiment(k: RowKey, project: string, experiment: string)
  {
    k.project == project && k.experiment == experiment
  }

  function Scheduled(l: Ledger, project: string, experiment: string, expiresAt: nat): Ledger {
    l.(rows := map k | k in l.rows ::
      if InExperiment(k, project, experiment) && l.rows[k].expiresAt == 0 then l.rows[k].(expiresAt := expiresAt)
        else l.rows[k])
  }

  function Cleared(l: Ledger, project: string, experiment: string): Ledger {
    l.(rows := map k | k in l.rows :: if InExperiment(k, project, experiment) then l.rows[k].(expiresAt := 0)
      else l.rows[k])
  }

  function Pruned(l: Ledger, now: nat): Ledger {
    l.(rows := map k | k in l.rows && !(0 < l.rows[k].expiresAt <= now) :: l.rows[k])
  }

  predicate ValidDecision(d: Decision) { !d.status.NotTerminal? && d.method_ != "" && d.analysisAt >= 0 }

  function Persisted(l: Ledger, project: string, experiment: string, decision: Decision): Ledger {
    var key := ExperimentKey(project, experiment);
    if key in l.terminal || !ValidDecision(decision) then l else l.(terminal := l.terminal[key := decision])
  }

  ghost predicate BatchOutcome(start: Ledger, end: Ledger, project: string, events: seq<Event>, source: Source,
                               maxRows: nat, maxWriteBatch: nat, r: Result<seq<Status>, LedgerError>)
  {
    if |events| > maxWriteBatch then r == Err(BatchTooLong) && end == start
    else if exists i :: 0 <= i < |events| && !ValidEvent(events[i]) then r == Err(InvalidEvent) && end == start
    else if events == [] then r == Ok([]) && end == start
    else exists p ::
      && IsDryRun(start, project, events, source, p)
      && if p.newAssignments + |start.rows| > maxRows then r == Err(CapacityExceeded) && end == start
         else match p.rejected
           case Some((k, status)) => r == Ok([status]) && end == RejectBatch(start, project, events, source, status, k)
           case None =>
             && end == IngestAll(start, project, events, source)
             && r.Ok? && |r.value| == |events|
             && forall i :: 0 <= i < |events| ==> r.value[i] == StatusAt(start, project, events, source, i)
  }

  /** The assignment as the pre-check knows it: from its memory, else from the stored row. */
  function Recall(rows: map<RowKey, Row>, project: string, e: Event, seen: map<(string, string), Seen>): Option<Seen> {
    var key, row := (e.experiment, e.hash), EventRow(project, e);
    if key in seen then Some(seen[key])
    else if row in rows then Some(if rows[row].expiresAt > 0 then Closed
      else Open(rows[row].variant, rows[row].source, rows[row].goal))
    else None
  }

  /** None of the first n events is rejected. */
  predicate Clean(l: Ledger, project: string, events: seq<Event>, source: Source, n: nat)
    requires n <= |events|
  {
    n == 0 || (Clean(l, project, events, source, n - 1) && !StatusAt(l, project, events, source, n - 1).Rejects())
  }

  lemma {:induction false} CleanMeans(l: Ledger, project: string, events: seq<Event>, source: Source, n: nat)
    requires n <= |events| && Clean(l, project, events, source, n)
    ensures forall i :: 0 <= i < n ==> !StatusAt(l, project, events, source, i).Rejects()
  {
    if n > 0 {
      CleanMeans(l, project, events, source, n - 1);
    }
  }

  /** The memory agrees with the ledger as the events so far would have left it. */
  ghost predicate SeenSound(start: Ledger, now: Ledger, project: string, seen: map<(string, string), Seen>) {
    && now.terminal == start.terminal
    && (forall key: (string, string) :: key in seen ==> SeenRow(now, project, key, seen[key]))
    && (forall row: RowKey :: row.project != project || (row.experiment, row.hash) !in seen ==>
        (row in now.rows <==> row in start.rows) && (row in start.rows ==> now.rows[row] == start.rows[row]))
  }

  ghost predicate SeenRow(now: Ledger, project: string, key: (string, string), s: Seen) {
    var row := RowKey(project, key.0, key.1);
    match s
    case Closed => IsTerminal(now, project, key.0) || (row in now.rows && now.rows[row].expiresAt > 0)
    case Open(variant, source, goal) => row in now.rows && now.rows[row] == Row(variant, source, goal, 0)
  }

  /** What the pre-check concludes from its memory is what ingesting the event now would answer. */
  lemma RecallSound(start: Ledger, now: Ledger, project: string, e: Event, source: Source,
                    seen: map<(string, string), Seen>)
    requires SeenSound(start, now, project, seen)
    ensures var status := StatusOf(now, project, e, source);
      match Conclude(IsTerminal(start, project, e.experiment), Recall(start.rows, project, e, seen), e, source)
      case Reject(s) => status == s && status.Rejects()
      case Keep(next, added) =>
        && !status.Rejects() && (status.AcceptedExposure? <==> added)
        && SeenRow(Ingest(now, project, e, source), project, (e.experiment, e.hash), next)
  {
    var row := EventRow(project, e);
    assert (row.experiment, row.hash) == (e.experiment, e.hash);
    if (e.experiment, e.hash) in seen {
      assert SeenRow(now, project, (e.experiment, e.hash), seen[(e.experiment, e.hash)]);
    }
  }

  lemma Remember(start: Ledger, now: Ledger, project: string, e: Event, source: Source,
                 seen: map<(string, string), Seen>, next: Seen)
    requires SeenSound(start, now, project, seen)
    requires SeenRow(Ingest(now, project, e, source), project, (e.experiment, e.hash), next)
    ensures SeenSound(start, Ingest(now, project, e, source), project, seen[(e.experiment, e.hash) := next])
  {
    var after, seen' := Ingest(now, project, e, source), seen[(e.experiment, e.hash) := next];
    forall key: (string, string) | key in seen' ensures SeenRow(after, project, key, seen'[key]) {
      if key != (e.experiment, e.hash) {
        assert SeenRow(now, project, key, seen[key]);
      }
    }
  }

  /** The pre-check has passed the first i events: none is rejected, and it has counted and remembers them. */
  ghost predicate Checking(start: Ledger, project: string, events: seq<Event>, source: Source, i: nat,
                           seen: map<(string, string), Seen>, newAssignments: nat)
    requires i <= |events|
  {
    && Clean(start, project, events, source, i)
    && newAssignments == AcceptedCount(start, project, events, source, i)
    && SeenSound(start, IngestAll(start, project, events[..i], source), project, seen)
  }

  lemma CheckStart(start: Ledger, project: string, events: seq<Event>, source: Source)
    ensures Checking(start, project, events, source, 0, map[], 0)
  {
    assert events[..0] == [];
    assert IngestAll(start, project, [], source) == start;
  }

  lemma CheckEnd(start: Ledger, project: string, events: seq<Event>, source: Source,
                 seen: map<(string, string), Seen>, newAssignments: nat)
    requires Checking(start, project, events, source, |events|, seen, newAssignments)
    ensures IsDryRun(start, project, events, source, Preflight(newAssignments, None))
  {
    CleanMeans(start, project, events, source, |events|);
    hide SeenSound, StatusAt, Clean, IngestAll, AcceptedCount;
  }

  lemma CheckRejects(start: Ledger, project: string, events: seq<Event>, source: Source, i: nat,
                     seen: map<(string, string), Seen>, newAssignments: nat)
    requires i < |events| && Checking(start, project, events, source, i, seen, newAssignments)
    requires StatusAt(start, project, events, source, i).Rejects()
    ensures IsDryRun(start, project, events, source,
                     Preflight(newAssignments, Some((i, StatusAt(start, project, events, source, i)))))
  {
    CleanMeans(start, project, events, source, i);
    hide SeenSound, StatusAt, Clean, IngestAll, AcceptedCount;
  }

  lemma CheckKeeps(start: Ledger, project: string, events: seq<Event>, source: Source, i: nat,
                   seen: map<(string, string), Seen>, newAssignments: nat, next: Seen)
    requires i < |events| && Checking(start, project, events, source, i, seen, newAssignments)
    requires !StatusAt(start, project, events, source, i).Rejects()
    requires var e, now := events[i], IngestAll(start, project, events[..i], source);
      SeenRow(Ingest(now, project, e, source), project, (e.experiment, e.hash), next)
    ensures var e, status := events[i], StatusAt(start, project, events, source, i);
      Checking(start, project, events, source, i + 1, seen[(e.experiment, e.hash) := next],
               newAssignments + if status.AcceptedExposure? then 1 else 0)
  {
    var e, now := events[i], IngestAll(start, project, events[..i], source);
    assert events[..i + 1][..i] == events[..i];
    assert IngestAll(start, project, events[..i + 1], source) == Ingest(now, project, e, source);
    hide StatusAt, IngestAll, Ingest, SeenSound, SeenRow;
    Remember(start, now, project, e, source, seen, next);
  }

  /** One round of the pre-check. */
  lemma CheckStep(start: Ledger, project: string, events: seq<Event>, source: Source, i: nat,
                  seen: map<(string, string), Seen>, newAssignments: nat)
    requires i < |events| && Checking(start, project, events, source, i, seen, newAssignments)
    ensures var e := events[i];
      match Conclude(IsTerminal(start, project, e.experiment), Recall(start.rows, project, e, seen), e, source)
      case Reject(s) => IsDryRun(start, project, events, source, Preflight(newAssignments, Some((i, s))))
      case Keep(next, added) =>
        Checking(start, project, events, source, i + 1, seen[(e.experiment, e.hash) := next],
                 newAssignments + if added then 1 else 0)
  {
    var e, now := events[i], IngestAll(start, project, events[..i], source);
    RecallSound(start, now, project, e, source, seen);
    assert StatusAt(start, project, events, source, i) == StatusOf(now, project, e, source);
    hide StatusAt, StatusOf, IngestAll, Ingest, SeenSound, Recall, SeenRow, Checking, IsDryRun;
    var verdict := Conclude(IsTerminal(start, project, e.experiment), Recall(start.rows, project, e, seen), e, source);
    hide Conclude;
    match verdict
    case Reject(_) => CheckRejects(start, project, events, source, i, seen, newAssignments);
    case Keep(next, _) => CheckKeeps(start, project, events, source, i, seen, newAssignments, next);
  }
}
