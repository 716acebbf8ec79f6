/**
 What the answers of the evidence ledger mean. An assignment stands from the exposure it was accepted with until
 it is pruned, and an event is answered by comparing it with that exposure and with the first goal accepted since:
 all this is said of the operations of a run and of the answers their callers were given, not of the ledger.
 */
module LedgerAnswers {
  import opened Wrappers
  import opened ExperimentLedger
  import opened EvidenceHistory

  // What has happened

  /** An event that was ingested with its answer, or an operation other than a batch. */
  datatype Item =
    | Ingested(project: string, event: Event, source: Source, status: Status)
    | Upkeep(op: Operation)

  type History = seq<Item>

  /** A batch whose events were ingested: each of them got an answer, and none was rejected. */
  predicate Taken(op: Operation) {
    && op.Batch? && op.reply.Ok? && |op.reply.value| == |op.events|
    && forall i :: 0 <= i < |op.reply.value| ==> !op.reply.value[i].Rejects()
  }

  /** The first n events with their answers. */
  function Items(project: string, events: seq<Event>, source: Source, statuses: seq<Status>, n: nat): History
    requires n <= |events| && n <= |statuses|
  {
    seq(n, i requires 0 <= i < n => Ingested(project, events[i], source, statuses[i]))
  }

  function ItemsOf(op: Operation): History {
    if !op.Batch? then [Upkeep(op)]
    else if Taken(op) then Items(op.project, op.events, op.source, op.reply.value, |op.events|)
    else []
  }

  function HistoryOf(ops: seq<Operation>): History {
    if ops == [] then [] else HistoryOf(ops[..|ops| - 1]) + ItemsOf(ops[|ops| - 1])
  }

  // What it amounts to for one assignment

  predicate IsOf(x: Item, key: RowKey) { x.Ingested? && EventRow(x.project, x.event) == key }

  predicate Exposes(x: Item, key: RowKey) { IsOf(x, key) && x.status.AcceptedExposure? }

  predicate Attains(x: Item, key: RowKey) { IsOf(x, key) && x.status.AcceptedGoal? && x.event.Goal? }

  predicate Decides(x: Item, project: string, experiment: string) {
    && x.Upkeep? && x.op.Decide? && x.op.project == project && x.op.experiment == experiment
    && ValidDecision(x.op.decision)
  }

  ghost predicate IsDecided(h: History, project: string, experiment: string) {
    exists i :: 0 <= i < |h| && Decides(h[i], project, experiment)
  }

  /** How an operation moves the time at which an assignment expires, with 0 for never. */
  function ExpiryNext(at: nat, x: Item, key: RowKey): nat {
    if x.Upkeep? && x.op.Schedule? && InExperiment(key, x.op.project, x.op.experiment) && at == 0 then x.op.expiresAt
    else if x.Upkeep? && x.op.Clear? && InExperiment(key, x.op.project, x.op.experiment) then 0
    else at
  }

  /** When the assignment that was exposed by item j expires. */
  function ExpiryOf(h: History, key: RowKey, j: nat): nat {
    if |h| <= j + 1 then 0 else ExpiryNext(ExpiryOf(h[..|h| - 1], key, j), h[|h| - 1], key)
  }

  predicate Prunes(x: Item, at: nat) { x.Upkeep? && x.op.Prune? && 0 < at <= x.op.now }

  /** Item j is the accepted exposure of the assignment, and the assignment has not been pruned since. */
  ghost predicate Stands(h: History, key: RowKey, j: nat) {
    && j < |h| && Exposes(h[j], key)
    && forall i :: j < i < |h| ==> !Prunes(h[i], ExpiryOf(h[..i], key, j))
  }

  /** Item g is a goal that was accepted for the assignment exposed by item j. */
  ghost predicate Reached(h: History, key: RowKey, j: nat, g: nat) { j < g < |h| && Attains(h[g], key) }

  // The right answer

  /** The answer to an event of an assignment that stands, is not expiring and belongs to no decided experiment. */
  ghost predicate RightWhileOpen(h: History, key: RowKey, j: nat, e: Event, source: Source, status: Status)
    requires j < |h| && Exposes(h[j], key)
  {
    if h[j].event.variant != e.variant then status == VariantConflict
    else if e.Exposure? then status == DuplicateExposure
    else if h[j].source != source then status == MissingExposure
    else if !exists g: nat :: Reached(h, key, j, g) then status == AcceptedGoal
    else
      exists g: nat ::
        && Reached(h, key, j, g)
        && status == if h[g].event.value == e.value then DuplicateGoal else ConflictingGoal
  }

  /** What an event has to be answered after this history. */
  ghost predicate RightAnswer(h: History, project: string, e: Event, source: Source, status: Status) {
    var key := EventRow(project, e);
    if IsDecided(h, project, e.experiment) then status == LateRow
    else if !exists j: nat :: Stands(h, key, j) then status == if e.Exposure? then AcceptedExposure else MissingExposure
    else
      exists j: nat ::
        && Stands(h, key, j)
        && if ExpiryOf(h, key, j) > 0 then status == LateRow else RightWhileOpen(h, key, j, e, source, status)
  }

  // The rows of the ledger say the same

  ghost predicate GoalTells(goal: Option<real>, h: History, key: RowKey, j: nat) {
    match goal
    case None => forall g: nat :: !Reached(h, key, j, g)
    case Some(value) =>
      exists g: nat :: Reached(h, key, j, g) && h[g].event.value == value
        && forall i: nat :: Reached(h, key, j, i) ==> i == g
  }

  ghost predicate RowTells(row: Row, h: History, key: RowKey, j: nat) {
    && Stands(h, key, j) && (forall i: nat :: Stands(h, key, i) ==> i == j)
    && row.variant == h[j].event.variant && row.source == h[j].source && row.expiresAt == ExpiryOf(h, key, j)
    && GoalTells(row.goal, h, key, j)
  }

  ghost predicate Tells(l: Ledger, h: History, key: RowKey) {
    && (IsTerminal(l, key.project, key.experiment) <==> IsDecided(h, key.project, key.experiment))
    && if key in l.rows then exists j: nat :: RowTells(l.rows[key], h, key, j) else forall j: nat :: !Stands(h, key, j)
  }

  /** Against the one exposure that stands, the row gives the answer. */
  lemma RowAnswers(row: Row, h: History, key: RowKey, j: nat, e: Event, source: Source, status: Status)
    requires RowTells(row, h, key, j)
    ensures RightWhileOpen(h, key, j, e, source, status) <==>
            status == if row.variant != e.variant then VariantConflict
                      else if e.Exposure? then DuplicateExposure
                      else if row.source != source then MissingExposure
                      else match row.goal
                        case None => AcceptedGoal
                        case Some(value) => if value == e.value then DuplicateGoal else ConflictingGoal
  {
    hide Stands, ExpiryOf, EventRow;
    if row.goal.Some? {
      var g: nat :| Reached(h, key, j, g) && h[g].event.value == row.goal.value;
      assert Reached(h, key, j, g);
    }
  }

  lemma OneStands(h: History, project: string, e: Event, source: Source, status: Status, j: nat)
    requires Stands(h, EventRow(project, e), j) && !IsDecided(h, project, e.experiment)
    requires forall i: nat :: Stands(h, EventRow(project, e), i) ==> i == j
    ensures RightAnswer(h, project, e, source, status) <==>
            if ExpiryOf(h, EventRow(project, e), j) > 0 then status == LateRow
            else RightWhileOpen(h, EventRow(project, e), j, e, source, status)
  {
    assert Exposes(h[j], EventRow(project, e));
    hide Stands, ExpiryOf, RightWhileOpen, IsDecided, EventRow;
  }

  /** The ledger's answer is the right one, and no other is. */
  lemma AnswerIsRight(l: Ledger, h: History, project: string, e: Event, source: Source, status: Status)
    requires Tells(l, h, EventRow(project, e))
    ensures status == StatusOf(l, project, e, source) <==> RightAnswer(h, project, e, source, status)
  {
    var key := EventRow(project, e);
    hide ExpiryOf, Stands, IsDecided, GoalTells, RightWhileOpen;
    if key in l.rows && !IsTerminal(l, project, e.experiment) {
      var j: nat :| RowTells(l.rows[key], h, key, j);
      OneStands(h, project, e, source, status, j);
      RowAnswers(l.rows[key], h, key, j, e, source, status);
      hide RightAnswer;
    }
  }

  // One more item

  lemma ExpiryOfNext(h: History, x: Item, key: RowKey, j: nat)
    requires j < |h|
    ensures ExpiryOf(h + [x], key, j) == ExpiryNext(ExpiryOf(h, key, j), x, key)
  {
    assert (h + [x])[..|h|] == h;
  }

  lemma StandsNext(h: History, x: Item, key: RowKey, j: nat)
    ensures Stands(h + [x], key, j) <==>
            if j < |h| then Stands(h, key, j) && !Prunes(x, ExpiryOf(h, key, j)) else j == |h| && Exposes(x, key)
  {
    var t := h + [x];
    if j < |h| {
      forall i | j < i < |h| ensures t[i] == h[i] && t[..i] == h[..i] { }
      assert t[|h|] == x && t[..|h|] == h && t[j] == h[j];
      hide ExpiryOf;
      if Stands(h, key, j) && !Prunes(x, ExpiryOf(h, key, j)) {
        forall i | j < i < |t| ensures !Prunes(t[i], ExpiryOf(t[..i], key, j)) {
          if i < |h| { assert !Prunes(h[i], ExpiryOf(h[..i], key, j)); }
        }
      }
      if Stands(t, key, j) {
        forall i | j < i < |h| ensures !Prunes(h[i], ExpiryOf(h[..i], key, j)) {
          assert !Prunes(t[i], ExpiryOf(t[..i], key, j));
        }
        assert !Prunes(t[|h|], ExpiryOf(t[..|h|], key, j));
      }
    }
  }

  lemma ReachedNext(h: History, x: Item, key: RowKey, j: nat, g: nat)
    requires j < |h|
    ensures Reached(h + [x], key, j, g) <==> if g < |h| then Reached(h, key, j, g) else g == |h| && Attains(x, key)
  {
  }

  lemma DecidedNext(h: History, x: Item, project: string, experiment: string)
    ensures IsDecided(h + [x], project, experiment) <==>
            IsDecided(h, project, experiment) || Decides(x, project, experiment)
  {
    var t := h + [x];
    assert forall i :: 0 <= i < |h| ==> t[i] == h[i];
    assert t[|h|] == x;
  }

  /** An item that neither prunes the assignment nor exposes it again leaves its exposure standing. */
  lemma RowTellsNext(row: Row, h: History, x: Item, key: RowKey, j: nat, next: Row)
    requires RowTells(row, h, key, j) && !Exposes(x, key) && !Prunes(x, row.expiresAt)
    requires next.variant == row.variant && next.source == row.source
    requires next.expiresAt == ExpiryNext(row.expiresAt, x, key)
    requires if Attains(x, key) then row.goal.None? && next.goal == Some(x.event.value) else next.goal == row.goal
    ensures RowTells(next, h + [x], key, j)
  {
    forall i: nat ensures Stands(h + [x], key, i) <==> Stands(h, key, i) && !Prunes(x, ExpiryOf(h, key, i)) {
      StandsNext(h, x, key, i);
    }
    ExpiryOfNext(h, x, key, j);
    assert j < |h| && (h + [x])[j] == h[j];
    hide Stands, ExpiryOf;
    GoalTellsNext(row.goal, h, x, key, j, next.goal);
  }

  lemma GoalTellsNext(goal: Option<real>, h: History, x: Item, key: RowKey, j: nat, next: Option<real>)
    requires j < |h| && GoalTells(goal, h, key, j)
    requires if Attains(x, key) then goal.None? && next == Some(x.event.value) else next == goal
    ensures GoalTells(next, h + [x], key, j)
  {
    forall g: nat
      ensures Reached(h + [x], key, j, g) <==> if g < |h| then Reached(h, key, j, g) else g == |h| && Attains(x, key)
    {
      ReachedNext(h, x, key, j, g);
    }
    if Attains(x, key) {
      assert Reached(h + [x], key, j, |h|);
    } else if goal.Some? {
      var g: nat :| Reached(h, key, j, g) && h[g].event.value == goal.value
        && forall i: nat :: Reached(h, key, j, i) ==> i == g;
      assert Reached(h + [x], key, j, g) && (h + [x])[g] == h[g];
    }
  }

  lemma NewRowTells(h: History, x: Item, key: RowKey)
    requires (forall j: nat :: !Stands(h, key, j)) && Exposes(x, key)
    ensures RowTells(Row(x.event.variant, x.source, None, 0), h + [x], key, |h|)
  {
    forall i: nat ensures Stands(h + [x], key, i) <==> i == |h| {
      StandsNext(h, x, key, i);
    }
    hide Stands;
  }

  lemma NoRowNext(h: History, x: Item, key: RowKey)
    requires (forall j: nat :: !Stands(h, key, j)) && !Exposes(x, key)
    ensures forall j: nat :: !Stands(h + [x], key, j)
  {
    forall j: nat ensures !Stands(h + [x], key, j) {
      StandsNext(h, x, key, j);
    }
  }

  lemma PrunedRow(row: Row, h: History, x: Item, key: RowKey, j: nat)
    requires RowTells(row, h, key, j) && Prunes(x, row.expiresAt)
    ensures forall i: nat :: !Stands(h + [x], key, i)
  {
    forall i: nat ensures !Stands(h + [x], key, i) {
      StandsNext(h, x, key, i);
    }
  }

  /** An ingested event moves the assignments as its answer says. */
  lemma IngestTells(l: Ledger, h: History, project: string, e: Event, source: Source, key: RowKey)
    requires Tells(l, h, key)
    ensures Tells(Ingest(l, project, e, source), h + [Ingested(project, e, source, StatusOf(l, project, e, source))],
                  key)
  {
    var x, next := Ingested(project, e, source, StatusOf(l, project, e, source)), Ingest(l, project, e, source);
    DecidedNext(h, x, key.project, key.experiment);
    hide Stands, IsDecided, RowTells, Counted;
    if key in l.rows {
      var j: nat :| RowTells(l.rows[key], h, key, j);
      RowTellsNext(l.rows[key], h, x, key, j, next.rows[key]);
    } else if Exposes(x, key) {
      NewRowTells(h, x, key);
    } else {
      NoRowNext(h, x, key);
    }
  }

  /** So does every operation other than a batch. */
  lemma UpkeepTells(l: Ledger, h: History, op: Operation, next: Ledger, maxRows: nat, maxWriteBatch: nat, key: RowKey)
    requires Tells(l, h, key) && !op.Batch? && Step(l, op, next, maxRows, maxWriteBatch)
    ensures Tells(next, h + [Upkeep(op)], key)
  {
    var x := Upkeep(op);
    DecidedNext(h, x, key.project, key.experiment);
    hide Stands, IsDecided, RowTells;
    if key in l.rows {
      var j: nat :| RowTells(l.rows[key], h, key, j);
      if key in next.rows {
        RowTellsNext(l.rows[key], h, x, key, j, next.rows[key]);
      } else {
        PrunedRow(l.rows[key], h, x, key, j);
      }
    } else {
      NoRowNext(h, x, key);
    }
  }

  // Batches

  lemma ItemsNext(project: string, events: seq<Event>, source: Source, statuses: seq<Status>, n: nat)
    requires n < |events| && n < |statuses|
    ensures Items(project, events, source, statuses, n + 1) ==
            Items(project, events, source, statuses, n) + [Ingested(project, events[n], source, statuses[n])]
  {
  }

  /** Ingesting the first n events moves the assignments as their answers say. */
  lemma {:induction false} IngestAllTells(l: Ledger, h: History, project: string, events: seq<Event>, source: Source,
                                         statuses: seq<Status>, n: nat, key: RowKey)
    requires Tells(l, h, key) && n <= |events| && n <= |statuses|
    requires forall i :: 0 <= i < n ==> statuses[i] == StatusAt(l, project, events, source, i)
    ensures Tells(IngestAll(l, project, events[..n], source), h + Items(project, events, source, statuses, n), key)
  {
    hide Tells, Ingest, StatusOf, Items;
    if n == 0 {
      NoItems(h, project, events, source, statuses);
    } else {
      var m := n - 1;
      IngestAllTells(l, h, project, events, source, statuses, m, key);
      assert events[..n][..m] == events[..m] && statuses[m] == StatusAt(l, project, events, source, m);
      var mid, items := IngestAll(l, project, events[..m], source), Items(project, events, source, statuses, m);
      IngestTells(mid, h + items, project, events[m], source, key);
      ItemsNext(project, events, source, statuses, m);
      hide IngestAll;
      MoreItems(h, items, Ingested(project, events[m], source, statuses[m]));
    }
  }

  lemma NoItems(h: History, project: string, events: seq<Event>, source: Source, statuses: seq<Status>)
    ensures h + Items(project, events, source, statuses, 0) == h
  {
  }

  lemma MoreItems(h: History, items: History, x: Item)
    ensures h + items + [x] == h + (items + [x])
  {
  }

  /** What followed from the pre-check of a batch. */
  ghost predicate Follows(l: Ledger, op: Operation, next: Ledger, maxRows: nat, p: Preflight)
    requires op.Batch?
  {
    if p.newAssignments + |l.rows| > maxRows then op.reply == Err(CapacityExceeded)
    else match p.rejected
      case Some((_, status)) => op.reply == Ok([status])
      case None =>
        && next == IngestAll(l, op.project, op.events, op.source)
        && op.reply.Ok? && |op.reply.value| == |op.events|
        && forall i :: 0 <= i < |op.events| ==>
           op.reply.value[i] == StatusAt(l, op.project, op.events, op.source, i)
  }

  lemma BatchChecked(l: Ledger, op: Operation, next: Ledger, maxRows: nat, maxWriteBatch: nat)
    returns (p: Preflight)
    requires op.Batch? && op.events != [] && Step(l, op, next, maxRows, maxWriteBatch)
    requires |op.events| <= maxWriteBatch && forall i :: 0 <= i < |op.events| ==> ValidEvent(op.events[i])
    ensures IsDryRun(l, op.project, op.events, op.source, p) && Follows(l, op, next, maxRows, p)
    ensures p.rejected.Some? ==> p.rejected.value.0 < |op.events|
  {
    hide StatusAt, AcceptedCount, IngestAll, RejectBatch, ValidEvent;
    var Batch(project, events, source, reply) := op;
    p :| IsDryRun(l, project, events, source, p)
      && if p.newAssignments + |l.rows| > maxRows then reply == Err(CapacityExceeded) && next == l
         else match p.rejected
           case Some((k, status)) => reply == Ok([status])
             && next == RejectBatch(l, project, events, source, status, k)
           case None =>
             && next == IngestAll(l, project, events, source)
             && reply.Ok? && |reply.value| == |events|
             && forall i :: 0 <= i < |events| ==> reply.value[i] == StatusAt(l, project, events, source, i);
  }

  lemma RejectedNotTaken(l: Ledger, op: Operation, next: Ledger, maxRows: nat, p: Preflight)
    requires op.Batch? && op.reply.Ok? && p.rejected.Some?
    requires IsDryRun(l, op.project, op.events, op.source, p) && Follows(l, op, next, maxRows, p)
    ensures !Taken(op)
  {
    hide StatusAt, AcceptedCount, RejectBatch;
    assert op.reply.value[0] == p.rejected.value.1 && op.reply.value[0].Rejects();
  }

  lemma TakenIsIngested(l: Ledger, op: Operation, next: Ledger, maxRows: nat, maxWriteBatch: nat)
    requires Taken(op) && op.Batch? && op.reply.Ok? && op.events != [] && Step(l, op, next, maxRows, maxWriteBatch)
    ensures next == IngestAll(l, op.project, op.events, op.source)
    ensures forall i :: 0 <= i < |op.events| ==>
      op.reply.value[i] == StatusAt(l, op.project, op.events, op.source, i)
  {
    hide Step, IsDryRun, StatusAt, IngestAll, RejectBatch, Taken, ValidEvent;
    TurnedAway(l, op, next, maxRows, maxWriteBatch);
    var p := BatchChecked(l, op, next, maxRows, maxWriteBatch);
    if p.rejected.Some? { RejectedNotTaken(l, op, next, maxRows, p); }
  }

  lemma BatchTells(l: Ledger, h: History, op: Operation, next: Ledger, maxRows: nat, maxWriteBatch: nat, key: RowKey)
    requires op.Batch? && Tells(l, h, key) && Step(l, op, next, maxRows, maxWriteBatch)
    ensures Tells(next, h + ItemsOf(op), key)
  {
    hide Tells, StatusAt, IngestAll, Step, Items;
    if Taken(op) && op.events != [] {
      TakenIsIngested(l, op, next, maxRows, maxWriteBatch);
      assert op.events[..|op.events|] == op.events;
      IngestAllTells(l, h, op.project, op.events, op.source, op.reply.value, |op.events|, key);
    } else {
      if Taken(op) { NoItems(h, op.project, op.events, op.source, op.reply.value); }
      assert h + [] == h;
      NotTaken(l, op, next, maxRows, maxWriteBatch);
      SameRowsTell(l, h, next, key);
    }
  }

  /** A batch that is not ingested moves no assignment. */
  lemma NotTaken(l: Ledger, op: Operation, next: Ledger, maxRows: nat, maxWriteBatch: nat)
    requires op.Batch? && Step(l, op, next, maxRows, maxWriteBatch) && (Taken(op) ==> op.events == [])
    ensures next.rows == l.rows && next.terminal == l.terminal
  {
    hide StatusAt, IngestAll, ValidEvent, AcceptedCount;
    RejectKeeps(l, op.project, op.events, op.source);
    hide RejectBatch;
  }

  lemma RejectKeeps(l: Ledger, project: string, events: seq<Event>, source: Source)
    ensures forall status, k: nat :: k < |events| ==>
      var after := RejectBatch(l, project, events, source, status, k);
      after.rows == l.rows && after.terminal == l.terminal
  {
    UntrustedEvidence(l, project, events, source, TotalsKey("", "", "", source));
  }

  lemma SameRowsTell(l: Ledger, h: History, next: Ledger, key: RowKey)
    requires Tells(l, h, key) && next.rows == l.rows && next.terminal == l.terminal
    ensures Tells(next, h, key)
  {
  }

  // Runs

  lemma {:induction false} RunTells(states: seq<Ledger>, ops: seq<Operation>, maxRows: nat, maxWriteBatch: nat, k: nat,
                                    key: RowKey)
    requires IsRun(states, ops, maxRows, maxWriteBatch) && k <= |ops|
    ensures Tells(states[k], HistoryOf(ops[..k]), key)
  {
    hide Step;
    if k > 0 {
      hide Tells, ItemsOf;
      RunTells(states, ops, maxRows, maxWriteBatch, k - 1, key);
      assert ops[..k][..k - 1] == ops[..k - 1] && ops[..k][k - 1] == ops[k - 1];
      OperationTells(states[k - 1], HistoryOf(ops[..k - 1]), ops[k - 1], states[k], maxRows, maxWriteBatch, key);
    }
  }

  lemma OperationTells(l: Ledger, h: History, op: Operation, next: Ledger, maxRows: nat, maxWriteBatch: nat,
                       key: RowKey)
    requires Tells(l, h, key) && Step(l, op, next, maxRows, maxWriteBatch)
    ensures Tells(next, h + ItemsOf(op), key)
  {
    hide Tells, Step, Taken, Items;
    if op.Batch? {
      BatchTells(l, h, op, next, maxRows, maxWriteBatch, key);
    } else {
      UpkeepTells(l, h, op, next, maxRows, maxWriteBatch, key);
    }
  }

  /** In every reachable ledger an event would be answered what is right after the operations so far, and only that. */
  lemma StatusMeansHistory(states: seq<Ledger>, ops: seq<Operation>, maxRows: nat, maxWriteBatch: nat, k: nat,
                           project: string, e: Event, source: Source, status: Status)
    requires IsRun(states, ops, maxRows, maxWriteBatch) && k <= |ops|
    ensures status == StatusOf(states[k], project, e, source) <==>
            RightAnswer(HistoryOf(ops[..k]), project, e, source, status)
  {
    RunTells(states, ops, maxRows, maxWriteBatch, k, EventRow(project, e));
    hide *;
    AnswerIsRight(states[k], HistoryOf(ops[..k]), project, e, source, status);
  }

  /** The right answers to the first events of a batch, each after those before it. */
  ghost predicate RightAnswers(h: History, project: string, events: seq<Event>, source: Source, answers: seq<Status>) {
    && |answers| <= |events|
    && forall i :: 0 <= i < |answers| ==>
       RightAnswer(h + Items(project, events, source, answers, i), project, events[i], source, answers[i])
  }

  /** The assignments that stand. */
  ghost function Standing(h: History): set<RowKey> {
    set j | 0 <= j < |h| && h[j].Ingested? && Stands(h, EventRow(h[j].project, h[j].event), j) ::
      EventRow(h[j].project, h[j].event)
  }

  lemma StandingAreRows(l: Ledger, h: History)
    requires forall key :: Tells(l, h, key)
    ensures Standing(h) == l.rows.Keys
  {
    forall key ensures key in Standing(h) <==> key in l.rows {
      assert Tells(l, h, key);
      if j: nat :| Stands(h, key, j) { assert h[j].Ingested? && EventRow(h[j].project, h[j].event) == key; }
    }
  }

  function NewAssignments(answers: seq<Status>): nat {
    if answers == [] then 0
    else NewAssignments(answers[..|answers| - 1]) + if answers[|answers| - 1].AcceptedExposure? then 1 else 0
  }

  predicate EndsInRejection(answers: seq<Status>) { answers != [] && answers[|answers| - 1].Rejects() }

  /**
   What a batch is answered. A batch that is too long or not valid is refused. Otherwise each event has its right
   answer, up to the first rejection; with more new assignments than there is room for the batch is refused, with a
   rejection that is the reply, and without one all answers are.
   */
  ghost predicate RightReply(h: History, op: Operation, maxRows: nat, maxWriteBatch: nat, answers: seq<Status>)
    requires op.Batch?
  {
    if |op.events| > maxWriteBatch then op.reply == Err(BatchTooLong)
    else if exists i :: 0 <= i < |op.events| && !ValidEvent(op.events[i]) then op.reply == Err(InvalidEvent)
    else
      && RightAnswers(h, op.project, op.events, op.source, answers)
      && (forall i :: 0 <= i < |answers| - 1 ==> !answers[i].Rejects())
      && (EndsInRejection(answers) || |answers| == |op.events|)
      && op.reply ==
         if |Standing(h)| + NewAssignments(answers) > maxRows then Err(CapacityExceeded)
         else Ok(if EndsInRejection(answers) then [answers[|answers| - 1]] else answers)
  }

  /** Every batch of a run is answered what is right after the run so far. */
  lemma RepliesMeanHistory(states: seq<Ledger>, ops: seq<Operation>, maxRows: nat, maxWriteBatch: nat, k: nat)
    returns (answers: seq<Status>)
    requires IsRun(states, ops, maxRows, maxWriteBatch) && k < |ops| && ops[k].Batch?
    ensures RightReply(HistoryOf(ops[..k]), ops[k], maxRows, maxWriteBatch, answers)
  {
    hide RightReply, Step, HistoryOf;
    var h := HistoryOf(ops[..k]);
    forall key ensures Tells(states[k], h, key) { RunTells(states, ops, maxRows, maxWriteBatch, k, key); }
    RowsBounded(states, ops, maxRows, maxWriteBatch, k);
    hide Tells;
    answers := ReplyIsRight(states[k], h, ops[k], states[k + 1], maxRows, maxWriteBatch);
  }

  lemma ReplyIsRight(l: Ledger, h: History, op: Operation, next: Ledger, maxRows: nat, maxWriteBatch: nat)
    returns (answers: seq<Status>)
    requires op.Batch? && Step(l, op, next, maxRows, maxWriteBatch) && |l.rows| <= maxRows
    requires forall key :: Tells(l, h, key)
    ensures RightReply(h, op, maxRows, maxWriteBatch, answers)
  {
    hide Tells, Step, StatusAt, IngestAll, RejectBatch, IsDryRun, RightAnswers, Standing;
    var events, source := op.events, op.source;
    answers := [];
    StandingAreRows(l, h);
    TurnedAway(l, op, next, maxRows, maxWriteBatch);
    if |events| <= maxWriteBatch && (forall i :: 0 <= i < |events| ==> ValidEvent(events[i])) && events != [] {
      var p := BatchChecked(l, op, next, maxRows, maxWriteBatch);
      var n := if p.rejected.Some? then p.rejected.value.0 + 1 else |events|;
      answers := seq(n, i requires 0 <= i < n => StatusAt(l, op.project, events, source, i));
      CheckedAnswers(l, op.project, events, source, p, answers);
      assert p.rejected.None? && op.reply.Ok? ==> op.reply.value == answers;
    }
    AnswersAreRight(l, h, op.project, events, source, answers);
  }

  lemma TurnedAway(l: Ledger, op: Operation, next: Ledger, maxRows: nat, maxWriteBatch: nat)
    requires op.Batch? && Step(l, op, next, maxRows, maxWriteBatch)
    ensures |op.events| > maxWriteBatch ==> op.reply == Err(BatchTooLong)
    ensures |op.events| <= maxWriteBatch && (exists i :: 0 <= i < |op.events| && !ValidEvent(op.events[i])) ==>
      op.reply == Err(InvalidEvent)
    ensures |op.events| <= maxWriteBatch && op.events == [] ==> op.reply == Ok([])
  {
    hide IsDryRun, StatusAt, IngestAll, RejectBatch, ValidEvent;
  }

  /** The pre-check stops at the first rejection, and has counted the new assignments before it. */
  lemma CheckedAnswers(l: Ledger, project: string, events: seq<Event>, source: Source, p: Preflight,
                       answers: seq<Status>)
    requires IsDryRun(l, project, events, source, p) && |answers| <= |events|
    requires |answers| == if p.rejected.Some? then p.rejected.value.0 + 1 else |events|
    requires forall i :: 0 <= i < |answers| ==> answers[i] == StatusAt(l, project, events, source, i)
    ensures p.rejected.Some? ==>
      answers[|answers| - 1] == p.rejected.value.1 && answers[|answers| - 1].Rejects()
    ensures forall i :: 0 <= i < |answers| - (if p.rejected.Some? then 1 else 0) ==> !answers[i].Rejects()
    ensures NewAssignments(answers) == p.newAssignments
  {
    hide StatusAt, AcceptedCount, NewAssignments;
    var n := if p.rejected.Some? then p.rejected.value.0 else |events|;
    CountedAnswers(l, project, events, source, answers[..n]);
    RejectionIsNotNew(answers, n);
  }

  lemma RejectionIsNotNew(answers: seq<Status>, n: nat)
    requires n <= |answers| <= n + 1 && (|answers| == n + 1 ==> answers[n].Rejects())
    ensures NewAssignments(answers) == NewAssignments(answers[..n])
  {
    if n == |answers| { assert answers[..n] == answers; }
  }

  lemma {:induction false} CountedAnswers(l: Ledger, project: string, events: seq<Event>, source: Source,
                                         answers: seq<Status>)
    requires |answers| <= |events|
    requires forall i :: 0 <= i < |answers| ==> answers[i] == StatusAt(l, project, events, source, i)
    ensures NewAssignments(answers) == AcceptedCount(l, project, events, source, |answers|)
  {
    hide StatusAt;
    if answers != [] { CountedAnswers(l, project, events, source, answers[..|answers| - 1]); }
  }

  lemma AnswersAreRight(l: Ledger, h: History, project: string, events: seq<Event>, source: Source,
                        answers: seq<Status>)
    requires |answers| <= |events| && forall key :: Tells(l, h, key)
    requires forall i :: 0 <= i < |answers| ==> answers[i] == StatusAt(l, project, events, source, i)
    ensures RightAnswers(h, project, events, source, answers)
  {
    hide Tells, StatusOf, IngestAll, RightAnswer, Items;
    forall i | 0 <= i < |answers|
      ensures RightAnswer(h + Items(project, events, source, answers, i), project, events[i], source, answers[i])
    {
      IngestAllTells(l, h, project, events, source, answers, i, EventRow(project, events[i]));
      AnswerIsRight(IngestAll(l, project, events[..i], source), h + Items(project, events, source, answers, i), project,
                    events[i], source, answers[i]);
    }
  }

  // What the other counters count

  /** How many events of a variant and source were ingested with this answer. */
  function Told(h: History, key: TotalsKey, status: Status): nat {
    if h == [] then 0
    else
      var x := h[|h| - 1];
      Told(h[..|h| - 1], key, status) +
      if x.Ingested? && EventTotals(x.project, x.event, x.source) == key && x.status == status then 1 else 0
  }

  /** These counters move with the answers alone. */
  ghost predicate Tallies(l: Ledger, h: History, key: TotalsKey) { Tallied(TotalsAt(l, key), h, key) }

  ghost predicate Tallied(t: Totals, h: History, key: TotalsKey) {
    && t.exposures == Told(h, key, AcceptedExposure) && t.goals == Told(h, key, AcceptedGoal)
    && t.duplicateExposures == Told(h, key, DuplicateExposure) && t.duplicateGoals == Told(h, key, DuplicateGoal)
    && t.conflictingGoals == Told(h, key, ConflictingGoal) && t.lateRows == Told(h, key, LateRow)
    && t.implicitExposures == 0
  }

  lemma ToldNext(h: History, x: Item, key: TotalsKey, status: Status)
    ensures Told(h + [x], key, status) == Told(h, key, status) +
      if x.Ingested? && EventTotals(x.project, x.event, x.source) == key && x.status == status then 1 else 0
  {
    assert (h + [x])[..|h|] == h;
  }

  lemma IngestTallies(l: Ledger, h: History, project: string, e: Event, source: Source, key: TotalsKey)
    requires Tallies(l, h, key)
    ensures Tallies(Ingest(l, project, e, source),
                    h + [Ingested(project, e, source, StatusOf(l, project, e, source))], key)
  {
    hide Tallied, Counted, RowsAfter;
    var status, t := StatusOf(l, project, e, source), TotalsAt(l, key);
    assert status.AcceptedGoal? ==> e.Goal?;
    assert TotalsAt(Ingest(l, project, e, source), key) ==
           if EventTotals(project, e, source) == key then Counted(t, status, e, source) else t;
    hide StatusOf;
    CountedTallies(t, h, project, e, source, status, key);
  }

  lemma CountedTallies(t: Totals, h: History, project: string, e: Event, source: Source, status: Status,
                       key: TotalsKey)
    requires Tallied(t, h, key) && (status.AcceptedGoal? ==> e.Goal?)
    ensures Tallied(if EventTotals(project, e, source) == key then Counted(t, status, e, source) else t,
                    h + [Ingested(project, e, source, status)], key)
  {
    hide Told, EventTotals;
    forall s ensures Told(h + [Ingested(project, e, source, status)], key, s) ==
      Told(h, key, s) + if EventTotals(project, e, source) == key && status == s then 1 else 0
    {
      ToldNext(h, Ingested(project, e, source, status), key, s);
    }
  }

  lemma {:induction false} IngestAllTallies(l: Ledger, h: History, project: string, events: seq<Event>,
                                            source: Source, statuses: seq<Status>, n: nat, key: TotalsKey)
    requires Tallies(l, h, key) && n <= |events| && n <= |statuses|
    requires forall i :: 0 <= i < n ==> statuses[i] == StatusAt(l, project, events, source, i)
    ensures Tallies(IngestAll(l, project, events[..n], source), h + Items(project, events, source, statuses, n), key)
  {
    hide Tallies, Ingest, StatusOf, Items;
    if n == 0 {
      NoItems(h, project, events, source, statuses);
    } else {
      var m := n - 1;
      IngestAllTallies(l, h, project, events, source, statuses, m, key);
      assert events[..n][..m] == events[..m] && statuses[m] == StatusAt(l, project, events, source, m);
      var mid, items := IngestAll(l, project, events[..m], source), Items(project, events, source, statuses, m);
      IngestTallies(mid, h + items, project, events[m], source, key);
      ItemsNext(project, events, source, statuses, m);
      hide IngestAll;
      MoreItems(h, items, Ingested(project, events[m], source, statuses[m]));
    }
  }

  /** How many of the events are of this variant and source. */
  function CountUnder(project: string, events: seq<Event>, source: Source, key: TotalsKey): nat {
    if events == [] then 0
    else
      var n := |events| - 1;
      CountUnder(project, events[..n], source, key) + if EventTotals(project, events[n], source) == key then 1 else 0
  }

  lemma {:induction false} UntrustedTotals(l: Ledger, project: string, events: seq<Event>, source: Source,
                                          key: TotalsKey)
    ensures var t := TotalsAt(l, key);
      TotalsAt(UntrustedBatch(l, project, events, source), key) ==
      t.(untrustedRows := t.untrustedRows + CountUnder(project, events, source, key))
    decreases |events|
  {
    if events != [] { UntrustedTotals(l, project, events[..|events| - 1], source, key); }
  }

  /**
   A rejected batch counts its rejection once, at the variant and source of the event that was rejected, and each of
   its events when it comes from an untrusted source.
   */
  lemma RejectTotals(l: Ledger, project: string, events: seq<Event>, source: Source, status: Status, k: nat,
                     key: TotalsKey)
    requires k < |events| && status.Rejects()
    ensures var t, here := TotalsAt(l, key), EventTotals(project, events[k], source) == key;
      TotalsAt(RejectBatch(l, project, events, source, status, k), key) ==
      t.(untrustedRows := t.untrustedRows + if source.trusted then 0 else CountUnder(project, events, source, key),
         variantConflicts := t.variantConflicts + (if here && status == VariantConflict then 1 else 0),
         missingExposures := t.missingExposures + (if here && status == MissingExposure then 1 else 0))
  {
    UntrustedTotals(l, project, events, source, key);
  }

  lemma BatchTallies(l: Ledger, h: History, op: Operation, next: Ledger, maxRows: nat, maxWriteBatch: nat,
                     key: TotalsKey)
    requires op.Batch? && Tallies(l, h, key) && Step(l, op, next, maxRows, maxWriteBatch)
    ensures Tallies(next, h + ItemsOf(op), key)
  {
    hide Tallies, StatusAt, IngestAll, Step, Items;
    if Taken(op) && op.events != [] {
      TakenIsIngested(l, op, next, maxRows, maxWriteBatch);
      assert op.events[..|op.events|] == op.events;
      IngestAllTallies(l, h, op.project, op.events, op.source, op.reply.value, |op.events|, key);
    } else {
      if Taken(op) { NoItems(h, op.project, op.events, op.source, op.reply.value); }
      assert h + [] == h;
      SameTallies(l, h, op, next, maxRows, maxWriteBatch, key);
    }
  }

  lemma SameTallies(l: Ledger, h: History, op: Operation, next: Ledger, maxRows: nat, maxWriteBatch: nat,
                    key: TotalsKey)
    requires op.Batch? && Tallies(l, h, key) && Step(l, op, next, maxRows, maxWriteBatch)
    requires Taken(op) ==> op.events == []
    ensures Tallies(next, h, key)
  {
    forall status: Status, k: nat | k < |op.events|
      ensures Tallies(RejectBatch(l, op.project, op.events, op.source, status, k), h, key)
    {
      UntrustedTotals(l, op.project, op.events, op.source, key);
    }
    hide Tallies, RejectBatch, StatusAt, IngestAll, ValidEvent, AcceptedCount;
  }

  /** In every reachable ledger these counters count the events that were answered so, since the very start. */
  lemma {:induction false} CountersMeanAnswers(states: seq<Ledger>, ops: seq<Operation>, maxRows: nat,
                                               maxWriteBatch: nat, k: nat, key: TotalsKey)
    requires IsRun(states, ops, maxRows, maxWriteBatch) && k <= |ops|
    ensures Tallies(states[k], HistoryOf(ops[..k]), key)
  {
    hide Step;
    if k > 0 {
      hide Tallies;
      CountersMeanAnswers(states, ops, maxRows, maxWriteBatch, k - 1, key);
      var h, op := HistoryOf(ops[..k - 1]), ops[k - 1];
      assert ops[..k][..k - 1] == ops[..k - 1] && ops[..k][k - 1] == op;
      if op.Batch? {
        BatchTallies(states[k - 1], h, op, states[k], maxRows, maxWriteBatch, key);
      } else {
        UpkeepTallies(states[k - 1], h, op, states[k], maxRows, maxWriteBatch, key);
      }
    }
  }

  lemma UpkeepTallies(l: Ledger, h: History, op: Operation, next: Ledger, maxRows: nat, maxWriteBatch: nat,
                      key: TotalsKey)
    requires !op.Batch? && Tallies(l, h, key) && Step(l, op, next, maxRows, maxWriteBatch)
    ensures Tallies(next, h + [Upkeep(op)], key)
  {
    forall s ensures Told(h + [Upkeep(op)], key, s) == Told(h, key, s) { ToldNext(h, Upkeep(op), key, s); }
    assert next.totals == l.totals;
    hide Told;
  }
}
