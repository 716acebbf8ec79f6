/**
 Which exposures the clients report: over any run of lookups and configurations an assignment is reported once,
 when it is recorded, and not again while it is remembered.
 */
module ExposureReports {
  import opened Wrappers
  import opened Sequences
  import opened AssignmentState
  import ExperimentResolver
  import opened SwiftResolver

  predicate Remembers(s: State, subject: Subject, id: Id) { id in AssignmentsOf(s, subject) }

  /** How often the assignment of a subject was reported. */
  function Reports(exposures: seq<Exposure>, subject: Subject, id: Id): nat {
    if exposures == [] then 0
    else
      var last := exposures[|exposures| - 1];
      Reports(exposures[..|exposures| - 1], subject, id)
      + if last.subject == subject && last.experiment == id then 1 else 0
  }

  /** Whatever is remembered has been reported. */
  ghost predicate AllExposed(s: State) {
    forall x, id :: Remembers(s, x, id) ==> AssignmentsOf(s, x)[id].exposed
  }

  lemma EvictedForget(s: State, max: nat)
    requires WellFormed(s) && AllExposed(s)
    ensures AllExposed(Evict(s, max))
    ensures forall x, id :: Remembers(Evict(s, max), x, id) ==>
      Remembers(s, x, id) && AssignmentsOf(Evict(s, max), x)[id] == AssignmentsOf(s, x)[id]
  {
    EvictStaysWellFormed(s, max);
    var t := Evict(s, max);
    hide Evict;
    forall x, id | Remembers(t, x, id)
      ensures Remembers(s, x, id) && AssignmentsOf(t, x)[id] == AssignmentsOf(s, x)[id]
      ensures AssignmentsOf(t, x)[id].exposed
    {
      assert x in t.known;
    }
  }

  /** A step that adds this assignment, with the report of it. */
  ghost predicate Adds(s: State, t: State, reports: seq<Exposure>, subject: Subject, e: Id) {
    && !Remembers(s, subject, e) && Remembers(t, subject, e)
    && reports == [Exposure(e, AssignmentsOf(t, subject)[e].variant, subject)]
  }

  /** Apart from what it adds a step remembers only what was remembered before. */
  ghost predicate OnlyForgets(s: State, t: State, reports: seq<Exposure>) {
    forall x, id :: Remembers(t, x, id) && !Remembers(s, x, id) ==> Adds(s, t, reports, x, id)
  }

  /** A step reports exactly the assignments it adds. */
  ghost predicate ReportsAdded(s: State, t: State, reports: seq<Exposure>) {
    && AllExposed(t)
    && (reports == [] || exists x, id :: Adds(s, t, reports, x, id))
    && OnlyForgets(s, t, reports)
  }

  lemma RecordedReports(s: State, max: nat, subject: Subject, e: Experiment, variant: string)
    requires WellFormed(s) && AllExposed(s) && max > 0
    requires e.id in AssignmentsOf(Record(s, max, subject, e, variant), subject)
    ensures var t := Record(s, max, subject, e, variant);
      ReportsAdded(s, Expose(t, subject, e.id), ExposureOf(t, subject, e.id))
  {
    EvictedForget(s, max);
    var t := Record(s, max, subject, e, variant);
    var u, reports := Expose(t, subject, e.id), ExposureOf(t, subject, e.id);
    hide Evict;
    forall x, id | Remembers(u, x, id)
      ensures AssignmentsOf(u, x)[id].exposed
      ensures x != subject || id != e.id ==> Remembers(s, x, id)
    {
      if x == subject {
        assert subject in s.known ==> Remembers(s, x, id) || id == e.id;
      } else {
        assert Remembers(AddSubject(s, max, subject), x, id);
        assert subject !in s.known ==> Remembers(Evict(s, max), x, id);
      }
    }
    if Remembers(s, subject, e.id) {
      assert reports == [];
    } else {
      assert Adds(s, u, reports, subject, e.id);
    }
  }

  lemma ResolveReports(s: State, max: nat, subject: Subject, list: seq<Experiment>, choices: seq<Choice>, key: string)
    requires WellFormed(s) && AllExposed(s) && max > 0 && |list| == |choices|
    ensures var (t, _, reports) := Resolve(s, max, subject, list, choices, key); ReportsAdded(s, t, reports)
  {
    hide Record, Evict;
    var i := Deciding(list, choices, key);
    if i < |list| && choices[i].Picks? {
      RecordStaysBounded(s, max, subject, list[i], choices[i].variant);
      RecordedReports(s, max, subject, list[i], choices[i].variant);
    }
  }

  lemma SnapshotReports(s: State, experiments: seq<Experiment>)
    requires AllExposed(s)
    ensures ReportsAdded(s, ApplySnapshot(s, experiments), [])
  {
    var t := ApplySnapshot(s, experiments);
    hide Active, Survivors;
    forall x, id | Remembers(t, x, id)
      ensures Remembers(s, x, id) && AssignmentsOf(t, x)[id] == AssignmentsOf(s, x)[id]
    {
    }
  }

  // Runs

  ghost predicate Bounded(s: State, max: nat) { WellFormed(s) && |s.order| <= max && AllExposed(s) }

  lemma PerformReports(o: Outcome, operation: Operation, max: nat, hashSubject: string -> Subject,
                       choose: (Experiment, string) -> Choice)
    returns (reports: seq<Exposure>)
    requires max > 0 && Bounded(o.state, max)
    ensures var after := Perform(o, operation, max, hashSubject, choose);
      && Bounded(after.state, max) && after.exposures == o.exposures + reports
      && ReportsAdded(o.state, after.state, reports)
  {
    hide Resolve, ApplySnapshot, WellFormed, Remembers;
    match operation
    case NewConfig(experiments) =>
      SnapshotStaysBounded(o.state, experiments);
      SnapshotReports(o.state, experiments);
      reports := [];
    case Lookup(_, None, _) =>
      reports := [];
    case Lookup(key, Some(subjectId), list) =>
      var choices := ExperimentResolver.Choices(list, choose, subjectId);
      ResolveStaysBounded(o.state, max, hashSubject(subjectId), list, choices, key);
      ResolveReports(o.state, max, hashSubject(subjectId), list, choices, key);
      reports := Resolve(o.state, max, hashSubject(subjectId), list, choices, key).2;
  }

  lemma {:induction false} RunBounded(operations: seq<Operation>, max: nat, hashSubject: string -> Subject,
                                      choose: (Experiment, string) -> Choice)
    requires max > 0
    ensures Bounded(Run(operations, max, hashSubject, choose).state, max)
  {
    hide Perform;
    if operations != [] {
      var n := |operations| - 1;
      RunBounded(operations[..n], max, hashSubject, choose);
      var reports := PerformReports(Run(operations[..n], max, hashSubject, choose), operations[n], max, hashSubject,
                                    choose);
    }
  }

  /** A step of a run reports an assignment exactly when it adds it, with the variant it is remembered with. */
  lemma StepReports(operations: seq<Operation>, max: nat, hashSubject: string -> Subject,
                    choose: (Experiment, string) -> Choice, n: nat, subject: Subject, id: Id)
    requires max > 0 && n < |operations|
    ensures var before, after := Run(operations[..n], max, hashSubject, choose),
                                 Run(operations[..n + 1], max, hashSubject, choose);
      Reports(after.exposures, subject, id) == Reports(before.exposures, subject, id) +
        (if Remembers(after.state, subject, id) && !Remembers(before.state, subject, id) then 1 else 0)
      && (Remembers(after.state, subject, id) && !Remembers(before.state, subject, id) ==>
          after.exposures ==
          before.exposures + [Exposure(id, AssignmentsOf(after.state, subject)[id].variant, subject)])
  {
    hide Perform, Bounded, AssignmentsOf;
    var before, after := Run(operations[..n], max, hashSubject, choose),
                         Run(operations[..n + 1], max, hashSubject, choose);
    RunBounded(operations[..n], max, hashSubject, choose);
    RunNext(operations, n, max, hashSubject, choose);
    var reports := PerformReports(before, operations[n], max, hashSubject, choose);
    OneMore(before.exposures, reports, before.state, after.state, subject, id);
    hide Reports, Run;
  }

  lemma OneMore(seen: seq<Exposure>, reports: seq<Exposure>, s: State, t: State, subject: Subject, id: Id)
    requires ReportsAdded(s, t, reports)
    ensures Reports(seen + reports, subject, id) == Reports(seen, subject, id) +
      if Remembers(t, subject, id) && !Remembers(s, subject, id) then 1 else 0
  {
    hide Remembers;
    if reports == [] {
      assert seen + [] == seen;
    } else {
      var x, e :| Adds(s, t, reports, x, e);
      assert (seen + reports)[..|seen|] == seen;
      if Remembers(t, subject, id) && !Remembers(s, subject, id) { assert Adds(s, t, reports, subject, id); }
    }
  }

  /**
   Over any run an assignment is reported exactly once from the step that records it for as long as it is
   remembered, however often it is looked up.
   */
  lemma {:induction false} ReportedOnce(operations: seq<Operation>, max: nat, hashSubject: string -> Subject,
                                        choose: (Experiment, string) -> Choice, i: nat, j: nat, subject: Subject,
                                        id: Id)
    requires max > 0 && i < j <= |operations|
    requires !Remembers(Run(operations[..i], max, hashSubject, choose).state, subject, id)
    requires forall m :: i < m <= j ==>
      Remembers(Run(operations[..m], max, hashSubject, choose).state, subject, id)
    ensures Reports(Run(operations[..j], max, hashSubject, choose).exposures, subject, id) ==
            Reports(Run(operations[..i], max, hashSubject, choose).exposures, subject, id) + 1
    decreases j
  {
    hide Run, Reports, Remembers;
    if j > i + 1 { ReportedOnce(operations, max, hashSubject, choose, i, j - 1, subject, id); }
    StepReports(operations, max, hashSubject, choose, j - 1, subject, id);
    assert operations[..j - 1 + 1] == operations[..j];
  }
}
