/**
 What a client remembers about experiments: for each hashed subject its assignments, the oldest subject
 evicted first. A fingerprint is a hash of the client-visible definition and is modelled by the definition
 itself, so that equal fingerprints mean equal definitions.
 */
module AssignmentState {
  import opened Wrappers
  import opened Sequences

  type Subject = string
  type Id = string

  /** The client-visible definition; `rest` stands for allocation, salt, primary metric and variants. */
  datatype Experiment = Experiment(id: Id, enabled: bool, goalMetric: string, rest: string)

  datatype Assignment = Assignment(variant: string, goalMetric: string, fingerprint: Experiment, exposed: bool)

  type Assignments = map<Id, Assignment>

  /** An insertion-ordered map from subjects to their assignments. */
  datatype State = State(order: seq<Subject>, known: map<Subject, Assignments>)

  datatype Exposure = Exposure(experiment: Id, variant: string, subject: Subject)

  /** What assignVariant says of an experiment and a subject: an error, nothing, or a variant and its values. */
  datatype Choice = Fails | Nobody | Picks(variant: string, values: map<string, string>)

  datatype Answer = Remote | Value(value: string) | Threw

  const EMPTY := State([], map[])

  ghost predicate WellFormed(s: State) {
    && Distinct(s.order)
    && (forall x :: x in s.order <==> x in s.known)
  }

  function RemoveOldest(s: State): State
    requires s.order != []
  {
    State(s.order[1..], s.known - {s.order[0]})
  }

  /** Evicts until there is room for one more subject. */
  function Evict(s: State, max: nat): State
    decreases |s.order|
  {
    if s.order != [] && |s.order| >= max then Evict(RemoveOldest(s), max) else s
  }

  function AddSubject(s: State, max: nat, subject: Subject): State {
    if subject in s.known then s
    else var t := Evict(s, max); State(t.order + [subject], t.known[subject := map[]])
  }

  function NewAssignment(e: Experiment, variant: string): Assignment { Assignment(variant, e.goalMetric, e, false) }

  function WithAssignment(a: Assignments, e: Experiment, variant: string): Assignments {
    if e.id in a then a else a[e.id := NewAssignment(e, variant)]
  }

  function AssignmentsOf(s: State, subject: Subject): Assignments {
    if subject in s.known then s.known[subject] else map[]
  }

  /** recordAssignment */
  function Record(s: State, max: nat, subject: Subject, e: Experiment, variant: string): State {
    var t := AddSubject(s, max, subject);
    t.(known := t.known[subject := WithAssignment(AssignmentsOf(t, subject), e, variant)])
  }

  /** _expose, as an update of the state */
  function Expose(s: State, subject: Subject, id: Id): State
    requires id in AssignmentsOf(s, subject)
  {
    var a := AssignmentsOf(s, subject);
    s.(known := s.known[subject := a[id := a[id].(exposed := true)]])
  }

  function ExposureOf(s: State, subject: Subject, id: Id): seq<Exposure>
    requires id in AssignmentsOf(s, subject)
  {
    var a := AssignmentsOf(s, subject)[id];
    if a.exposed then [] else [Exposure(id, a.variant, subject)]
  }

  /** The experiments whose definition a snapshot makes active, by id; the last one wins. */
  function Active(experiments: seq<Experiment>): map<Id, Experiment> {
    if experiments == [] then map[]
    else
      var e := experiments[|experiments| - 1];
      var before := Active(experiments[..|experiments| - 1]);
      if e.enabled then before[e.id := e] else before
  }

  function Kept(a: Assignments, active: map<Id, Experiment>): Assignments {
    map id | id in a && id in active && active[id] == a[id].fingerprint :: a[id]
  }

  predicate Survives(s: State, active: map<Id, Experiment>, subject: Subject) {
    Kept(AssignmentsOf(s, subject), active) != map[]
  }

  function Survivors(s: State, active: map<Id, Experiment>, order: seq<Subject>): seq<Subject> {
    if order == [] then []
    else (if Survives(s, active, order[0]) then [order[0]] else []) + Survivors(s, active, order[1..])
  }

  /** applySnapshot */
  function ApplySnapshot(s: State, experiments: seq<Experiment>): State {
    var active := Active(experiments);
    State(Survivors(s, active, s.order),
          map x | x in s.known && Survives(s, active, x) :: Kept(s.known[x], active))
  }

  /** The experiment that answers a lookup: the first that fails, or whose variant for the subject sets the key. */
  function Deciding(list: seq<Experiment>, choices: seq<Choice>, key: string): (i: nat)
    requires |list| == |choices|
    ensures i <= |list|
  {
    if list == [] then 0
    else if choices[0].Fails? || (choices[0].Picks? && key in choices[0].values) then 0
    else 1 + Deciding(list[1..], choices[1..], key)
  }

  /** resolve, for a subject with the given choices: the new state, the answer and the new exposures. */
  function Resolve(s: State, max: nat, subject: Subject, list: seq<Experiment>, choices: seq<Choice>, key: string)
    : (State, Answer, seq<Exposure>)
    requires |list| == |choices|
  {
    var i := Deciding(list, choices, key);
    if i == |list| then (s, Remote, [])
    else if !choices[i].Picks? || key !in choices[i].values then (s, Threw, [])
    else
      var t := Record(s, max, subject, list[i], choices[i].variant);
      (Expose(t, subject, list[i].id), Value(choices[i].values[key]), ExposureOf(t, subject, list[i].id))
  }

  // What decides a lookup, and what a snapshot keeps

  /** Whether this choice ends the search for a value of the key. */
  predicate Settles(c: Choice, key: string) { c.Fails? || (c.Picks? && key in c.values) }

  /** The deciding experiment is the first that settles the key. */
  lemma {:induction false} DecidingIsFirst(list: seq<Experiment>, choices: seq<Choice>, key: string)
    requires |list| == |choices|
    ensures var i := Deciding(list, choices, key);
      && (i < |list| ==> Settles(choices[i], key))
      && forall j :: 0 <= j < i ==> !Settles(choices[j], key)
  {
    if list != [] && !Settles(choices[0], key) {
      DecidingIsFirst(list[1..], choices[1..], key);
      var i := Deciding(list[1..], choices[1..], key);
      assert forall j :: 0 < j <= i ==> choices[1..][j - 1] == choices[j];
    }
  }

  /** The last enabled entry of its id. */
  ghost predicate IsLastEnabled(experiments: seq<Experiment>, e: Experiment, i: nat) {
    && i < |experiments| && experiments[i] == e && e.enabled
    && forall j :: i < j < |experiments| && experiments[j].enabled ==> experiments[j].id != e.id
  }

  ghost predicate IsActive(experiments: seq<Experiment>, e: Experiment) {
    exists i: nat :: IsLastEnabled(experiments, e, i)
  }

  lemma {:induction false} ActiveIsLast(experiments: seq<Experiment>, e: Experiment)
    ensures e.id in Active(experiments) && Active(experiments)[e.id] == e <==> IsActive(experiments, e)
    ensures forall id :: id in Active(experiments) ==> Active(experiments)[id].id == id
  {
    if experiments != [] {
      var n := |experiments| - 1;
      var before, last := experiments[..n], experiments[n];
      ActiveIsLast(before, e);
      if last.enabled && last.id == e.id {
        assert last == e ==> IsLastEnabled(experiments, e, n);
      } else {
        forall i: nat ensures IsLastEnabled(experiments, e, i) <==> IsLastEnabled(before, e, i) {
          assert i < n ==> before[i] == experiments[i];
        }
      }
    }
  }

  /**
   A snapshot keeps exactly the assignments whose definition is still active, unchanged, and the subjects that have
   one keep their order.
   */
  lemma SnapshotKeepsActive(s: State, experiments: seq<Experiment>, subject: Subject, id: Id)
    ensures var was, now := AssignmentsOf(s, subject), AssignmentsOf(ApplySnapshot(s, experiments), subject);
      && (id in now <==> id in was && was[id].fingerprint.id == id && IsActive(experiments, was[id].fingerprint))
      && (id in now ==> now[id] == was[id])
    ensures exists keep :: |keep| == |s.order| && ApplySnapshot(s, experiments).order == Select(s.order, keep)
  {
    var was := AssignmentsOf(s, subject);
    if id in was { ActiveIsLast(experiments, was[id].fingerprint); }
    var keep := SurvivorsSelected(s, Active(experiments), s.order);
    hide Active, IsActive, Survivors, Select;
  }

  lemma {:induction false} SurvivorsSelected(s: State, active: map<Id, Experiment>, order: seq<Subject>)
    returns (keep: seq<bool>)
    ensures |keep| == |order| && Survivors(s, active, order) == Select(order, keep)
  {
    keep := [];
    if order != [] {
      var rest := SurvivorsSelected(s, active, order[1..]);
      keep := [Survives(s, active, order[0])] + rest;
      assert keep[1..] == rest;
    }
  }

  // The bound

  lemma RemovedStaysWellFormed(s: State)
    requires WellFormed(s) && s.order != []
    ensures WellFormed(RemoveOldest(s))
  {
    var t := RemoveOldest(s);
    forall x ensures x in t.order <==> x in t.known {
      if x in t.order {
        var i :| 0 <= i < |t.order| && t.order[i] == x;
        assert s.order[i + 1] == x && s.order[0] != x;
      }
      if x in t.known {
        var i :| 0 <= i < |s.order| && s.order[i] == x;
        assert t.order[i - 1] == x;
      }
    }
  }

  lemma {:induction false} EvictStaysWellFormed(s: State, max: nat)
    requires WellFormed(s)
    ensures WellFormed(Evict(s, max)) && (max > 0 ==> |Evict(s, max).order| < max)
    ensures forall x :: x in Evict(s, max).known ==> x in s.known && Evict(s, max).known[x] == s.known[x]
    decreases |s.order|
  {
    if s.order != [] && |s.order| >= max {
      RemovedStaysWellFormed(s);
      EvictStaysWellFormed(RemoveOldest(s), max);
    }
  }

  /** Recording keeps the map well formed and within the bound, and the subject it records has room. */
  lemma RecordStaysBounded(s: State, max: nat, subject: Subject, e: Experiment, variant: string)
    requires WellFormed(s) && max > 0
    ensures var t := Record(s, max, subject, e, variant);
      WellFormed(t) && (|s.order| <= max ==> |t.order| <= max) && e.id in AssignmentsOf(t, subject)
  {
    if subject !in s.known {
      EvictStaysWellFormed(s, max);
      var t := Evict(s, max);
      assert subject !in t.order;
      var u := AddSubject(s, max, subject);
      forall x ensures x in u.order <==> x in u.known {
        assert u.order[|t.order|] == subject;
      }
      hide Evict;
    }
  }

  lemma {:induction false} EvictDropsFirst(s: State, max: nat)
    requires WellFormed(s) && max > 0
    ensures Evict(s, max).order == s.order[if |s.order| < max then 0 else |s.order| + 1 - max..]
    decreases |s.order|
  {
    if |s.order| >= max {
      RemovedStaysWellFormed(s);
      EvictDropsFirst(RemoveOldest(s), max);
    }
  }

  /** A new subject takes the last place, and the `max - 1` newest of the others keep their places and assignments. */
  lemma NewestSubjectsStay(s: State, max: nat, subject: Subject, e: Experiment, variant: string)
    requires WellFormed(s) && max > 0 && subject !in s.known
    ensures var t, dropped := Record(s, max, subject, e, variant), if |s.order| < max then 0 else |s.order| + 1 - max;
      && t.order == s.order[dropped..] + [subject]
      && forall x :: x in s.order[dropped..] ==> AssignmentsOf(t, x) == AssignmentsOf(s, x)
  {
    EvictDropsFirst(s, max);
    EvictStaysWellFormed(s, max);
    assert subject !in s.order;
    hide Evict;
  }

  lemma {:induction false} SurvivorsInOrder(s: State, active: map<Id, Experiment>, order: seq<Subject>)
    requires Distinct(order)
    ensures var r := Survivors(s, active, order);
      && |r| <= |order|
      && (forall x :: x in r <==> x in order && Survives(s, active, x))
      && Distinct(r)
  {
    if order != [] {
      SurvivorsInOrder(s, active, order[1..]);
      var r := Survivors(s, active, order[1..]);
      hide Survives, Survivors;
      assert order == [order[0]] + order[1..];
      assert order[0] !in order[1..];
      assert order[0] !in r;
    }
  }

  lemma SnapshotStaysBounded(s: State, experiments: seq<Experiment>)
    requires WellFormed(s)
    ensures WellFormed(ApplySnapshot(s, experiments)) && |ApplySnapshot(s, experiments).order| <= |s.order|
  {
    SurvivorsInOrder(s, Active(experiments), s.order);
    hide Survives, Survivors;
  }

  lemma ResolveStaysBounded(s: State, max: nat, subject: Subject, list: seq<Experiment>, choices: seq<Choice>,
                            key: string)
    requires WellFormed(s) && |s.order| <= max && max > 0 && |list| == |choices|
    ensures var t := Resolve(s, max, subject, list, choices, key).0; WellFormed(t) && |t.order| <= max
  {
    var i := Deciding(list, choices, key);
    if i < |list| && choices[i].Picks? {
      RecordStaysBounded(s, max, subject, list[i], choices[i].variant);
      var t := Record(s, max, subject, list[i], choices[i].variant);
      hide Record;
      assert subject in t.known && subject in t.order;
    }
  }
}
