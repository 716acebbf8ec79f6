/** The JavaScript resolver: a Map from hashed subjects to assignments, in insertion order. */
module ExperimentResolver {
  import opened Wrappers
  import opened AssignmentState

  function Choices(list: seq<Experiment>, choose: (Experiment, string) -> Choice, subjectId: string): (c: seq<Choice>)
    ensures |c| == |list|
  {
    seq(|list|, i requires 0 <= i < |list| => choose(list[i], subjectId))
  }

  /** The loop over the experiments of a key has passed those before i. */
  lemma {:induction false} DecidingFrom(list: seq<Experiment>, choices: seq<Choice>, key: string, i: nat)
    requires |list| == |choices| && i <= |list|
    requires forall j :: 0 <= j < i ==> !choices[j].Fails? && !(choices[j].Picks? && key in choices[j].values)
    ensures Deciding(list, choices, key) >= i
    ensures i < |list| && (choices[i].Fails? || (choices[i].Picks? && key in choices[i].values)) ==>
      Deciding(list, choices, key) == i
  {
    if i > 0 {
      assert forall j :: 0 <= j < i - 1 ==> choices[1..][j] == choices[j + 1];
      DecidingFrom(list[1..], choices[1..], key, i - 1);
    }
  }

  method ActiveFingerprints(experiments: seq<Experiment>) returns (active: map<Id, Experiment>)
    ensures active == Active(experiments)
  {
    active := map[];
    for i := 0 to |experiments|
      invariant active == Active(experiments[..i])
    {
      assert experiments[..i + 1][..i] == experiments[..i];
      if experiments[i].enabled { active := active[experiments[i].id := experiments[i]]; }
    }
    assert experiments[..|experiments|] == experiments;
  }

  /** Deleting a key of an ordered map. */
  function Remove(order: seq<Subject>, x: Subject): seq<Subject> {
    if order == [] then [] else if order[0] == x then order[1..] else [order[0]] + Remove(order[1..], x)
  }

  lemma TailOfSum(a: seq<Subject>, b: seq<Subject>)
    requires a != []
    ensures (a + b)[0] == a[0] && (a + b)[1..] == a[1..] + b
  {
  }

  lemma {:induction false} RemoveAt(a: seq<Subject>, x: Subject, b: seq<Subject>)
    requires x !in a
    ensures Remove(a + [x] + b, x) == a + b
  {
    if a == [] {
      assert [] + [x] + b == [x] + b;
    } else {
      TailOfSum(a, [x]);
      TailOfSum(a + [x], b);
      TailOfSum(a, b);
      RemoveAt(a[1..], x, b);
    }
  }

  lemma {:induction false} SurvivorsAppend(s: State, active: map<Id, Experiment>, order: seq<Subject>, x: Subject)
    ensures Survivors(s, active, order + [x]) ==
      Survivors(s, active, order) + (if Survives(s, active, x) then [x] else [])
  {
    if order == [] {
      assert order + [x] == [x];
    } else {
      hide Survives;
      TailOfSum(order, [x]);
      SurvivorsAppend(s, active, order[1..], x);
    }
  }

  lemma {:induction false} SurvivorsAreFrom(s: State, active: map<Id, Experiment>, order: seq<Subject>, x: Subject)
    requires x in Survivors(s, active, order)
    ensures x in order
  {
    if x !in Survivors(s, active, order[1..]) {
      assert x == order[0];
    } else {
      SurvivorsAreFrom(s, active, order[1..], x);
    }
  }

  /** The subject visited next is not among those visited before. */
  lemma NextIsNew(s: State, active: map<Id, Experiment>, visited: seq<Subject>, i: nat)
    requires WellFormed(s) && visited == s.order && i < |visited|
    ensures visited[i] !in visited[..i] && visited[i] in s.known
    ensures visited[i] !in Survivors(s, active, visited[..i])
    ensures visited[..i + 1] == visited[..i] + [visited[i]] && visited[i..] == [visited[i]] + visited[i + 1..]
  {
    assert visited[i] in s.order;
    if visited[i] in Survivors(s, active, visited[..i]) {
      SurvivorsAreFrom(s, active, visited[..i], visited[i]);
    }
  }

  /** The loop of applySnapshot when it has visited the first i subjects: those deleted, and those filtered. */
  ghost predicate OrderVisited(s: State, active: map<Id, Experiment>, i: nat, order: seq<Subject>) {
    i <= |s.order| && order == Survivors(s, active, s.order[..i]) + s.order[i..]
  }

  ghost predicate KnownVisited(s: State, active: map<Id, Experiment>, done: set<Subject>,
                               known: map<Subject, Assignments>)
  {
    && (forall x :: x in known <==> x in s.known && (x in done ==> Survives(s, active, x)))
    && (forall x :: x in known ==> known[x] == if x in done then Kept(s.known[x], active) else s.known[x])
  }

  function Before(order: seq<Subject>, i: nat): set<Subject>
    requires i <= |order|
  {
    set x | x in order[..i]
  }

  ghost predicate Visited(s: State, active: map<Id, Experiment>, i: nat, order: seq<Subject>,
                          known: map<Subject, Assignments>)
  {
    OrderVisited(s, active, i, order) && KnownVisited(s, active, Before(s.order, i), known)
  }

  lemma OrderNext(s: State, active: map<Id, Experiment>, i: nat, order: seq<Subject>, x: Subject)
    requires WellFormed(s) && OrderVisited(s, active, i, order) && i < |s.order| && x == s.order[i]
    ensures OrderVisited(s, active, i + 1, if Survives(s, active, x) then order else Remove(order, x))
  {
    NextIsNew(s, active, s.order, i);
    SurvivorsAppend(s, active, s.order[..i], x);
    var a, b := Survivors(s, active, s.order[..i]), s.order[i + 1..];
    RemoveAt(a, x, b);
    hide *;
    assert a + ([x] + b) == a + [x] + b;
  }

  lemma KnownNext(s: State, active: map<Id, Experiment>, done: set<Subject>, known: map<Subject, Assignments>,
                  x: Subject)
    requires KnownVisited(s, active, done, known) && x in s.known && x !in done
    ensures x in known && known[x] == s.known[x]
    ensures KnownVisited(s, active, done + {x}, if Survives(s, active, x) then known[x := Kept(known[x], active)]
      else known - {x})
  {
    hide Survives, Kept;
  }

  lemma BeforeNext(s: State, active: map<Id, Experiment>, i: nat)
    requires WellFormed(s) && i < |s.order|
    ensures s.order[i] !in Before(s.order, i) && Before(s.order, i + 1) == Before(s.order, i) + {s.order[i]}
  {
    NextIsNew(s, active, s.order, i);
    hide WellFormed;
  }

  lemma VisitNext(s: State, active: map<Id, Experiment>, i: nat, order: seq<Subject>,
                  known: map<Subject, Assignments>, x: Subject)
    requires WellFormed(s) && Visited(s, active, i, order, known) && i < |s.order| && x == s.order[i]
    ensures x in known && known[x] == s.known[x]
    ensures var kept := Kept(known[x], active);
      if kept == map[] then Visited(s, active, i + 1, Remove(order, x), known - {x})
      else Visited(s, active, i + 1, order, known[x := kept])
  {
    assert x in s.order;
    OrderNext(s, active, i, order, x);
    BeforeNext(s, active, i);
    KnownNext(s, active, Before(s.order, i), known, x);
    hide Before, Survivors, OrderVisited, KnownVisited, Kept, Remove, WellFormed;
  }

  lemma NoneVisited(s: State, active: map<Id, Experiment>)
    ensures Visited(s, active, 0, s.order, s.known)
  {
  }

  lemma AllVisited(s: State, experiments: seq<Experiment>, order: seq<Subject>, known: map<Subject, Assignments>)
    requires WellFormed(s) && Visited(s, Active(experiments), |s.order|, order, known)
    ensures State(order, known) == ApplySnapshot(s, experiments)
  {
    var active := Active(experiments);
    assert s.order[..|s.order|] == s.order && s.order[|s.order|..] == [];
    assert forall x :: x in s.known ==> x in Before(s.order, |s.order|);
    hide Kept, Survivors, Active, Before, WellFormed;
    var t := ApplySnapshot(s, experiments);
    assert t.known.Keys == known.Keys;
  }

  class Resolver {
    const max: nat
    const hashSubject: string -> Subject
    var order: seq<Subject>
    var known: map<Subject, Assignments>
    var exposures: seq<Exposure>

    ghost function Abs(): State
      reads this
    {
      State(order, known)
    }

    constructor (max: nat, hashSubject: string -> Subject)
      ensures Abs() == EMPTY && exposures == [] && this.max == max && this.hashSubject == hashSubject
    {
      this.max, this.hashSubject := max, hashSubject;
      order, known, exposures := [], map[], [];
    }

    method RecordAssignment(subjectId: string, e: Experiment, variant: string) returns (assignment: Assignment)
      requires WellFormed(Abs()) && |order| <= max && max > 0
      modifies this`order, this`known
      ensures Abs() == Record(old(Abs()), max, hashSubject(subjectId), e, variant)
      ensures e.id in AssignmentsOf(Abs(), hashSubject(subjectId))
      ensures assignment == AssignmentsOf(Abs(), hashSubject(subjectId))[e.id]
    {
      var subject := hashSubject(subjectId);
      if subject !in known {
        ghost var start := Abs();
        while order != [] && |order| >= max
          invariant Evict(Abs(), max) == Evict(start, max)
        {
          var oldest := order[0];
          order, known := order[1..], known - {oldest};
        }
        order, known := order + [subject], known[subject := map[]];
      }
      var state := known[subject];
      if e.id !in state {
        state := state[e.id := NewAssignment(e, variant)];
      }
      known := known[subject := state];
      assignment := state[e.id];
    }

    method ExposeAssignment(subjectId: string, id: Id)
      requires id in AssignmentsOf(Abs(), hashSubject(subjectId))
      modifies this`known, this`exposures
      ensures Abs() == Expose(old(Abs()), hashSubject(subjectId), id)
      ensures exposures == old(exposures) + ExposureOf(old(Abs()), hashSubject(subjectId), id)
    {
      var subject := hashSubject(subjectId);
      var state := known[subject];
      var assignment := state[id];
      if assignment.exposed {
        assert state[id := assignment.(exposed := true)] == state;
        assert known[subject := state] == known;
        assert exposures == exposures + [];
        return;
      }
      known := known[subject := state[id := assignment.(exposed := true)]];
      exposures := exposures + [Exposure(id, assignment.variant, subject)];
    }

    method ResolveKey(key: string, subjectId: Option<string>, list: seq<Experiment>,
                      choose: (Experiment, string) -> Choice)
      returns (answer: Answer)
      requires WellFormed(Abs()) && |order| <= max && max > 0
      modifies this
      ensures subjectId.None? ==> Abs() == old(Abs()) && exposures == old(exposures) && answer == Remote
      ensures subjectId.Some? ==>
        var (s, a, e) := Resolve(old(Abs()), max, hashSubject(subjectId.value), list,
                                 Choices(list, choose, subjectId.value), key);
        Abs() == s && answer == a && exposures == old(exposures) + e
    {
      if subjectId.None? { return Remote; }
      ghost var choices := Choices(list, choose, subjectId.value);
      for i := 0 to |list|
        invariant Abs() == old(Abs()) && exposures == old(exposures)
        invariant forall j :: 0 <= j < i ==> !choices[j].Fails? && !(choices[j].Picks? && key in choices[j].values)
      {
        DecidingFrom(list, choices, key, i);
        var choice := choose(list[i], subjectId.value);
        if choice.Fails? { return Threw; }
        if choice.Picks? && key in choice.values {
          var assignment := RecordAssignment(subjectId.value, list[i], choice.variant);
          ExposeAssignment(subjectId.value, list[i].id);
          return Value(choice.values[key]);
        }
      }
      DecidingFrom(list, choices, key, |list|);
      return Remote;
    }

    method ApplyExperiments(experiments: seq<Experiment>)
      requires WellFormed(Abs())
      modifies this`order, this`known
      ensures Abs() == ApplySnapshot(old(Abs()), experiments)
    {
      var active := ActiveFingerprints(experiments);
      var visited := order;
      ghost var start := Abs();
      hide Visited, Kept, Active, WellFormed, Remove, ApplySnapshot;
      NoneVisited(start, active);
      for i := 0 to |visited|
        invariant Visited(start, active, i, order, known)
      {
        var subject := visited[i];
        VisitNext(start, active, i, order, known, subject);
        var kept := Kept(known[subject], active);
        if kept == map[] {
          order, known := Remove(order, subject), known - {subject};
        } else {
          known := known[subject := kept];
        }
      }
      AllVisited(start, experiments, order, known);
    }
  }
}
