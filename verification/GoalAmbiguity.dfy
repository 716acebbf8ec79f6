/**
 A goal is credited to the one exposed experiment that has it as goal metric. The server's validation makes
 sure that a client never finds two.
 */
module GoalAmbiguity {
  import opened Wrappers
  import opened Sequences
  import opened AssignmentState

  datatype Definition = Definition(experiment: Experiment, roles: seq<string>)

  predicate RoleSees(targets: seq<string>, role: string) { "*" in targets || role in targets }

  predicate RolesOverlap(a: seq<string>, b: seq<string>) {
    "*" in a || "*" in b || exists role :: role in a && role in b
  }

  predicate Clash(left: Definition, right: Definition) {
    && left.experiment.enabled && right.experiment.enabled
    && left.experiment.goalMetric == right.experiment.goalMetric
    && RolesOverlap(left.roles, right.roles)
  }

  /** No two enabled definitions share a goal metric and a role. */
  ghost predicate Unambiguous(definitions: seq<Definition>) {
    forall i, j :: 0 <= i < j < |definitions| ==> !Clash(definitions[i], definitions[j])
  }

  /** assertUnambiguousGoalMetrics: the pair that its error names, if any. */
  method AssertUnambiguousGoalMetrics(definitions: seq<Definition>) returns (clash: Option<(nat, nat)>)
    ensures clash.None? <==> Unambiguous(definitions)
    ensures clash.Some? ==>
      var (i, j) := clash.value; i < j < |definitions| && Clash(definitions[i], definitions[j])
  {
    for i := 0 to |definitions|
      invariant forall a, b :: 0 <= a < i && a < b < |definitions| ==> !Clash(definitions[a], definitions[b])
    {
      var left := definitions[i];
      if !left.experiment.enabled { continue; }
      for j := i + 1 to |definitions|
        invariant forall b :: i < b < j ==> !Clash(left, definitions[b])
      {
        var right := definitions[j];
        if !right.experiment.enabled || left.experiment.goalMetric != right.experiment.goalMetric { continue; }
        if RolesOverlap(left.roles, right.roles) { return Some((i, j)); }
      }
    }
    return None;
  }

  ghost predicate UniqueIds(definitions: seq<Definition>) {
    forall i, j :: 0 <= i < j < |definitions| ==> definitions[i].experiment.id != definitions[j].experiment.id
  }

  ghost predicate Accepted(definitions: seq<Definition>) { Unambiguous(definitions) && UniqueIds(definitions) }

  /** experimentsForRole */
  function ExperimentsForRole(definitions: seq<Definition>, role: string): seq<Experiment> {
    if definitions == [] then []
    else
      (if RoleSees(definitions[0].roles, role) then [definitions[0].experiment] else [])
        + ExperimentsForRole(definitions[1..], role)
  }

  lemma {:induction false} SeenByRole(definitions: seq<Definition>, role: string, e: Experiment)
    ensures e in ExperimentsForRole(definitions, role) <==>
      exists i :: 0 <= i < |definitions| && definitions[i].experiment == e && RoleSees(definitions[i].roles, role)
  {
    if definitions != [] {
      SeenByRole(definitions[1..], role, e);
      hide RoleSees, ExperimentsForRole;
      if i :| 0 <= i < |definitions| && definitions[i].experiment == e && RoleSees(definitions[i].roles, role) {
        if i > 0 { assert definitions[1..][i - 1] == definitions[i]; }
      }
      var rest := definitions[1..];
      if i :| 0 <= i < |rest| && rest[i].experiment == e && RoleSees(rest[i].roles, role) {
        assert definitions[i + 1] == definitions[1..][i];
      }
    }
  }

  // The client

  datatype Client = Client(state: State, experiments: seq<Experiment>)

  datatype Action =
    | Configure(definitions: seq<Definition>)
    | Lookup(max: nat, subject: Subject, list: seq<Experiment>, choices: seq<Choice>, key: string)

  /** Configurations have passed validation, and a key is only looked up in the enabled experiments of the client. */
  ghost predicate Possible(c: Client, a: Action) {
    match a
    case Configure(definitions) => Accepted(definitions)
    case Lookup(max, _, list, choices, _) =>
      max > 0 && |list| == |choices| && forall e :: e in list ==> e.enabled && e in c.experiments
  }

  function Step(c: Client, role: string, a: Action): Client
    requires a.Lookup? ==> |a.list| == |a.choices|
  {
    match a
    case Configure(definitions) =>
      var experiments := ExperimentsForRole(definitions, role);
      Client(ApplySnapshot(c.state, experiments), experiments)
    case Lookup(max, subject, list, choices, key) =>
      c.(state := Resolve(c.state, max, subject, list, choices, key).0)
  }

  ghost predicate IsRun(run: seq<Client>, actions: seq<Action>, role: string) {
    && |run| == |actions| + 1
    && run[0] == Client(EMPTY, [])
    && forall i :: 0 <= i < |actions| ==> Possible(run[i], actions[i]) && run[i + 1] == Step(run[i], role, actions[i])
  }

  /** An assignment was made from an enabled definition that the client still has. */
  ghost predicate IsCurrent(experiments: seq<Experiment>, id: Id, a: Assignment) {
    a.fingerprint in experiments && a.fingerprint.enabled && a.fingerprint.id == id
      && a.goalMetric == a.fingerprint.goalMetric
  }

  ghost predicate AllCurrent(experiments: seq<Experiment>, a: Assignments) {
    forall id :: id in a ==> IsCurrent(experiments, id, a[id])
  }

  ghost predicate FromValid(experiments: seq<Experiment>, role: string) {
    exists definitions :: Accepted(definitions) && experiments == ExperimentsForRole(definitions, role)
  }

  ghost predicate Inv(c: Client, role: string) {
    && WellFormed(c.state)
    && FromValid(c.experiments, role)
    && forall x :: x in c.state.known ==> AllCurrent(c.experiments, c.state.known[x])
  }

  lemma {:induction false} ActiveIsListed(experiments: seq<Experiment>, id: Id)
    requires id in Active(experiments)
    ensures Active(experiments)[id] in experiments && Active(experiments)[id].enabled
    ensures Active(experiments)[id].id == id
  {
    var n := |experiments| - 1;
    if !(experiments[n].enabled && experiments[n].id == id) {
      ActiveIsListed(experiments[..n], id);
    }
  }

  lemma KeptIsCurrent(old_: seq<Experiment>, a: Assignments, experiments: seq<Experiment>)
    requires AllCurrent(old_, a)
    ensures AllCurrent(experiments, Kept(a, Active(experiments)))
  {
    var kept := Kept(a, Active(experiments));
    forall id | id in kept ensures IsCurrent(experiments, id, kept[id]) {
      ActiveIsListed(experiments, id);
      assert IsCurrent(old_, id, a[id]);
    }
  }

  lemma ConfigureKeepsInv(c: Client, role: string, definitions: seq<Definition>)
    requires Inv(c, role) && Accepted(definitions)
    ensures Inv(Step(c, role, Configure(definitions)), role)
  {
    var experiments := ExperimentsForRole(definitions, role);
    var s := ApplySnapshot(c.state, experiments);
    SnapshotStaysBounded(c.state, experiments);
    forall x | x in s.known ensures AllCurrent(experiments, s.known[x]) {
      KeptIsCurrent(c.experiments, c.state.known[x], experiments);
    }
  }

  lemma {:induction false} RecordIsCurrent(c: Client, max: nat, subject: Subject, e: Experiment, variant: string)
    requires WellFormed(c.state) && e in c.experiments && e.enabled
    requires forall x :: x in c.state.known ==> AllCurrent(c.experiments, c.state.known[x])
    ensures var t := Record(c.state, max, subject, e, variant);
      && (forall x :: x in t.known ==> AllCurrent(c.experiments, t.known[x]))
      && e.id in AssignmentsOf(t, subject)
  {
    EvictStaysWellFormed(c.state, max);
    hide Evict, WellFormed;
    var t := AddSubject(c.state, max, subject);
    assert forall x :: x in t.known ==> AllCurrent(c.experiments, t.known[x]);
    assert IsCurrent(c.experiments, e.id, NewAssignment(e, variant));
    hide AddSubject, IsCurrent;
  }

  lemma ExposeIsCurrent(experiments: seq<Experiment>, s: State, subject: Subject, id: Id)
    requires id in AssignmentsOf(s, subject) && forall x :: x in s.known ==> AllCurrent(experiments, s.known[x])
    ensures forall x :: x in Expose(s, subject, id).known ==> AllCurrent(experiments, Expose(s, subject, id).known[x])
  {
    var a := AssignmentsOf(s, subject);
    assert IsCurrent(experiments, id, a[id]);
    assert AllCurrent(experiments, a[id := a[id].(exposed := true)]);
    hide AllCurrent;
  }

  lemma LookupKeepsInv(c: Client, role: string, max: nat, subject: Subject, list: seq<Experiment>,
                       choices: seq<Choice>, key: string)
    requires Inv(c, role) && Possible(c, Lookup(max, subject, list, choices, key))
    ensures Inv(Step(c, role, Lookup(max, subject, list, choices, key)), role)
  {
    var i := Deciding(list, choices, key);
    if i < |list| && choices[i].Picks? && key in choices[i].values {
      var e, variant := list[i], choices[i].variant;
      var t := Record(c.state, max, subject, e, variant);
      RecordIsCurrent(c, max, subject, e, variant);
      RecordStaysBounded(c.state, max, subject, e, variant);
      hide Record, AllCurrent, FromValid;
      ExposeIsCurrent(c.experiments, t, subject, e.id);
      assert subject in t.known;
    }
  }

  lemma {:induction false} RunInv(run: seq<Client>, actions: seq<Action>, role: string, i: nat)
    requires IsRun(run, actions, role) && i < |run|
    ensures Inv(run[i], role)
  {
    if i == 0 {
      assert Accepted([]) && ExperimentsForRole([], role) == [];
    } else {
      RunInv(run, actions, role, i - 1);
      assert Possible(run[i - 1], actions[i - 1]) && run[i] == Step(run[i - 1], role, actions[i - 1]);
      hide Inv;
      match actions[i - 1]
      case Configure(definitions) => ConfigureKeepsInv(run[i - 1], role, definitions);
      case Lookup(max, subject, list, choices, key) => LookupKeepsInv(run[i - 1], role, max, subject, list, choices,
                                                                      key);
    }
  }

  // Crediting a goal

  predicate Matches(a: Assignments, goal: string, id: Id) { id in a && a[id].exposed && a[id].goalMetric == goal }

  datatype Credit = NoCredit | Credited(id: Id) | Ambiguous

  /** exposedAssignmentForGoal: its error exactly when two exposed assignments have the goal metric. */
  method ExposedAssignmentForGoal(a: Assignments, goal: string) returns (credit: Credit)
    ensures credit == NoCredit <==> forall id :: !Matches(a, goal, id)
    ensures credit == Ambiguous <==> exists x, y :: x != y && Matches(a, goal, x) && Matches(a, goal, y)
    ensures credit.Credited? ==> Matches(a, goal, credit.id)
  {
    var todo := a.Keys;
    credit := NoCredit;
    while todo != {}
      invariant todo <= a.Keys
      invariant credit == NoCredit ==> forall id :: id in a && id !in todo ==> !Matches(a, goal, id)
      invariant credit.Credited? ==> Matches(a, goal, credit.id) && credit.id !in todo
      invariant credit.Credited? ==> forall id :: id in a && id !in todo && id != credit.id ==> !Matches(a, goal, id)
      invariant credit == Ambiguous ==> exists x, y :: x != y && Matches(a, goal, x) && Matches(a, goal, y)
      decreases |todo|
    {
      var id :| id in todo;
      if Matches(a, goal, id) {
        credit := if credit == NoCredit then Credited(id) else Ambiguous;
      }
      todo := todo - {id};
    }
  }

  lemma TwoVisible(definitions: seq<Definition>, role: string, x: Experiment, y: Experiment)
    requires Accepted(definitions) && x.enabled && y.enabled && x.goalMetric == y.goalMetric
    requires x in ExperimentsForRole(definitions, role) && y in ExperimentsForRole(definitions, role)
    ensures x.id == y.id
  {
    SeenByRole(definitions, role, x);
    SeenByRole(definitions, role, y);
    var i :| 0 <= i < |definitions| && definitions[i].experiment == x && RoleSees(definitions[i].roles, role);
    var j :| 0 <= j < |definitions| && definitions[j].experiment == y && RoleSees(definitions[j].roles, role);
    hide ExperimentsForRole;
    assert RolesOverlap(definitions[i].roles, definitions[j].roles)
      && RolesOverlap(definitions[j].roles, definitions[i].roles);
    hide RolesOverlap, RoleSees;
    assert !(i < j);
    assert !(j < i);
  }

  /** In every run of a client with a fixed role, a goal matches at most one exposed experiment. */
  lemma GoalsAreUnambiguous(run: seq<Client>, actions: seq<Action>, role: string, i: nat, subject: Subject,
                            goal: string, x: Id, y: Id)
    requires IsRun(run, actions, role) && i < |run|
    requires Matches(AssignmentsOf(run[i].state, subject), goal, x)
    requires Matches(AssignmentsOf(run[i].state, subject), goal, y)
    ensures x == y
  {
    RunInv(run, actions, role, i);
    var a := AssignmentsOf(run[i].state, subject);
    assert AllCurrent(run[i].experiments, a);
    assert IsCurrent(run[i].experiments, x, a[x]) && IsCurrent(run[i].experiments, y, a[y]);
    var definitions :| Accepted(definitions) && run[i].experiments == ExperimentsForRole(definitions, role);
    hide Accepted;
    TwoVisible(definitions, role, a[x].fingerprint, a[y].fingerprint);
  }

  /** A subject looks up a key of one experiment and gets its variant. */
  function OneLookup(max: nat, subject: Subject, e: Experiment): Action {
    Lookup(max, subject, [e], [Picks("a", map["k" := "v"])], "k")
  }

  function AfterLookup(c: Client, role: string, max: nat, subject: Subject, e: Experiment): Client {
    Step(c, role, OneLookup(max, subject, e))
  }

  lemma LookupExposes(c: Client, role: string, max: nat, subject: Subject, e: Experiment)
    requires e.id !in AssignmentsOf(c.state, subject) && (subject in c.state.known || |c.state.order| < max)
    ensures var a := AssignmentsOf(AfterLookup(c, role, max, subject, e).state, subject);
      a == AssignmentsOf(c.state, subject)[e.id := NewAssignment(e, "a").(exposed := true)]
    ensures subject in AfterLookup(c, role, max, subject, e).state.known
  {
    assert Deciding([e], [Picks("a", map["k" := "v"])], "k") == 0;
    var t := Record(c.state, max, subject, e, "a");
    assert Evict(c.state, max) == c.state || subject in c.state.known;
    assert AssignmentsOf(t, subject) == AssignmentsOf(c.state, subject)[e.id := NewAssignment(e, "a")];
    hide Record;
  }

  /** Validation is needed: a client that sees two enabled experiments with one goal metric can come to expose both. */
  lemma ClashMisleads(definitions: seq<Definition>, role: string, max: nat, subject: Subject, x: Experiment,
                      y: Experiment)
    requires max > 0 && x.enabled && y.enabled && x.goalMetric == y.goalMetric && x.id != y.id
    requires x in ExperimentsForRole(definitions, role) && y in ExperimentsForRole(definitions, role)
    ensures var c0 := Step(Client(EMPTY, []), role, Configure(definitions));
      var c1 := AfterLookup(c0, role, max, subject, x);
      var a := AssignmentsOf(AfterLookup(c1, role, max, subject, y).state, subject);
      && Possible(c0, OneLookup(max, subject, x)) && Possible(c1, OneLookup(max, subject, y))
      && Matches(a, x.goalMetric, x.id) && Matches(a, x.goalMetric, y.id)
  {
    var c0 := Step(Client(EMPTY, []), role, Configure(definitions));
    assert c0.state == EMPTY;
    LookupExposes(c0, role, max, subject, x);
    LookupExposes(AfterLookup(c0, role, max, subject, x), role, max, subject, y);
    hide AssignmentsOf, Resolve;
  }
}
