/**
 The journal of control changes: commits and rollbacks with an expected version, each stored together with
 its inverse, of which the newest `capacity` are retained.
 */
module MutationJournal {
  import opened Wrappers
  import Sequences
  import opened ControlChange
  import opened ControlDifference
  import opened ControlPaths
  import opened ControlReplay

  datatype Entry = Entry(id: string, previousVersion: nat, newVersion: nat, forward: seq<Operation>,
                         inverse: seq<Operation>,
                         rolledBack: Option<string>)

  datatype Snapshot = Snapshot(version: nat, state: Json, changes: seq<Entry>)

  datatype JournalError =
    | VersionConflict(currentVersion: nat)
    | Rejected(change: ChangeError)
    | InvalidState
    | OverReserve
    | ProhibitedField
    | NotRetained
    | BadId

  /**
   What the journal is configured with: the project validators as predicates on the next state, the check for
   prohibited audit fields as a predicate on operations, and the number of retained entries.
   */
  datatype Rules = Rules(valid: Json -> bool, withinReserve: Json -> bool, auditSafe: seq<Operation> -> bool,
                         capacity: nat)

  function RetainedChanges(changes: seq<Entry>, entry: Entry, capacity: nat): seq<Entry> {
    var next := changes + [entry];
    if |next| > capacity then next[|next| - capacity..] else next
  }

  predicate HasId(changes: seq<Entry>, id: string) { exists i :: 0 <= i < |changes| && changes[i].id == id }

  /** applyChange as ControlService configures it: apply, then validate the result. */
  function Advance(rules: Rules, state: Json, ops: seq<Operation>): Result<Json, JournalError> {
    match ApplyChange(state, ops)
    case Err(e) => Err(Rejected(e))
    case Ok(next) => if rules.valid(next) then Ok(next) else Err(InvalidState)
  }

  /** The common body of the two transactions: the next snapshot, or the reason there is none. */
  function Append(rules: Rules, current: Snapshot, forward: seq<Operation>, inverse: seq<Operation>, id: string,
                  rolledBack: Option<string>): Result<Snapshot, JournalError>
  {
    match Advance(rules, current.state, forward)
    case Err(e) => Err(e)
    case Ok(next) =>
      if id == "" || HasId(current.changes, id) then Err(BadId)
      else Ok(Snapshot(current.version + 1, next,
                       RetainedChanges(current.changes,
                                       Entry(id, current.version, current.version + 1, forward, inverse, rolledBack),
                                       rules.capacity)))
  }

  function Commit(rules: Rules, current: Snapshot, expected: nat, forward: seq<Operation>, inverse: seq<Operation>,
                  id: string)
    : Result<Snapshot, JournalError>
  {
    if !rules.auditSafe(forward) || !rules.auditSafe(inverse) then Err(ProhibitedField)
    else if current.version != expected then Err(VersionConflict(current.version))
    else Append(rules, current, forward, inverse, id, None)
  }

  function FindId(changes: seq<Entry>, id: string): (r: Option<nat>)
    ensures r.Some? ==> r.value < |changes| && changes[r.value].id == id
    ensures r.Some? <==> HasId(changes, id)
  {
    if changes == [] then None
    else if changes[0].id == id then Some(0)
    else match FindId(changes[1..], id)
      case Some(i) => Some(i + 1)
      case None => assert forall i :: 1 <= i < |changes| ==> changes[i] == changes[1..][i - 1]; None
  }

  predicate ValidRetained(rules: Rules, entry: Entry) {
    entry.newVersion == entry.previousVersion + 1 && rules.auditSafe(entry.forward) && rules.auditSafe(entry.inverse)
  }

  function Rollback(rules: Rules, current: Snapshot, expected: nat, changeId: string, id: string)
    : Result<Snapshot, JournalError>
  {
    if current.version != expected then Err(VersionConflict(current.version))
    else match FindId(current.changes, changeId)
      case None => Err(NotRetained)
      case Some(i) =>
        var target := current.changes[i];
        if !ValidRetained(rules, target) then Err(ProhibitedField)
        else Append(rules, current, target.inverse, target.forward, id, Some(changeId))
  }

  /** ControlService._mutate: diff both ways against the state the caller edited, then commit. */
  function Mutate(rules: Rules, current: Snapshot, expected: nat, after: Json, id: string)
    : Result<Snapshot, JournalError>
  {
    if !rules.valid(after) then Err(InvalidState)
    else if !rules.withinReserve(after) then Err(OverReserve)
    else match Diff(current.state, after)
      case Err(e) => Err(Rejected(e))
      case Ok(forward) =>
        match Diff(after, current.state)
        case Err(e) => Err(Rejected(e))
        case Ok(inverse) => Commit(rules, current, expected, forward, inverse, id)
  }

  /** The repository the journal writes to: a failed transaction leaves it as it was. */
  class Journal {
    const rules: Rules
    var stored: Snapshot

    constructor (rules: Rules, initial: Json)
      ensures this.rules == rules && stored == Snapshot(0, initial, [])
    {
      this.rules := rules;
      stored := Snapshot(0, initial, []);
    }

    method CommitChange(expected: nat, forward: seq<Operation>, inverse: seq<Operation>, id: string)
      returns (r: Result<nat, JournalError>)
      modifies this
      ensures match Commit(rules, old(stored), expected, forward, inverse, id)
        case Ok(next) => stored == next && r == Ok(next.version)
        case Err(e) => stored == old(stored) && r == Err(e)
    {
      if !rules.auditSafe(forward) || !rules.auditSafe(inverse) { return Err(ProhibitedField); }
      if stored.version != expected { return Err(VersionConflict(stored.version)); }
      r := Transact(forward, inverse, id, None);
    }

    method RollbackChange(expected: nat, changeId: string, id: string) returns (r: Result<nat, JournalError>)
      modifies this
      ensures match Rollback(rules, old(stored), expected, changeId, id)
        case Ok(next) => stored == next && r == Ok(next.version)
        case Err(e) => stored == old(stored) && r == Err(e)
    {
      if stored.version != expected { return Err(VersionConflict(stored.version)); }
      var found := FindId(stored.changes, changeId);
      if found.None? { return Err(NotRetained); }
      var target := stored.changes[found.value];
      if !ValidRetained(rules, target) { return Err(ProhibitedField); }
      r := Transact(target.inverse, target.forward, id, Some(changeId));
    }

    method MutateState(expected: nat, after: Json, id: string) returns (r: Result<nat, JournalError>)
      modifies this
      ensures match Mutate(rules, old(stored), expected, after, id)
        case Ok(next) => stored == next && r == Ok(next.version)
        case Err(e) => stored == old(stored) && r == Err(e)
    {
      if !rules.valid(after) { return Err(InvalidState); }
      if !rules.withinReserve(after) { return Err(OverReserve); }
      var forward := DiffControlState(stored.state, after);
      if forward.Err? { return Err(Rejected(forward.error)); }
      var inverse := DiffControlState(after, stored.state);
      if inverse.Err? { return Err(Rejected(inverse.error)); }
      r := CommitChange(expected, forward.value, inverse.value, id);
    }

    method Transact(forward: seq<Operation>, inverse: seq<Operation>, id: string, rolledBack: Option<string>)
      returns (r: Result<nat, JournalError>)
      modifies this
      ensures match Append(rules, old(stored), forward, inverse, id, rolledBack)
        case Ok(next) => stored == next && r == Ok(next.version)
        case Err(e) => stored == old(stored) && r == Err(e)
    {
      var next := ApplyControlStateChange(stored.state, forward);
      if next.Err? { return Err(Rejected(next.error)); }
      if !rules.valid(next.value) { return Err(InvalidState); }
      if id == "" || HasId(stored.changes, id) { return Err(BadId); }
      var entry := Entry(id, stored.version, stored.version + 1, forward, inverse, rolledBack);
      var changes := stored.changes + [entry];
      if |changes| > rules.capacity {
        changes := changes[|changes| - rules.capacity..];
      }
      stored := Snapshot(stored.version + 1, next.value, changes);
      r := Ok(stored.version);
    }
  }

  // Runs of the journal

  datatype Request =
    | MutateTo(expected: nat, after: Json, id: string)
    | RollbackOf(expected: nat, changeId: string, id: string)

  function Serve(rules: Rules, current: Snapshot, request: Request): Result<Snapshot, JournalError> {
    match request
    case MutateTo(expected, after, id) => Mutate(rules, current, expected, after, id)
    case RollbackOf(expected, changeId, id) => Rollback(rules, current, expected, changeId, id)
  }

  function Run(rules: Rules, initial: Json, requests: seq<Request>): Snapshot {
    if requests == [] then Snapshot(0, initial, [])
    else
      var before := Run(rules, initial, requests[..|requests| - 1]);
      match Serve(rules, before, requests[|requests| - 1])
      case Ok(next) => next
      case Err(_) => before
  }

  function Replay(state: Json, entries: seq<Entry>): Result<Json, ChangeError>
    decreases |entries|
  {
    if entries == [] then Ok(state)
    else match ApplyChange(state, entries[0].forward)
      case Ok(next) => Replay(next, entries[1..])
      case Err(e) => Err(e)
  }

  /** `history` holds the states between the entries of `changes`, oldest first; the newest has `version`. */
  ghost predicate Chain(rules: Rules, changes: seq<Entry>, version: nat, history: seq<Json>) {
    && |changes| <= version && |history| == |changes| + 1
    && (forall i :: 0 <= i < |history| ==> history[i].Object?)
    && (forall i, j :: 0 <= i < j < |changes| ==> changes[i].id != changes[j].id)
    && (forall i :: 0 <= i < |changes| ==>
       SoundEntry(rules, changes[i], version - |changes| + i, history[i], history[i + 1]))
  }

  ghost predicate SoundEntry(rules: Rules, e: Entry, version: nat, before: Json, after: Json) {
    && e.previousVersion == version && e.newVersion == version + 1
    && ApplyChange(before, e.forward) == Ok(after)
    && AllSafe(e.forward) && AllSafe(e.inverse) && rules.auditSafe(e.forward) && rules.auditSafe(e.inverse)
    && Mirrored(e.forward, e.inverse)
    && (e.rolledBack.None? ==> Diff(before, after) == Ok(e.forward) && Diff(after, before) == Ok(e.inverse))
  }

  /** The two directions of an entry write along the same paths, and these lie apart. */
  ghost predicate Mirrored(forward: seq<Operation>, inverse: seq<Operation>) {
    PathsOf(forward) == PathsOf(inverse) && Apart(PathsOf(forward))
  }

  lemma DiffsMirror(x: Json, y: Json)
    requires Diff(x, y).Ok? && Diff(y, x).Ok?
    ensures Mirrored(Diff(x, y).value, Diff(y, x).value)
  {
    SamePaths(x, y);
    CollectApart(x, y);
  }

  /** How many entries stay: all of them until the journal is full, then the newest `capacity`. */
  function Kept(capacity: nat, version: nat): nat { if version < capacity then version else capacity }

  ghost predicate Sound(rules: Rules, s: Snapshot, history: seq<Json>) {
    && |s.changes| == Kept(rules.capacity, s.version) && Chain(rules, s.changes, s.version, history)
    && history[|s.changes|] == s.state
  }

  lemma ExtendChain(rules: Rules, changes: seq<Entry>, version: nat, history: seq<Json>, entry: Entry, next: Json)
    requires Chain(rules, changes, version, history) && next.Object?
    requires SoundEntry(rules, entry, version, history[|changes|], next) && !HasId(changes, entry.id)
    ensures Chain(rules, changes + [entry], version + 1, history + [next])
  {
    hide SoundEntry;
    var all, states := changes + [entry], history + [next];
    forall i | 0 <= i < |all|
      ensures SoundEntry(rules, all[i], version + 1 - |all| + i, states[i], states[i + 1]) {
      if i < |changes| {
        assert SoundEntry(rules, changes[i], version - |changes| + i, history[i], history[i + 1]);
      }
    }
  }

  lemma TrimChain(rules: Rules, changes: seq<Entry>, version: nat, history: seq<Json>, drop: nat)
    requires Chain(rules, changes, version, history) && drop <= |changes|
    ensures Chain(rules, changes[drop..], version, history[drop..])
  {
    hide SoundEntry;
    forall i | 0 <= i < |changes[drop..]|
      ensures SoundEntry(rules, changes[drop..][i], version - |changes[drop..]| + i, history[drop..][i],
                         history[drop..][i + 1]) {
      assert SoundEntry(rules, changes[drop + i], version - |changes| + (drop + i), history[drop + i],
                        history[drop + i + 1]);
    }
  }

  /** The entry that Append adds is sound, whatever it drops. */
  lemma NewEntrySound(rules: Rules, s: Snapshot, history: seq<Json>, forward: seq<Operation>, inverse: seq<Operation>,
                      id: string,
                      rolledBack: Option<string>)
    requires rules.capacity >= 1 && Sound(rules, s, history)
    requires AllSafe(forward) && AllSafe(inverse) && rules.auditSafe(forward) && rules.auditSafe(inverse)
    requires Mirrored(forward, inverse)
    requires Append(rules, s, forward, inverse, id, rolledBack).Ok?
    requires rolledBack.None? ==>
      exists after :: Diff(s.state, after) == Ok(forward) && Diff(after, s.state) == Ok(inverse)
    ensures var entry := Entry(id, s.version, s.version + 1, forward, inverse, rolledBack);
      SoundEntry(rules, entry, s.version, s.state, Append(rules, s, forward, inverse, id, rolledBack).value.state)
  {
    if rolledBack.None? {
      var after :| Diff(s.state, after) == Ok(forward) && Diff(after, s.state) == Ok(inverse);
      DiffRoundTrip(s.state, after);
    }
    hide Chain, Diff, Mirrored;
    assert ApplyChange(s.state, forward) == Ok(Append(rules, s, forward, inverse, id, rolledBack).value.state);
  }

  lemma AppendShape(rules: Rules, s: Snapshot, forward: seq<Operation>, inverse: seq<Operation>, id: string,
                    rolledBack: Option<string>)
    requires |s.changes| == Kept(rules.capacity, s.version)
    requires Append(rules, s, forward, inverse, id, rolledBack).Ok?
    ensures var next := Append(rules, s, forward, inverse, id, rolledBack).value;
      var entry := Entry(id, s.version, s.version + 1, forward, inverse, rolledBack);
      && next.version == s.version + 1 && next.state.Object? && !HasId(s.changes, id)
      && |next.changes| == Kept(rules.capacity, next.version) && |next.changes| <= |s.changes| + 1
      && next.changes == (s.changes + [entry])[|s.changes| + 1 - |next.changes|..]
  {
    hide HasId, ApplyAll;
  }

  lemma AppendSound(rules: Rules, s: Snapshot, history: seq<Json>, forward: seq<Operation>, inverse: seq<Operation>,
                    id: string, rolledBack: Option<string>) returns (history': seq<Json>)
    requires rules.capacity >= 1 && Sound(rules, s, history)
    requires AllSafe(forward) && AllSafe(inverse) && rules.auditSafe(forward) && rules.auditSafe(inverse)
    requires Mirrored(forward, inverse)
    requires Append(rules, s, forward, inverse, id, rolledBack).Ok?
    requires rolledBack.None? ==>
      exists after :: Diff(s.state, after) == Ok(forward) && Diff(after, s.state) == Ok(inverse)
    ensures var next := Append(rules, s, forward, inverse, id, rolledBack).value;
      && Sound(rules, next, history') && |next.changes| <= |s.changes| + 1
      && history' == (history + [next.state])[|s.changes| + 1 - |next.changes|..]
  {
    NewEntrySound(rules, s, history, forward, inverse, id, rolledBack);
    AppendShape(rules, s, forward, inverse, id, rolledBack);
    var next := Append(rules, s, forward, inverse, id, rolledBack).value;
    var entry := Entry(id, s.version, s.version + 1, forward, inverse, rolledBack);
    hide *;
    AppendToChain(rules, s, history, entry, next);
    history' := (history + [next.state])[|s.changes| + 1 - |next.changes|..];
  }

  lemma AppendToChain(rules: Rules, s: Snapshot, history: seq<Json>, entry: Entry, next: Snapshot)
    requires Sound(rules, s, history) && next.state.Object? && !HasId(s.changes, entry.id)
    requires SoundEntry(rules, entry, s.version, s.state, next.state)
    requires next.version == s.version + 1 && |next.changes| == Kept(rules.capacity, next.version)
    requires |next.changes| <= |s.changes| + 1
    requires next.changes == (s.changes + [entry])[|s.changes| + 1 - |next.changes|..]
    ensures |history| == |s.changes| + 1
    ensures Sound(rules, next, (history + [next.state])[|s.changes| + 1 - |next.changes|..])
  {
    hide SoundEntry, HasId;
    var drop := |s.changes| + 1 - |next.changes|;
    assert |history| == |s.changes| + 1;
    ExtendChain(rules, s.changes, s.version, history, entry, next.state);
    TrimChain(rules, s.changes + [entry], s.version + 1, history + [next.state], drop);
  }

  lemma ServeSound(rules: Rules, s: Snapshot, history: seq<Json>, request: Request) returns (history': seq<Json>)
    requires rules.capacity >= 1 && Sound(rules, s, history) && Serve(rules, s, request).Ok?
    ensures var next := Serve(rules, s, request).value;
      && Sound(rules, next, history') && next.version == s.version + 1 && |next.changes| <= |s.changes| + 1
      && history' == (history + [next.state])[|s.changes| + 1 - |next.changes|..]
  {
    match request
    case MutateTo(expected, after, id) =>
      var forward, inverse := Diff(s.state, after).value, Diff(after, s.state).value;
      DiffsMirror(s.state, after);
      history' := AppendSound(rules, s, history, forward, inverse, id, None);
    case RollbackOf(expected, changeId, id) =>
      var i := FindId(s.changes, changeId).value;
      assert SoundEntry(rules, s.changes[i], s.version - |s.changes| + i, history[i], history[i + 1]);
      history' := AppendSound(rules, s, history, s.changes[i].inverse, s.changes[i].forward, id, Some(changeId));
  }

  // The states a run goes through

  /** The state the run had when it last had at most this version. */
  function StateAt(rules: Rules, initial: Json, requests: seq<Request>, version: nat): Json {
    var s := Run(rules, initial, requests);
    if requests == [] || s.version <= version then s.state
    else StateAt(rules, initial, requests[..|requests| - 1], version)
  }

  lemma ServeCounts(rules: Rules, s: Snapshot, request: Request)
    requires Serve(rules, s, request).Ok?
    ensures Serve(rules, s, request).value.version == s.version + 1
  {
    hide ApplyChange, Diff, HasId, FindId, RetainedChanges;
  }

  lemma {:induction false} VersionsGrow(rules: Rules, initial: Json, requests: seq<Request>, n: nat)
    requires n <= |requests|
    ensures Run(rules, initial, requests[..n]).version <= Run(rules, initial, requests).version
    ensures Run(rules, initial, requests[..n]).version == Run(rules, initial, requests).version ==>
      Run(rules, initial, requests[..n]) == Run(rules, initial, requests)
    decreases |requests|
  {
    if n == |requests| {
      assert requests[..n] == requests;
    } else {
      var last := |requests| - 1;
      assert requests[..last][..n] == requests[..n];
      VersionsGrow(rules, initial, requests[..last], n);
      var s := Run(rules, initial, requests[..last]);
      if Serve(rules, s, requests[last]).Ok? { ServeCounts(rules, s, requests[last]); }
      hide Serve;
    }
  }

  /** Whenever the run had a version, it had the one state that StateAt names for it. */
  lemma {:induction false} StateAtIsReached(rules: Rules, initial: Json, requests: seq<Request>, n: nat)
    requires n <= |requests|
    ensures var s := Run(rules, initial, requests[..n]); StateAt(rules, initial, requests, s.version) == s.state
    decreases |requests|
  {
    VersionsGrow(rules, initial, requests, n);
    if n == |requests| {
      assert requests[..n] == requests;
    } else if Run(rules, initial, requests[..n]).version < Run(rules, initial, requests).version {
      assert requests[..|requests| - 1][..n] == requests[..n];
      StateAtIsReached(rules, initial, requests[..|requests| - 1], n);
    }
  }

  /** `history` holds the states the run had from the version before its oldest retained entry on. */
  ghost predicate OfRun(rules: Rules, initial: Json, requests: seq<Request>, s: Snapshot, history: seq<Json>) {
    && |s.changes| <= s.version && |history| == |s.changes| + 1
    && forall m :: 0 <= m < |history| ==> history[m] == StateAt(rules, initial, requests, s.version - |s.changes| + m)
  }

  lemma OfRunStep(rules: Rules, initial: Json, requests: seq<Request>, s: Snapshot, history: seq<Json>,
                  history': seq<Json>)
    requires requests != [] && s == Run(rules, initial, requests[..|requests| - 1])
    requires OfRun(rules, initial, requests[..|requests| - 1], s, history)
    requires var next := Run(rules, initial, requests);
      && next.version == s.version + 1 && |next.changes| <= |s.changes| + 1
      && history' == (history + [next.state])[|s.changes| + 1 - |next.changes|..]
    ensures OfRun(rules, initial, requests, Run(rules, initial, requests), history')
  {
    hide Run;
    var next := Run(rules, initial, requests);
    var drop := |s.changes| + 1 - |next.changes|;
    forall m | 0 <= m < |history'|
      ensures history'[m] == StateAt(rules, initial, requests, next.version - |next.changes| + m)
    {
      if drop + m < |history| {
        assert history'[m] == history[drop + m];
      }
    }
  }

  lemma StateAtStay(rules: Rules, initial: Json, requests: seq<Request>, version: nat)
    requires requests != [] && Run(rules, initial, requests) == Run(rules, initial, requests[..|requests| - 1])
    ensures StateAt(rules, initial, requests, version) == StateAt(rules, initial, requests[..|requests| - 1], version)
  {
    hide Run;
  }

  lemma OfRunStay(rules: Rules, initial: Json, requests: seq<Request>, earlier: seq<Request>, s: Snapshot,
                  history: seq<Json>)
    requires OfRun(rules, initial, earlier, s, history)
    requires forall v :: StateAt(rules, initial, requests, v) == StateAt(rules, initial, earlier, v)
    ensures OfRun(rules, initial, requests, s, history)
  {
    hide StateAt;
  }

  lemma {:induction false} RunSound(rules: Rules, initial: Json, requests: seq<Request>) returns (history: seq<Json>)
    requires rules.capacity >= 1 && initial.Object?
    ensures Sound(rules, Run(rules, initial, requests), history)
    ensures OfRun(rules, initial, requests, Run(rules, initial, requests), history)
    decreases |requests|
  {
    if requests == [] {
      history := [initial];
    } else {
      var last := |requests| - 1;
      history := RunSound(rules, initial, requests[..last]);
      var before := Run(rules, initial, requests[..last]);
      if Serve(rules, before, requests[last]).Ok? {
        var states := history;
        history := ServeSound(rules, before, states, requests[last]);
        hide Serve, Sound, OfRun;
        OfRunStep(rules, initial, requests, before, states, history);
      } else {
        hide Sound, OfRun, Serve;
        forall v ensures StateAt(rules, initial, requests, v) == StateAt(rules, initial, requests[..last], v) {
          StateAtStay(rules, initial, requests, v);
        }
        OfRunStay(rules, initial, requests, requests[..last], before, history);
      }
    }
  }

  lemma {:induction false} ReplayChain(rules: Rules, changes: seq<Entry>, version: nat, history: seq<Json>, i: nat)
    requires Chain(rules, changes, version, history) && i <= |changes|
    ensures Replay(history[i], changes[i..]) == Ok(history[|changes|])
    decreases |changes| - i
  {
    if i < |changes| {
      hide ApplyChange, Diff, AllSafe;
      ReplayChain(rules, changes, version, history, i + 1);
      assert changes[i..][0] == changes[i] && changes[i..][1..] == changes[i + 1..];
      assert SoundEntry(rules, changes[i], version - |changes| + i, history[i], history[i + 1]);
    }
  }

  lemma EntryVersions(rules: Rules, entry: Entry, version: nat, before: Json, after: Json)
    requires SoundEntry(rules, entry, version, before, after)
    ensures entry.previousVersion == version && entry.newVersion == version + 1
  {
  }

  lemma RetainedVersions(rules: Rules, s: Snapshot, history: seq<Json>)
    requires Sound(rules, s, history)
    ensures forall i :: 0 <= i < |s.changes| ==>
      && s.changes[i].previousVersion == s.version - |s.changes| + i
      && s.changes[i].newVersion == s.changes[i].previousVersion + 1
    ensures |s.changes| == Kept(rules.capacity, s.version) <= s.version
    ensures forall i, j :: 0 <= i < j < |s.changes| ==> s.changes[i].id != s.changes[j].id
  {
    hide SoundEntry;
    forall i | 0 <= i < |s.changes|
      ensures s.changes[i].previousVersion == s.version - |s.changes| + i
      ensures s.changes[i].newVersion == s.changes[i].previousVersion + 1
    {
      EntryVersions(rules, s.changes[i], s.version - |s.changes| + i, history[i], history[i + 1]);
    }
  }

  lemma RetainedReplays(rules: Rules, initial: Json, requests: seq<Request>, s: Snapshot, i: nat)
    requires rules.capacity >= 1 && initial.Object? && s == Run(rules, initial, requests)
    requires i <= |s.changes| <= s.version
    ensures Replay(StateAt(rules, initial, requests, s.version - |s.changes| + i), s.changes[i..]) == Ok(s.state)
  {
    hide *;
    var history := RunSound(rules, initial, requests);
    ReplayOfRun(rules, initial, requests, s, history, i);
  }

  lemma ReplayOfRun(rules: Rules, initial: Json, requests: seq<Request>, s: Snapshot, history: seq<Json>, i: nat)
    requires Sound(rules, s, history) && OfRun(rules, initial, requests, s, history) && i <= |s.changes| <= s.version
    ensures Replay(StateAt(rules, initial, requests, s.version - |s.changes| + i), s.changes[i..]) == Ok(s.state)
  {
    hide StateAt, Replay, SoundEntry;
    ReplayChain(rules, s.changes, s.version, history, i);
  }

  /**
   Every reachable journal keeps exactly the entries of the last `capacity` versions, or all while there are
   fewer, with distinct ids and consecutive versions that end at the current one,
     and from any of them on the forward changes lead from the state the run had at its
   previous version to the current state.
   */
  lemma JournalReplays(rules: Rules, initial: Json, requests: seq<Request>, s: Snapshot)
    requires rules.capacity >= 1 && initial.Object? && s == Run(rules, initial, requests)
    ensures |s.changes| == Kept(rules.capacity, s.version) <= s.version
    ensures forall i :: 0 <= i < |s.changes| ==>
      && s.changes[i].previousVersion == s.version - |s.changes| + i
      && s.changes[i].newVersion == s.changes[i].previousVersion + 1
    ensures forall i, j :: 0 <= i < j < |s.changes| ==> s.changes[i].id != s.changes[j].id
    ensures forall i :: 0 <= i <= |s.changes| ==>
      Replay(StateAt(rules, initial, requests, s.version - |s.changes| + i), s.changes[i..]) == Ok(s.state)
  {
    hide *;
    var history := RunSound(rules, initial, requests);
    RetainedVersions(rules, s, history);
    forall i | 0 <= i <= |s.changes|
      ensures Replay(StateAt(rules, initial, requests, s.version - |s.changes| + i), s.changes[i..]) == Ok(s.state)
    {
      RetainedReplays(rules, initial, requests, s, i);
    }
  }

  // When a mutation is served

  /**
   A mutation succeeds exactly when the caller edited the current version, the new state is valid, leaves the reserve
   and differs from the old one on safe paths only, the operations both ways have no prohibited field and the id is
   new; then the state is the one the caller asked for.
   */
  lemma MutateExactly(rules: Rules, s: Snapshot, expected: nat, after: Json, id: string)
    requires s.state.Object?
    ensures Mutate(rules, s, expected, after, id).Ok? <==>
            && expected == s.version && rules.valid(after) && rules.withinReserve(after)
            && after.Object? && after != s.state && (forall path :: PartAt(s.state, after, path) ==> SafePath(path))
            && rules.auditSafe(Collect(s.state, after)) && rules.auditSafe(Collect(after, s.state))
            && id != "" && forall i :: 0 <= i < |s.changes| ==> s.changes[i].id != id
    ensures Mutate(rules, s, expected, after, id).Ok? ==> Mutate(rules, s, expected, after, id).value.state == after
  {
    hide Collect, ApplyAll, PartAt, SafePath, RetainedChanges, AllSafe;
    DiffExists(s.state, after);
    DiffExists(after, s.state);
    PartBothWays(s.state, after);
    if after.Object? { DiffRoundTrip(s.state, after); }
  }

  lemma PartBothWays(x: Json, y: Json)
    ensures forall path :: PartAt(x, y, path) <==> PartAt(y, x, path)
  {
  }

  // What is retained

  /** The entry that a request records when it is served. */
  function Recorded(rules: Rules, s: Snapshot, request: Request): Entry
    requires Serve(rules, s, request).Ok?
  {
    match request
    case MutateTo(_, after, id) =>
      Entry(id, s.version, s.version + 1, Diff(s.state, after).value, Diff(after, s.state).value, None)
    case RollbackOf(_, changeId, id) =>
      var target := s.changes[FindId(s.changes, changeId).value];
      Entry(id, s.version, s.version + 1, target.inverse, target.forward, Some(changeId))
  }

  lemma ServeShape(rules: Rules, s: Snapshot, request: Request)
    requires |s.changes| == Kept(rules.capacity, s.version) && Serve(rules, s, request).Ok?
    ensures var next := Serve(rules, s, request).value;
      && next.version == s.version + 1 && |next.changes| == Kept(rules.capacity, next.version)
      && |next.changes| <= |s.changes| + 1
      && next.changes == (s.changes + [Recorded(rules, s, request)])[|s.changes| + 1 - |next.changes|..]
  {
    hide Append, Diff, FindId, HasId, Kept;
    var entry := Recorded(rules, s, request);
    assert Serve(rules, s, request) == Append(rules, s, entry.forward, entry.inverse, entry.id, entry.rolledBack);
    hide Serve, Recorded;
    AppendShape(rules, s, entry.forward, entry.inverse, entry.id, entry.rolledBack);
  }

  lemma RunKeeps(rules: Rules, initial: Json, requests: seq<Request>)
    requires rules.capacity >= 1 && initial.Object?
    ensures var s := Run(rules, initial, requests);
      && |s.changes| == Kept(rules.capacity, s.version)
      && forall i, j :: 0 <= i < j < |s.changes| ==> s.changes[i].id != s.changes[j].id
  {
    hide *;
    JournalReplays(rules, initial, requests, Run(rules, initial, requests));
  }

  /** The entry recorded at `version` is where its age puts it, while it is one of the newest `capacity`. */
  ghost predicate InPlace(capacity: nat, s: Snapshot, version: nat, entry: Entry) {
    && version < s.version
    && (s.version - version <= capacity ==>
        s.version - version <= |s.changes| && s.changes[|s.changes| - (s.version - version)] == entry)
  }

  lemma StaysInPlace(capacity: nat, s: Snapshot, next: Snapshot, added: Entry, version: nat, entry: Entry)
    requires |s.changes| == Kept(capacity, s.version) && |next.changes| == Kept(capacity, next.version)
    requires next.version == s.version + 1 && |next.changes| <= |s.changes| + 1
    requires next.changes == (s.changes + [added])[|s.changes| + 1 - |next.changes|..]
    requires if version == s.version then entry == added else InPlace(capacity, s, version, entry)
    ensures InPlace(capacity, next, version, entry)
  {
    var age := next.version - version;
    if age <= capacity && version < s.version {
      assert (s.changes + [added])[|s.changes| + 1 - age] == s.changes[|s.changes| - (s.version - version)];
    }
  }

  lemma {:induction false} RunInPlace(rules: Rules, initial: Json, requests: seq<Request>, n: nat, before: Snapshot)
    requires rules.capacity >= 1 && initial.Object? && n < |requests|
    requires before == Run(rules, initial, requests[..n]) && Serve(rules, before, requests[n]).Ok?
    ensures InPlace(rules.capacity, Run(rules, initial, requests), before.version,
                    Recorded(rules, before, requests[n]))
    decreases |requests|
  {
    hide Recorded, Serve, InPlace;
    var last := |requests| - 1;
    var was := Run(rules, initial, requests[..last]);
    var entry := Recorded(rules, before, requests[n]);
    if n < last {
      assert requests[..last][..n] == requests[..n];
      RunInPlace(rules, initial, requests[..last], n, before);
    }
    var s := Run(rules, initial, requests);
    if Serve(rules, was, requests[last]).Ok? {
      assert s == Serve(rules, was, requests[last]).value;
      assert n < last ==> InPlace(rules.capacity, was, before.version, entry);
      hide Run;
      ServedInPlace(rules, initial, requests[..last], was, requests[last], before.version, entry);
    }
  }

  lemma ServedInPlace(rules: Rules, initial: Json, requests: seq<Request>, s: Snapshot, request: Request,
                      version: nat, entry: Entry)
    requires rules.capacity >= 1 && initial.Object? && s == Run(rules, initial, requests)
    requires Serve(rules, s, request).Ok?
    requires InPlace(rules.capacity, s, version, entry) ||
             (version == s.version && entry == Recorded(rules, s, request))
    ensures InPlace(rules.capacity, Serve(rules, s, request).value, version, entry)
  {
    hide Run, Serve, Recorded;
    RunKeeps(rules, initial, requests);
    ServeShape(rules, s, request);
    StaysInPlace(rules.capacity, s, Serve(rules, s, request).value, Recorded(rules, s, request), version, entry);
  }

  /**
   Every change of the last `capacity` versions is still found by its id, with the operations it was made of, so
   that it can be rolled back as the theorems below say.
   */
  lemma LatestAreRetained(rules: Rules, initial: Json, requests: seq<Request>, s: Snapshot, n: nat)
    requires rules.capacity >= 1 && initial.Object? && s == Run(rules, initial, requests) && n < |requests|
    requires Serve(rules, Run(rules, initial, requests[..n]), requests[n]).Ok?
    requires s.version - Run(rules, initial, requests[..n]).version <= rules.capacity
    ensures var before := Run(rules, initial, requests[..n]);
      var entry, i := Recorded(rules, before, requests[n]), |s.changes| - (s.version - before.version);
      && 0 <= i < |s.changes| && s.changes[i] == entry && FindId(s.changes, entry.id) == Some(i)
  {
    hide Run, Serve, Recorded, FindId, HasId;
    RunInPlace(rules, initial, requests, n, Run(rules, initial, requests[..n]));
    RunKeeps(rules, initial, requests);
    FindById(s.changes, |s.changes| - (s.version - Run(rules, initial, requests[..n]).version));
  }

  // Undoing a retained change

  function ForwardOps(entries: seq<Entry>): seq<Operation> {
    if entries == [] then [] else entries[0].forward + ForwardOps(entries[1..])
  }

  lemma {:induction false} ReplayIsApply(state: Json, entries: seq<Entry>)
    requires state.Object? && forall i :: 0 <= i < |entries| ==> entries[i].forward != []
    ensures ApplyAll(state, ForwardOps(entries)) == Replay(state, entries)
    decreases |entries|
  {
    if entries != [] {
      ApplyConcat(state, entries[0].forward, ForwardOps(entries[1..]));
      var step := ApplyAll(state, entries[0].forward);
      if step.Ok? { ReplayIsApply(step.value, entries[1..]); }
    }
  }

  lemma {:induction false} ForwardOpsSafe(entries: seq<Entry>, ops: seq<Operation>)
    requires forall i :: 0 <= i < |entries| ==> AllSafe(entries[i].forward) && Unrelated(ops, entries[i].forward)
    ensures AllSafe(ForwardOps(entries)) && Unrelated(ops, ForwardOps(entries))
  {
    if entries != [] {
      ForwardOpsSafe(entries[1..], ops);
    }
  }

  lemma FindById(changes: seq<Entry>, i: nat)
    requires i < |changes| && forall a, b :: 0 <= a < b < |changes| ==> changes[a].id != changes[b].id
    ensures FindId(changes, changes[i].id) == Some(i)
  {
    assert HasId(changes, changes[i].id);
  }

  lemma ChainEntries(rules: Rules, changes: seq<Entry>, version: nat, history: seq<Json>, from: nat)
    requires Chain(rules, changes, version, history) && from <= |changes|
    ensures forall k :: 0 <= k < |changes[from..]| ==>
      changes[from..][k].forward != [] && AllSafe(changes[from..][k].forward)
  {
    hide Diff, ApplyAll, AllSafe;
    forall k | 0 <= k < |changes[from..]|
      ensures changes[from..][k].forward != [] && AllSafe(changes[from..][k].forward)
    {
      assert SoundEntry(rules, changes[from + k], version - |changes| + from + k, history[from + k],
                        history[from + k + 1]);
    }
  }

  lemma UndoInChain(rules: Rules, s: Snapshot, history: seq<Json>, i: nat)
    requires Sound(rules, s, history) && i < |s.changes| && s.changes[i].rolledBack.None?
    requires forall k :: i < k < |s.changes| ==> Unrelated(s.changes[i].forward, s.changes[k].forward)
    ensures Replay(history[i], s.changes[i + 1..]).Ok?
    ensures ApplyChange(s.state, s.changes[i].inverse) == Replay(history[i], s.changes[i + 1..])
  {
    var entry, later := s.changes[i], s.changes[i + 1..];
    assert SoundEntry(rules, entry, s.version - |s.changes| + i, history[i], history[i + 1]);
    ReplayChain(rules, s.changes, s.version, history, i + 1);
    ChainEntries(rules, s.changes, s.version, history, i + 1);
    ForwardOpsSafe(later, entry.forward);
    ReplayIsApply(history[i], later);
    ReplayIsApply(history[i + 1], later);
    UndoUnderLater(history[i], history[i + 1], ForwardOps(later), s.state);
  }

  /** A retained entry of a reachable journal, between the states the run had before and after it. */
  lemma RetainedEntry(rules: Rules, initial: Json, requests: seq<Request>, s: Snapshot, i: nat)
    returns (history: seq<Json>)
    requires rules.capacity >= 1 && initial.Object? && s == Run(rules, initial, requests) && i < |s.changes|
    ensures Sound(rules, s, history) && FindId(s.changes, s.changes[i].id) == Some(i)
    ensures history[i] == StateAt(rules, initial, requests, s.changes[i].previousVersion)
    ensures SoundEntry(rules, s.changes[i], s.changes[i].previousVersion, history[i], history[i + 1])
    ensures Replay(history[i], s.changes[i..]) == Ok(s.state)
  {
    hide *;
    history := RunSound(rules, initial, requests);
    EntryInChain(rules, initial, requests, s, history, i);
  }

  lemma EntryInChain(rules: Rules, initial: Json, requests: seq<Request>, s: Snapshot, history: seq<Json>, i: nat)
    requires Sound(rules, s, history) && OfRun(rules, initial, requests, s, history) && i < |s.changes|
    ensures FindId(s.changes, s.changes[i].id) == Some(i)
    ensures history[i] == StateAt(rules, initial, requests, s.changes[i].previousVersion)
    ensures SoundEntry(rules, s.changes[i], s.changes[i].previousVersion, history[i], history[i + 1])
    ensures Replay(history[i], s.changes[i..]) == Ok(s.state)
  {
    hide StateAt, Replay, SoundEntry, FindId;
    ReplayChain(rules, s.changes, s.version, history, i);
    FindById(s.changes, i);
    EntryVersions(rules, s.changes[i], s.version - |s.changes| + i, history[i], history[i + 1]);
  }

  /**
   Rolling back any retained mutation after changes that touch only unrelated paths: the rollback gives exactly
   what the later changes make of the state the run had before that mutation. The only ways to fail are the
   validators and the fresh id. For the newest mutation the result is the state before it.
   */
  lemma RollbackRestores(rules: Rules, initial: Json, requests: seq<Request>, s: Snapshot, i: nat, id: string)
    returns (result: Json)
    requires rules.capacity >= 1 && initial.Object? && s == Run(rules, initial, requests)
    requires i < |s.changes| && s.changes[i].rolledBack.None?
    requires forall k :: i < k < |s.changes| ==> Unrelated(s.changes[i].forward, s.changes[k].forward)
    ensures var before := StateAt(rules, initial, requests, s.changes[i].previousVersion);
      && Replay(before, s.changes[i + 1..]) == Ok(result)
      && (i == |s.changes| - 1 ==> result == before)
    ensures Rollback(rules, s, s.version, s.changes[i].id, id) == Undone(rules, s, s.changes[i], result, id)
  {
    hide Run, StateAt;
    var history := RetainedEntry(rules, initial, requests, s, i);
    UndoInChain(rules, s, history, i);
    result := Replay(history[i], s.changes[i + 1..]).value;
    NonEmptyEntry(rules, s.changes[i], history[i], history[i + 1]);
    RollbackUnfolds(rules, s, i, id);
    hide Rollback, Undone;
  }

  /** The answer to rolling back `entry` when its inverse gives `state`. */
  function Undone(rules: Rules, s: Snapshot, entry: Entry, state: Json, id: string): Result<Snapshot, JournalError> {
    if !rules.valid(state) then Err(InvalidState)
    else if id == "" || HasId(s.changes, id) then Err(BadId)
    else
      var undo := Entry(id, s.version, s.version + 1, entry.inverse, entry.forward, Some(entry.id));
      Ok(Snapshot(s.version + 1, state, RetainedChanges(s.changes, undo, rules.capacity)))
  }

  /** The change that the entry records replaced, added or removed this member or one it is in. */
  ghost predicate TouchedBy(rules: Rules, initial: Json, requests: seq<Request>, entry: Entry, member: Path) {
    Touched(StateAt(rules, initial, requests, entry.previousVersion),
            StateAt(rules, initial, requests, entry.newVersion), member)
  }

  /** A retained mutation is the diff of the states the run had before and after it. */
  lemma MutationStates(rules: Rules, initial: Json, requests: seq<Request>, s: Snapshot, i: nat)
    requires rules.capacity >= 1 && initial.Object? && s == Run(rules, initial, requests)
    requires i < |s.changes| && s.changes[i].rolledBack.None?
    ensures Diff(StateAt(rules, initial, requests, s.changes[i].previousVersion),
                 StateAt(rules, initial, requests, s.changes[i].newVersion)) == Ok(s.changes[i].forward)
  {
    hide Run, StateAt, Diff, ApplyAll;
    var history := RunSound(rules, initial, requests);
    assert SoundEntry(rules, s.changes[i], s.version - |s.changes| + i, history[i], history[i + 1]);
  }

  /** Two retained mutations are unrelated exactly when there is no member that both touched. */
  lemma UnrelatedMutations(rules: Rules, initial: Json, requests: seq<Request>, s: Snapshot, i: nat, k: nat)
    requires rules.capacity >= 1 && initial.Object? && s == Run(rules, initial, requests)
    requires i < |s.changes| && s.changes[i].rolledBack.None?
    requires k < |s.changes| && s.changes[k].rolledBack.None?
    ensures Unrelated(s.changes[i].forward, s.changes[k].forward) <==>
            forall member :: !(TouchedBy(rules, initial, requests, s.changes[i], member)
                               && TouchedBy(rules, initial, requests, s.changes[k], member))
  {
    hide Run, StateAt, Diff, Touched, Unrelated;
    MutationStates(rules, initial, requests, s, i);
    MutationStates(rules, initial, requests, s, k);
    var x, y := StateAt(rules, initial, requests, s.changes[i].previousVersion),
                StateAt(rules, initial, requests, s.changes[i].newVersion);
    var u, v := StateAt(rules, initial, requests, s.changes[k].previousVersion),
                StateAt(rules, initial, requests, s.changes[k].newVersion);
    forall member
      ensures TouchedBy(rules, initial, requests, s.changes[i], member) <==> Touched(x, y, member)
      ensures TouchedBy(rules, initial, requests, s.changes[k], member) <==> Touched(u, v, member)
    {
    }
    UnrelatedExactly(x, y, u, v);
  }

  /**
   Rolling back a retained mutation that no later mutation has met: while none of them touched a member that it
   had touched, the rollback takes back that mutation and nothing else.
   */
  lemma RollbackOfUntouched(rules: Rules, initial: Json, requests: seq<Request>, s: Snapshot, i: nat, id: string)
    returns (result: Json)
    requires rules.capacity >= 1 && initial.Object? && s == Run(rules, initial, requests) && i < |s.changes|
    requires forall k :: i <= k < |s.changes| ==> s.changes[k].rolledBack.None?
    requires forall k, member :: i < k < |s.changes| ==>
      !(TouchedBy(rules, initial, requests, s.changes[i], member)
        && TouchedBy(rules, initial, requests, s.changes[k], member))
    ensures Replay(StateAt(rules, initial, requests, s.changes[i].previousVersion), s.changes[i + 1..]) == Ok(result)
    ensures Rollback(rules, s, s.version, s.changes[i].id, id) == Undone(rules, s, s.changes[i], result, id)
  {
    hide Run, StateAt, TouchedBy, Unrelated, Replay, Rollback, Undone;
    forall k | i < k < |s.changes| ensures Unrelated(s.changes[i].forward, s.changes[k].forward) {
      UnrelatedMutations(rules, initial, requests, s, i, k);
    }
    result := RollbackRestores(rules, initial, requests, s, i, id);
  }

  /**
   Rolling back any retained entry, whatever was changed since: it applies exactly when every path of the entry
   still ends below an object, and apart from that only the validators and the fresh id can refuse it.
   */
  lemma RollbackApplies(rules: Rules, initial: Json, requests: seq<Request>, s: Snapshot, i: nat, id: string)
    requires rules.capacity >= 1 && initial.Object? && s == Run(rules, initial, requests) && i < |s.changes|
    ensures !Resolves(s.state, s.changes[i].inverse) ==>
      Rollback(rules, s, s.version, s.changes[i].id, id) == Err(Rejected(Unresolved))
    ensures Resolves(s.state, s.changes[i].inverse) ==>
      exists state :: ApplyChange(s.state, s.changes[i].inverse) == Ok(state)
        && Rollback(rules, s, s.version, s.changes[i].id, id) == Undone(rules, s, s.changes[i], state, id)
  {
    hide Run, StateAt, Resolves, Undone, Rollback, ApplyAll;
    var history := RetainedEntry(rules, initial, requests, s, i);
    NonEmptyEntry(rules, s.changes[i], history[i], history[i + 1]);
    AppliesExactly(s.state, s.changes[i].inverse);
    RollbackUnfolds(rules, s, i, id);
  }

  lemma RollbackUnfolds(rules: Rules, s: Snapshot, i: nat, id: string)
    requires i < |s.changes| && FindId(s.changes, s.changes[i].id) == Some(i) && s.state.Object?
    requires s.changes[i].inverse != [] && ValidRetained(rules, s.changes[i])
    ensures ApplyChange(s.state, s.changes[i].inverse) == ApplyAll(s.state, s.changes[i].inverse)
    ensures Rollback(rules, s, s.version, s.changes[i].id, id) ==
      match ApplyAll(s.state, s.changes[i].inverse)
      case Err(e) => Err(Rejected(e))
      case Ok(state) => Undone(rules, s, s.changes[i], state, id)
  {
    hide HasId, FindId, ApplyAll, RetainedChanges;
  }

  lemma NonEmptyEntry(rules: Rules, entry: Entry, before: Json, after: Json)
    requires SoundEntry(rules, entry, entry.previousVersion, before, after)
    ensures entry.inverse != [] && AllSafe(entry.inverse) && Apart(PathsOf(entry.inverse))
    ensures ValidRetained(rules, entry)
  {
    assert |PathsOf(entry.inverse)| == |PathsOf(entry.forward)|;
  }

  /**
   What a successful rollback gives, whatever was changed since: each path of the entry holds what its inverse
   writes, which for a mutation is the value it held before, and every path beside them all holds its present
   value.
   */
  lemma RollbackWrites(rules: Rules, initial: Json, requests: seq<Request>, s: Snapshot, i: nat, id: string, q: Path)
    returns (result: Json)
    requires rules.capacity >= 1 && initial.Object? && s == Run(rules, initial, requests) && i < |s.changes|
    requires Rollback(rules, s, s.version, s.changes[i].id, id).Ok?
    ensures result == Rollback(rules, s, s.version, s.changes[i].id, id).value.state
    ensures PathsOf(s.changes[i].inverse) == PathsOf(s.changes[i].forward)
    ensures forall op :: op in s.changes[i].inverse ==> Lookup(result, op.path) == Written(op)
    ensures s.changes[i].rolledBack.None? ==>
      var before := StateAt(rules, initial, requests, s.changes[i].previousVersion);
      forall op :: op in s.changes[i].inverse ==> Lookup(result, op.path) == Lookup(before, op.path)
    ensures (forall op :: op in s.changes[i].inverse ==> Incomparable(op.path, q)) ==>
      Lookup(result, q) == Lookup(s.state, q)
  {
    hide Run, StateAt, Rollback, Undone, ApplyAll, Lookup, Diff;
    var history := RetainedEntry(rules, initial, requests, s, i);
    NonEmptyEntry(rules, s.changes[i], history[i], history[i + 1]);
    result := RollbackState(rules, s, i, id);
    InverseWrites(rules, s, s.changes[i], history[i], history[i + 1], result);
    AfterAll(s.state, s.changes[i].inverse, q);
  }

  lemma RollbackState(rules: Rules, s: Snapshot, i: nat, id: string) returns (result: Json)
    requires i < |s.changes| && FindId(s.changes, s.changes[i].id) == Some(i) && s.state.Object?
    requires s.changes[i].inverse != [] && ValidRetained(rules, s.changes[i])
    requires Rollback(rules, s, s.version, s.changes[i].id, id).Ok?
    ensures result == Rollback(rules, s, s.version, s.changes[i].id, id).value.state
    ensures ApplyAll(s.state, s.changes[i].inverse) == Ok(result)
  {
    hide Rollback, ApplyAll, HasId, RetainedChanges;
    RollbackUnfolds(rules, s, i, id);
    result := ApplyAll(s.state, s.changes[i].inverse).value;
  }

  lemma InverseWrites(rules: Rules, s: Snapshot, entry: Entry, before: Json, after: Json, result: Json)
    requires SoundEntry(rules, entry, entry.previousVersion, before, after)
    requires s.state.Object? && ApplyAll(s.state, entry.inverse) == Ok(result)
    ensures forall op :: op in entry.inverse ==> Lookup(result, op.path) == Written(op)
    ensures entry.rolledBack.None? ==>
      forall op :: op in entry.inverse ==> Lookup(result, op.path) == Lookup(before, op.path)
  {
    hide ApplyAll, Diff, Lookup;
    forall k | 0 <= k < |entry.inverse|
      ensures Lookup(result, entry.inverse[k].path) == Written(entry.inverse[k])
      ensures entry.rolledBack.None? ==>
        Lookup(result, entry.inverse[k].path) == Lookup(before, entry.inverse[k].path)
    {
      WrittenAfter(s.state, entry.inverse, k);
      if entry.rolledBack.None? { DiffWritesTarget(after, before, k); }
    }
  }

  /**
   When a rollback is exact: a successful rollback of a retained entry gives what the later changes make of the
   state before it exactly when those changes apply to that state and leave along each path of the entry what its
   inverse writes. For a mutation that is what the state before it held there.
   */
  lemma RollbackExact(rules: Rules, initial: Json, requests: seq<Request>, s: Snapshot, i: nat, id: string)
    requires rules.capacity >= 1 && initial.Object? && s == Run(rules, initial, requests) && i < |s.changes|
    requires Rollback(rules, s, s.version, s.changes[i].id, id).Ok?
    ensures var result := Rollback(rules, s, s.version, s.changes[i].id, id).value.state;
      var before := StateAt(rules, initial, requests, s.changes[i].previousVersion);
      var without := Replay(before, s.changes[i + 1..]);
      && (without == Ok(result) <==> without.Ok? && HoldsWritten(s.changes[i].inverse, without.value))
      && (s.changes[i].rolledBack.None? ==>
          (without == Ok(result) <==> without.Ok? && SameAlong(s.changes[i].forward, without.value, before)))
  {
    hide Run, StateAt, Rollback, ApplyAll, SameAlong, HoldsWritten, Replay;
    var history := RetainedEntry(rules, initial, requests, s, i);
    NonEmptyEntry(rules, s.changes[i], history[i], history[i + 1]);
    var result := RollbackState(rules, s, i, id);
    if Replay(history[i], s.changes[i + 1..]).Ok? {
      UndoExact(rules, s, history, i, result);
      MutationWrites(s.changes[i], history[i], history[i + 1], Replay(history[i], s.changes[i + 1..]).value);
    }
  }

  /** The two states hold the same values along the paths of the operations. */
  ghost predicate SameAlong(ops: seq<Operation>, x: Json, y: Json) {
    forall op :: op in ops ==> Lookup(x, op.path) == Lookup(y, op.path)
  }

  lemma MutationWrites(entry: Entry, before: Json, after: Json, x: Json)
    requires Mirrored(entry.forward, entry.inverse)
    requires entry.rolledBack.None? ==> Diff(after, before) == Ok(entry.inverse)
    ensures entry.rolledBack.None? ==> (HoldsWritten(entry.inverse, x) <==> SameAlong(entry.forward, x, before))
  {
    if entry.rolledBack.None? { WritesAsBefore(entry, before, after, x); }
  }

  lemma UndoExact(rules: Rules, s: Snapshot, history: seq<Json>, i: nat, result: Json)
    requires Sound(rules, s, history) && i < |s.changes|
    requires SoundEntry(rules, s.changes[i], s.changes[i].previousVersion, history[i], history[i + 1])
    requires ApplyAll(s.state, s.changes[i].inverse) == Ok(result)
    requires Replay(history[i], s.changes[i + 1..]).Ok?
    ensures var without := Replay(history[i], s.changes[i + 1..]).value;
      without == result <==> HoldsWritten(s.changes[i].inverse, without)
  {
    var entry, later := s.changes[i], s.changes[i + 1..];
    var without := Replay(history[i], later).value;
    ReplayChain(rules, s.changes, s.version, history, i + 1);
    ChainEntries(rules, s.changes, s.version, history, i + 1);
    ReplayIsApply(history[i], later);
    ReplayIsApply(history[i + 1], later);
    AgreeBeforeAfter(history[i], entry.forward);
    AgreeAfter(PathsOf(entry.forward), history[i], history[i + 1], ForwardOps(later));
    UndoMeets(without, s.state, entry.inverse);
    AppliesExactly(s.state, entry.inverse);
  }

  /**
   Rolling back any retained entry, a rollback included, after changes that touch only unrelated paths: it
   applies, so do the later changes to the state before the entry, and it gives what they make of that state
   exactly when that state held along the paths of the entry what its inverse writes. Rolling back a rollback is
   therefore exact when the entry it had undone still stood as it was made.
   */
  lemma RollbackUnderUnrelated(rules: Rules, initial: Json, requests: seq<Request>, s: Snapshot, i: nat)
    requires rules.capacity >= 1 && initial.Object? && s == Run(rules, initial, requests) && i < |s.changes|
    requires forall k :: i < k < |s.changes| ==> Unrelated(s.changes[i].forward, s.changes[k].forward)
    ensures var before := StateAt(rules, initial, requests, s.changes[i].previousVersion);
      && Resolves(s.state, s.changes[i].inverse) && Replay(before, s.changes[i + 1..]).Ok?
      && (ApplyChange(s.state, s.changes[i].inverse) == Replay(before, s.changes[i + 1..]) <==>
          HoldsWritten(s.changes[i].inverse, before))
  {
    hide Run, StateAt, Rollback, HoldsWritten, Resolves;
    var history := RetainedEntry(rules, initial, requests, s, i);
    NonEmptyEntry(rules, s.changes[i], history[i], history[i + 1]);
    UnrelatedInChain(rules, s, history, i);
    AppliesExactly(s.state, s.changes[i].inverse);
    hide Replay, ApplyAll, SoundEntry, Sound;
    UndoExact(rules, s, history, i, ApplyChange(s.state, s.changes[i].inverse).value);
  }

  lemma UnrelatedInChain(rules: Rules, s: Snapshot, history: seq<Json>, i: nat)
    requires Sound(rules, s, history) && i < |s.changes|
    requires SoundEntry(rules, s.changes[i], s.changes[i].previousVersion, history[i], history[i + 1])
    requires forall k :: i < k < |s.changes| ==> Unrelated(s.changes[i].forward, s.changes[k].forward)
    ensures Replay(history[i], s.changes[i + 1..]).Ok? && Resolves(s.state, s.changes[i].inverse)
    ensures HoldsWritten(s.changes[i].inverse, Replay(history[i], s.changes[i + 1..]).value) <==>
            HoldsWritten(s.changes[i].inverse, history[i])
  {
    var entry, later := s.changes[i], s.changes[i + 1..];
    var ops := ForwardOps(later);
    ReplayChain(rules, s.changes, s.version, history, i + 1);
    ChainEntries(rules, s.changes, s.version, history, i + 1);
    ForwardOpsSafe(later, entry.forward);
    ReplayIsApply(history[i], later);
    ReplayIsApply(history[i + 1], later);
    hide Replay, ForwardOps, Sound, HoldsWritten, Resolves, Diff;
    UnrelatedUndo(history[i], entry.forward, entry.inverse, ops);
  }

  lemma UnrelatedUndo(before: Json, forward: seq<Operation>, inverse: seq<Operation>, later: seq<Operation>)
    requires before.Object? && AllSafe(forward) && AllSafe(inverse) && AllSafe(later) && Mirrored(forward, inverse)
    requires Unrelated(forward, later) && ApplyAll(before, forward).Ok?
    requires ApplyAll(ApplyAll(before, forward).value, later).Ok?
    ensures ApplyAll(before, later).Ok?
    ensures Resolves(ApplyAll(ApplyAll(before, forward).value, later).value, inverse)
    ensures HoldsWritten(inverse, ApplyAll(before, later).value) <==> HoldsWritten(inverse, before)
  {
    assert |PathsOf(inverse)| == |PathsOf(forward)|;
    forall i, j | 0 <= i < |inverse| && 0 <= j < |later| ensures Incomparable(inverse[i].path, later[j].path) {
      assert PathsOf(inverse)[i] == PathsOf(forward)[i];
    }
    hide ApplyAll, HoldsWritten, Resolves;
    Commute(before, forward, later);
    ApplyConcat(before, forward, later);
    ApplyConcat(before, later, forward);
    StillResolves(before, forward, inverse);
    BesidePaths(ApplyAll(before, forward).value, later, inverse);
    BesidePaths(before, later, inverse);
  }

  lemma WritesAsBefore(entry: Entry, before: Json, after: Json, x: Json)
    requires Diff(after, before) == Ok(entry.inverse) && PathsOf(entry.forward) == PathsOf(entry.inverse)
    ensures HoldsWritten(entry.inverse, x) <==> SameAlong(entry.forward, x, before)
  {
    assert |PathsOf(entry.forward)| == |PathsOf(entry.inverse)|;
    forall k | 0 <= k < |entry.inverse|
      ensures entry.forward[k].path == entry.inverse[k].path
      ensures Written(entry.inverse[k]) == Lookup(before, entry.inverse[k].path)
    {
      assert PathsOf(entry.forward)[k] == PathsOf(entry.inverse)[k];
      DiffWritesTarget(after, before, k);
    }
    hide Lookup, Written;
  }

  /**
   A rollback with a stale version changes nothing and learns the current version; a stale mutation changes
   nothing, and learns it when only its version stands in the way.
   */
  lemma StaleRequest(rules: Rules, s: Snapshot, request: Request)
    requires request.expected != s.version
    ensures Serve(rules, s, request).Err?
    ensures request.RollbackOf? ==> Serve(rules, s, request) == Err(VersionConflict(s.version))
    ensures request.MutateTo? && Mutate(rules, s, s.version, request.after, request.id).Ok? ==>
      Serve(rules, s, request) == Err(VersionConflict(s.version))
  {
  }

  // A rollback that is not exact

  /** Every change passes, and at least two are retained. */
  function Permissive(capacity: nat): Rules {
    Rules(_ => true, _ => true, _ => true, capacity)
  }

  function Single(key: string, value: Json): Json { Object(map[key := value]) }

  /**
   A mutation, another mutation of the same member, and a rollback of the first: the member gets the value it
   had before both, so the second mutation is lost, although it is not the one rolled back.
   */
  lemma RelatedRollbackOverwrites(capacity: nat, key: string, a: Json, b: Json, c: Json, ids: seq<string>)
    requires capacity >= 2 && SafeSegment(key)
    requires !a.Object? && !b.Object? && !c.Object? && a != b && b != c && a != c
    requires |ids| == 3 && Sequences.Distinct(ids) && "" !in ids
    ensures var rules, initial := Permissive(capacity), Single(key, a);
      var edits := [MutateTo(0, Single(key, b), ids[0]), MutateTo(1, Single(key, c), ids[1])];
      var s, rolledBack := Run(rules, initial, edits), Run(rules, initial, edits + [RollbackOf(2, ids[0], ids[2])]);
      && s.version == 2 && s.state == Single(key, c) && |s.changes| == 2 && s.changes[0].id == ids[0]
      && rolledBack.version == 3 && rolledBack.state == Single(key, a)
      && Replay(initial, s.changes[1..]) == Ok(Single(key, c))
  {
    var rules, initial := Permissive(capacity), Single(key, a);
    var first, second := MutateTo(0, Single(key, b), ids[0]), MutateTo(1, Single(key, c), ids[1]);
    var third := RollbackOf(2, ids[0], ids[2]);
    var s0 := Snapshot(0, initial, []);
    var s1 := OneKeyMutation(rules, s0, key, a, b, ids[0]);
    var s2 := OneKeyMutation(rules, s1, key, b, c, ids[1]);
    var s3 := OneKeyRollback(rules, s2, key, a, c, ids[2]);
    OneKeyApply(key, a, c);
    assert s2.changes[1..] == [s2.changes[1]] && [s2.changes[1]][1..] == [];
    hide Serve;
    assert [first][..0] == [] && [first, second][..1] == [first];
    assert [first, second] + [third] == [first, second, third] && [first, second, third][..2] == [first, second];
    assert Run(rules, initial, [first]) == s1;
    assert Run(rules, initial, [first, second]) == s2;
    assert Run(rules, initial, [first, second] + [third]) == s3;
    hide *;
  }

  lemma OneKeyRollback(rules: Rules, s: Snapshot, key: string, x: Json, y: Json, id: string) returns (next: Snapshot)
    requires rules == Permissive(rules.capacity) && s.state == Single(key, y) && SafeSegment(key)
    requires s.changes != [] && s.changes[0].inverse == [SetAt([key], x)]
    requires s.changes[0].newVersion == s.changes[0].previousVersion + 1
    requires id != "" && !HasId(s.changes, id)
    ensures Serve(rules, s, RollbackOf(s.version, s.changes[0].id, id)) == Ok(next)
    ensures next.version == s.version + 1 && next.state == Single(key, x)
  {
    OneKeyApply(key, y, x);
    assert HasId(s.changes, s.changes[0].id);
    assert FindId(s.changes, s.changes[0].id) == Some(0);
    next := Rollback(rules, s, s.version, s.changes[0].id, id).value;
  }

  lemma OneKeyApply(key: string, x: Json, y: Json)
    requires SafeSegment(key)
    ensures ApplyChange(Single(key, x), [SetAt([key], y)]) == Ok(Single(key, y))
  {
    assert map[key := x][key := y] == map[key := y];
    ApplyOne(Single(key, x), SetAt([key], y), Single(key, y));
  }

  lemma OneKeyMutation(rules: Rules, s: Snapshot, key: string, x: Json, y: Json, id: string) returns (next: Snapshot)
    requires rules == Permissive(rules.capacity) && |s.changes| < rules.capacity && s.state == Single(key, x)
    requires SafeSegment(key) && !x.Object? && !y.Object? && x != y && id != "" && !HasId(s.changes, id)
    ensures Serve(rules, s, MutateTo(s.version, Single(key, y), id)) == Ok(next)
    ensures next == Snapshot(s.version + 1, Single(key, y), s.changes +
      [Entry(id, s.version, s.version + 1, [SetAt([key], y)], [SetAt([key], x)], None)])
  {
    OneKeyDiff(key, x, y);
    OneKeyDiff(key, y, x);
    OneKeyApply(key, x, y);
    next := Serve(rules, s, MutateTo(s.version, Single(key, y), id)).value;
  }

  lemma OneKeyDiff(key: string, x: Json, y: Json)
    requires SafeSegment(key) && !x.Object? && !y.Object? && x != y
    ensures Diff(Object(map[key := x]), Object(map[key := y])) == Ok([SetAt([key], y)])
  {
    var l, r := Object(map[key := x]), Object(map[key := y]);
    var keys := l.fields.Keys + r.fields.Keys;
    assert l.fields[key] != r.fields[key];
    assert keys == {key} && keys - {key} == {};
    assert FirstKey(keys) == key;
    BelowFew([key], y);
    assert CollectKeys(l, r, keys - {key}) == [];
    assert CollectKey(l, r, key) == [SetAt([key], y)];
    assert CollectKeys(l, r, keys) == CollectKey(l, r, key) + CollectKeys(l, r, keys - {key});
    assert Collect(l, r) == [SetAt([key], y)];
    assert AllSafe([SetAt([key], y)]);
  }
}
