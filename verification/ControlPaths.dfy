/**
 The values along the paths of a control state: where a list of operations applies, what it leaves at its own
 paths, and that everything beside them stays as it was.
 */
module ControlPaths {
  import opened Wrappers
  import opened ControlChange
  import opened ControlReplay

  function Lookup(state: Json, path: Path): Option<Json>
    decreases |path|
  {
    if path == [] then Some(state)
    else if !state.Object? || path[0] !in state.fields then None
    else Lookup(state.fields[path[0]], path[1..])
  }

  /** What an operation leaves at its path. */
  function Written(op: Operation): Option<Json> {
    match op case SetAt(_, value) => Some(value) case DeleteAt(_) => None
  }

  function LookupIn(slot: Option<Json>, path: Path): Option<Json> {
    if slot.None? then None else Lookup(slot.value, path)
  }

  lemma {:induction false} LookupSplit(state: Json, p: Path, q: Path)
    requires p <= q
    ensures Lookup(state, q) == LookupIn(Lookup(state, p), q[|p|..])
    decreases |p|
  {
    if p == [] {
      assert q[0..] == q;
    } else if state.Object? && p[0] in state.fields {
      assert q[1..][|p| - 1..] == q[|p|..];
      LookupSplit(state.fields[p[0]], p[1..], q[1..]);
    }
  }

  /** After a write the value along its path is the written one; beside the path nothing moves. */
  lemma {:induction false} LookupAfter(state: Json, path: Path, op: Operation, q: Path)
    requires state.Object? && path != [] && ApplyAt(state, path, op).Ok?
    ensures path <= q ==> Lookup(ApplyAt(state, path, op).value, q) == LookupIn(Written(op), q[|path|..])
    ensures Incomparable(path, q) ==> Lookup(ApplyAt(state, path, op).value, q) == Lookup(state, q)
    decreases |path|
  {
    if q != [] && q[0] == path[0] {
      assert path == [path[0]] + path[1..] && q == [q[0]] + q[1..];
      if |path| > 1 {
        if path <= q { assert q[1..][|path| - 1..] == q[|path|..]; }
        LookupAfter(state.fields[path[0]], path[1..], op, q[1..]);
      }
    }
  }

  /** The value at a path without the members of an object. */
  function Surface(state: Json, path: Path): Option<Json> {
    match Lookup(state, path)
    case None => None
    case Some(Leaf(text)) => Some(Leaf(text))
    case Some(Object(_)) => Some(Object(map[]))
  }

  /** A write is not seen except at and below its path. */
  lemma {:induction false} SurfaceAfter(state: Json, path: Path, op: Operation, q: Path)
    requires state.Object? && path != [] && ApplyAt(state, path, op).Ok? && !(path <= q)
    ensures Surface(ApplyAt(state, path, op).value, q) == Surface(state, q)
    decreases |path|
  {
    if q != [] && q[0] == path[0] {
      assert path == [path[0]] + path[1..] && q == [q[0]] + q[1..];
      SurfaceAfter(state.fields[path[0]], path[1..], op, q[1..]);
    }
  }

  /** States that look the same at every path are the same. */
  lemma {:induction false} SameSurface(x: Json, y: Json)
    requires forall q: Path :: Surface(x, q) == Surface(y, q)
    ensures x == y
    decreases x
  {
    assert Surface(x, []) == Surface(y, []);
    if x.Object? {
      forall k ensures Slot(x, k) == Slot(y, k) {
        MemberSurface(x, k, []);
        MemberSurface(y, k, []);
        if k in x.fields && k in y.fields {
          forall q: Path ensures Surface(x.fields[k], q) == Surface(y.fields[k], q) {
            MemberSurface(x, k, q);
            MemberSurface(y, k, q);
          }
          SameSurface(x.fields[k], y.fields[k]);
        }
      }
      SameSlots(x, y);
    }
  }

  lemma MemberSurface(state: Json, key: string, q: Path)
    requires state.Object?
    ensures Surface(state, [key] + q) == if key in state.fields then Surface(state.fields[key], q) else None
  {
    assert ([key] + q)[1..] == q;
  }

  lemma SameSlots(x: Json, y: Json)
    requires x.Object? && y.Object? && forall k :: Slot(x, k) == Slot(y, k)
    ensures x == y
  {
    forall k ensures k in x.fields <==> k in y.fields {
      assert Slot(x, k) == Slot(y, k);
    }
    forall k | k in x.fields ensures x.fields[k] == y.fields[k] {
      assert Slot(x, k) == Slot(y, k);
    }
    assert x.fields == y.fields;
  }

  // Lists of operations whose paths lie apart

  ghost predicate Apart(paths: seq<Path>) {
    forall i, j :: 0 <= i < j < |paths| ==> Incomparable(paths[i], paths[j])
  }

  predicate IsObjectAt(state: Json, path: Path) { Lookup(state, path).Some? && Lookup(state, path).value.Object? }

  /** Every path of the operations still ends below an object. */
  predicate Resolves(state: Json, ops: seq<Operation>) {
    forall i :: 0 <= i < |ops| && ops[i].path != [] ==> IsObjectAt(state, ops[i].path[..|ops[i].path| - 1])
  }

  lemma {:induction false} ApplyAtWorks(state: Json, path: Path, op: Operation)
    requires state.Object? && path != []
    ensures ApplyAt(state, path, op).Ok? <==> IsObjectAt(state, path[..|path| - 1])
    ensures ApplyAt(state, path, op).Err? ==> ApplyAt(state, path, op).error == Unresolved
    decreases |path|
  {
    if |path| > 1 && path[0] in state.fields {
      assert path[..|path| - 1][1..] == path[1..][..|path| - 2];
      assert Lookup(state, path[..|path| - 1]) == Lookup(state.fields[path[0]], path[1..][..|path| - 2]);
      if state.fields[path[0]].Object? {
        ApplyAtWorks(state.fields[path[0]], path[1..], op);
      }
    }
  }

  lemma ResolvesAfter(state: Json, op: Operation, rest: seq<Operation>)
    requires state.Object? && SafePath(op.path) && ApplyOperation(state, op).Ok?
    requires forall j :: 0 <= j < |rest| ==> Incomparable(op.path, rest[j].path)
    ensures Resolves(ApplyOperation(state, op).value, rest) <==> Resolves(state, rest)
  {
    var next := ApplyOperation(state, op).value;
    forall j | 0 <= j < |rest| && rest[j].path != []
      ensures IsObjectAt(next, rest[j].path[..|rest[j].path| - 1]) <==>
        IsObjectAt(state, rest[j].path[..|rest[j].path| - 1])
    {
      var parent := rest[j].path[..|rest[j].path| - 1];
      assert Incomparable(op.path, rest[j].path);
      assert parent <= rest[j].path;
      SurfaceAfter(state, op.path, op, parent);
      SurfaceTellsObjects(next, parent);
      SurfaceTellsObjects(state, parent);
    }
  }

  lemma SurfaceTellsObjects(state: Json, path: Path)
    ensures IsObjectAt(state, path) <==> Surface(state, path) == Some(Object(map[]))
  {
  }

  lemma TailApart(ops: seq<Operation>)
    requires ops != [] && Apart(PathsOf(ops))
    ensures Apart(PathsOf(ops[1..]))
    ensures forall j :: 0 <= j < |ops[1..]| ==> Incomparable(ops[0].path, ops[1..][j].path)
  {
    assert forall i :: 0 <= i < |ops[1..]| ==> PathsOf(ops[1..])[i] == PathsOf(ops)[i + 1];
    forall j | 0 <= j < |ops[1..]| ensures Incomparable(ops[0].path, ops[1..][j].path) {
      assert Incomparable(PathsOf(ops)[0], PathsOf(ops)[j + 1]);
    }
  }

  /** On safe paths that lie apart, a list applies exactly when each of its paths still ends below an object. */
  lemma {:induction false} AppliesExactly(state: Json, ops: seq<Operation>)
    requires state.Object? && AllSafe(ops) && Apart(PathsOf(ops))
    ensures ApplyAll(state, ops).Ok? <==> Resolves(state, ops)
    ensures ApplyAll(state, ops).Err? ==> ApplyAll(state, ops).error == Unresolved
    decreases |ops|
  {
    if ops != [] {
      ApplyAtWorks(state, ops[0].path, ops[0]);
      TailApart(ops);
      var step := ApplyOperation(state, ops[0]);
      if step.Ok? {
        ResolvesAfter(state, ops[0], ops[1..]);
        AppliesExactly(step.value, ops[1..]);
        assert Resolves(state, ops) <==> Resolves(state, ops[1..]) by { ResolvesTail(state, ops); }
      } else {
        assert !Resolves(state, ops);
      }
    }
  }

  lemma ResolvesTail(state: Json, ops: seq<Operation>)
    requires ops != [] && ops[0].path != [] && IsObjectAt(state, ops[0].path[..|ops[0].path| - 1])
    ensures Resolves(state, ops) <==> Resolves(state, ops[1..])
  {
    if Resolves(state, ops[1..]) {
      forall i | 0 <= i < |ops| && ops[i].path != [] ensures IsObjectAt(state, ops[i].path[..|ops[i].path| - 1]) {
        if i > 0 { assert ops[1..][i - 1] == ops[i]; }
      }
    }
  }

  /** A list of operations changes nothing beside its paths, and above them nothing but members. */
  lemma {:induction false} AfterAll(state: Json, ops: seq<Operation>, q: Path)
    requires state.Object? && AllSafe(ops) && ApplyAll(state, ops).Ok?
    ensures (forall i :: 0 <= i < |ops| ==> Incomparable(ops[i].path, q)) ==>
      Lookup(ApplyAll(state, ops).value, q) == Lookup(state, q)
    ensures (forall i :: 0 <= i < |ops| ==> !(ops[i].path <= q)) ==>
      Surface(ApplyAll(state, ops).value, q) == Surface(state, q)
    decreases |ops|
  {
    if ops != [] {
      assert forall i :: 0 <= i < |ops[1..]| ==> ops[1..][i] == ops[i + 1];
      var next := ApplyOperation(state, ops[0]).value;
      AfterAll(next, ops[1..], q);
      if Incomparable(ops[0].path, q) { LookupAfter(state, ops[0].path, ops[0], q); }
      if !(ops[0].path <= q) { SurfaceAfter(state, ops[0].path, ops[0], q); }
    }
  }

  /** What a list whose paths lie apart leaves at its paths. */
  lemma {:induction false} WrittenAfter(state: Json, ops: seq<Operation>, i: nat)
    requires state.Object? && AllSafe(ops) && Apart(PathsOf(ops)) && ApplyAll(state, ops).Ok? && i < |ops|
    ensures Lookup(ApplyAll(state, ops).value, ops[i].path) == Written(ops[i])
    decreases |ops|
  {
    TailApart(ops);
    var next := ApplyOperation(state, ops[0]).value;
    if i == 0 {
      var path := ops[0].path;
      LookupAfter(state, path, ops[0], path);
      assert path[|path|..] == [];
      AfterAll(next, ops[1..], path);
    } else {
      WrittenAfter(next, ops[1..], i - 1);
    }
  }

  // The paths of a diff lie apart

  lemma {:induction false} CollectApart(left: Json, right: Json)
    ensures Apart(PathsOf(Collect(left, right)))
    decreases left, 1
  {
    if left != right && left.Object? && right.Object? {
      CollectKeysApart(left, right, left.fields.Keys + right.fields.Keys);
    }
  }

  lemma {:induction false} CollectKeysApart(left: Json, right: Json, keys: set<string>)
    requires left.Object? && right.Object? && keys <= left.fields.Keys + right.fields.Keys
    ensures Apart(PathsOf(CollectKeys(left, right, keys)))
    ensures forall i :: 0 <= i < |CollectKeys(left, right, keys)| ==>
      CollectKeys(left, right, keys)[i].path != [] && CollectKeys(left, right, keys)[i].path[0] in keys
    decreases left, 0, keys
  {
    if keys != {} {
      var key := FirstKey(keys);
      var head, rest := CollectKey(left, right, key), CollectKeys(left, right, keys - {key});
      CollectKeysApart(left, right, keys - {key});
      assert Apart(PathsOf(head)) by {
        if key in left.fields && key in right.fields {
          CollectApart(left.fields[key], right.fields[key]);
          BelowApart(key, Collect(left.fields[key], right.fields[key]));
        }
      }
      assert forall i :: 0 <= i < |head| ==> head[i].path != [] && head[i].path[0] == key;
      hide CollectKey, Collect;
      JoinApart(key, head, rest);
    }
  }

  lemma BelowApart(key: string, ops: seq<Operation>)
    requires Apart(PathsOf(ops))
    ensures Apart(PathsOf(Below([key], ops)))
  {
    var below := Below([key], ops);
    forall i, j | 0 <= i < j < |below| ensures Incomparable(below[i].path, below[j].path) {
      assert Incomparable(PathsOf(ops)[i], PathsOf(ops)[j]);
      assert below[i].path[1..] == ops[i].path && below[j].path[1..] == ops[j].path;
    }
  }

  lemma JoinApart(key: string, head: seq<Operation>, rest: seq<Operation>)
    requires Apart(PathsOf(head)) && Apart(PathsOf(rest))
    requires forall i :: 0 <= i < |head| ==> head[i].path != [] && head[i].path[0] == key
    requires forall i :: 0 <= i < |rest| ==> rest[i].path != [] && rest[i].path[0] != key
    ensures Apart(PathsOf(head + rest))
  {
    var all := PathsOf(head + rest);
    PathsConcat(head, rest);
    forall i, j | 0 <= i < j < |all| ensures Incomparable(all[i], all[j]) {
      if j < |head| {
        assert Incomparable(PathsOf(head)[i], PathsOf(head)[j]);
      } else if i >= |head| {
        assert Incomparable(PathsOf(rest)[i - |head|], PathsOf(rest)[j - |head|]);
      } else {
        assert all[i][0] == key && all[j][0] != key;
      }
    }
  }

  /** A diff writes at each of its paths what the target state holds there. */
  lemma DiffWritesTarget(left: Json, right: Json, i: nat)
    requires Diff(left, right).Ok? && i < |Diff(left, right).value|
    ensures var op := Diff(left, right).value[i]; Written(op) == Lookup(right, op.path)
  {
    DiffRoundTrip(left, right);
    CollectApart(left, right);
    WrittenAfter(left, Diff(left, right).value, i);
  }

  // Two states that differ at and below some paths only

  ghost predicate AgreeBeside(paths: seq<Path>, x: Json, y: Json) {
    forall q: Path :: (forall i :: 0 <= i < |paths| ==> !(paths[i] <= q)) ==> Surface(x, q) == Surface(y, q)
  }

  lemma {:induction false} AgreeAfter(paths: seq<Path>, x: Json, y: Json, ops: seq<Operation>)
    requires x.Object? && y.Object? && AgreeBeside(paths, x, y)
    requires ApplyAll(x, ops).Ok? && ApplyAll(y, ops).Ok?
    ensures AgreeBeside(paths, ApplyAll(x, ops).value, ApplyAll(y, ops).value)
    decreases |ops|
  {
    if ops != [] {
      AgreeStep(paths, x, y, ops[0]);
      AgreeAfter(paths, ApplyOperation(x, ops[0]).value, ApplyOperation(y, ops[0]).value, ops[1..]);
    }
  }

  lemma AgreeStep(paths: seq<Path>, x: Json, y: Json, op: Operation)
    requires x.Object? && y.Object? && AgreeBeside(paths, x, y)
    requires ApplyOperation(x, op).Ok? && ApplyOperation(y, op).Ok?
    ensures AgreeBeside(paths, ApplyOperation(x, op).value, ApplyOperation(y, op).value)
  {
    var x', y' := ApplyOperation(x, op).value, ApplyOperation(y, op).value;
    forall q: Path | forall i :: 0 <= i < |paths| ==> !(paths[i] <= q) ensures Surface(x', q) == Surface(y', q) {
      if op.path <= q {
        LookupAfter(x, op.path, op, q);
        LookupAfter(y, op.path, op, q);
      } else {
        SurfaceAfter(x, op.path, op, q);
        SurfaceAfter(y, op.path, op, q);
      }
    }
  }

  lemma AgreeBeforeAfter(state: Json, ops: seq<Operation>)
    requires state.Object? && AllSafe(ops) && Apart(PathsOf(ops)) && ApplyAll(state, ops).Ok?
    ensures AgreeBeside(PathsOf(ops), state, ApplyAll(state, ops).value)
  {
    forall q: Path | forall i :: 0 <= i < |PathsOf(ops)| ==> !(PathsOf(ops)[i] <= q)
      ensures Surface(state, q) == Surface(ApplyAll(state, ops).value, q)
    {
      assert forall i :: 0 <= i < |ops| ==> ops[i].path == PathsOf(ops)[i];
      AfterAll(state, ops, q);
    }
  }

  /** Each path holds in `x` what the operation writes there. */
  ghost predicate HoldsWritten(ops: seq<Operation>, x: Json) {
    forall i :: 0 <= i < |ops| ==> Lookup(x, ops[i].path) == Written(ops[i])
  }

  /**
   `x` and `now` differ at and below the paths of `undo` only. Then applying `undo` to `now` gives `x` exactly
   when `undo` applies and writes at each of its paths what `x` holds there.
   */
  lemma UndoMeets(x: Json, now: Json, undo: seq<Operation>)
    requires now.Object? && AllSafe(undo) && Apart(PathsOf(undo)) && AgreeBeside(PathsOf(undo), x, now)
    ensures ApplyAll(now, undo) == Ok(x) <==> Resolves(now, undo) && HoldsWritten(undo, x)
  {
    AppliesExactly(now, undo);
    if ApplyAll(now, undo).Ok? {
      var r := ApplyAll(now, undo).value;
      forall i | 0 <= i < |undo| ensures Lookup(r, undo[i].path) == Written(undo[i]) {
        WrittenAfter(now, undo, i);
      }
      if HoldsWritten(undo, x) {
        forall q: Path ensures Surface(r, q) == Surface(x, q) {
          UndoMeetsAt(x, now, undo, q);
        }
        SameSurface(r, x);
      }
    }
  }

  lemma UndoMeetsAt(x: Json, now: Json, undo: seq<Operation>, q: Path)
    requires now.Object? && AllSafe(undo) && Apart(PathsOf(undo)) && AgreeBeside(PathsOf(undo), x, now)
    requires ApplyAll(now, undo).Ok?
    requires HoldsWritten(undo, x)
    ensures Surface(ApplyAll(now, undo).value, q) == Surface(x, q)
  {
    var r := ApplyAll(now, undo).value;
    if i :| 0 <= i < |undo| && undo[i].path <= q {
      WrittenAfter(now, undo, i);
      LookupSplit(r, undo[i].path, q);
      LookupSplit(x, undo[i].path, q);
    } else {
      assert forall i :: 0 <= i < |undo| ==> PathsOf(undo)[i] == undo[i].path;
      AfterAll(now, undo, q);
    }
  }

  /** Operations beside these paths move neither the values along them nor the objects above them. */
  lemma BesidePaths(state: Json, later: seq<Operation>, ops: seq<Operation>)
    requires state.Object? && AllSafe(later) && AllSafe(ops) && Unrelated(ops, later) && ApplyAll(state, later).Ok?
    ensures Resolves(ApplyAll(state, later).value, ops) <==> Resolves(state, ops)
    ensures HoldsWritten(ops, ApplyAll(state, later).value) <==> HoldsWritten(ops, state)
  {
    var after := ApplyAll(state, later).value;
    forall i | 0 <= i < |ops|
      ensures Lookup(after, ops[i].path) == Lookup(state, ops[i].path)
      ensures IsObjectAt(after, ops[i].path[..|ops[i].path| - 1]) <==>
              IsObjectAt(state, ops[i].path[..|ops[i].path| - 1])
    {
      AfterAll(state, later, ops[i].path);
      ParentBeside(state, later, ops[i].path);
    }
    hide ApplyAll, Lookup, IsObjectAt;
  }

  lemma ParentBeside(state: Json, ops: seq<Operation>, path: Path)
    requires state.Object? && path != [] && AllSafe(ops) && ApplyAll(state, ops).Ok?
    requires forall j :: 0 <= j < |ops| ==> !(ops[j].path <= path[..|path| - 1])
    ensures IsObjectAt(ApplyAll(state, ops).value, path[..|path| - 1]) <==> IsObjectAt(state, path[..|path| - 1])
  {
    AfterAll(state, ops, path[..|path| - 1]);
    SurfaceTellsObjects(state, path[..|path| - 1]);
    SurfaceTellsObjects(ApplyAll(state, ops).value, path[..|path| - 1]);
  }

  /** Operations that lie apart can be undone along the same paths: the objects above them are still there. */
  lemma StillResolves(state: Json, forward: seq<Operation>, inverse: seq<Operation>)
    requires state.Object? && AllSafe(forward) && Apart(PathsOf(forward)) && PathsOf(inverse) == PathsOf(forward)
    requires ApplyAll(state, forward).Ok?
    ensures Resolves(ApplyAll(state, forward).value, inverse)
  {
    AppliesExactly(state, forward);
    assert |PathsOf(inverse)| == |PathsOf(forward)|;
    forall i | 0 <= i < |inverse| && inverse[i].path != []
      ensures IsObjectAt(ApplyAll(state, forward).value, inverse[i].path[..|inverse[i].path| - 1])
    {
      var path := inverse[i].path;
      assert PathsOf(inverse)[i] == PathsOf(forward)[i];
      forall j | 0 <= j < |forward| ensures !(forward[j].path <= path[..|path| - 1]) {
        assert path[..|path| - 1] <= path;
        if j < i { assert Incomparable(PathsOf(forward)[j], PathsOf(forward)[i]); }
        if i < j { assert Incomparable(PathsOf(forward)[i], PathsOf(forward)[j]); }
      }
      ParentBeside(state, forward, path);
    }
  }
}
