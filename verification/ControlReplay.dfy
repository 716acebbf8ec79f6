/** What diffs and applications of control changes mean: round trips, equal path sets, and commutation. */
module ControlReplay {
  import opened Wrappers
  import opened ControlChange

  lemma {:induction false} ApplyConcat(state: Json, a: seq<Operation>, b: seq<Operation>)
    requires state.Object?
    ensures ApplyAll(state, a + b) ==
      match ApplyAll(state, a) case Ok(mid) => ApplyAll(mid, b) case Err(e) => Err(e)
    decreases |a|
  {
    if a == [] {
      assert a + b == b;
    } else {
      assert (a + b)[0] == a[0] && (a + b)[1..] == a[1..] + b;
      var step := ApplyOperation(state, a[0]);
      if step.Ok? { ApplyConcat(step.value, a[1..], b); }
    }
  }

  // A diff leads from the one state to the other

  predicate SafeSegments(ops: seq<Operation>)
  {
    forall i, j :: 0 <= i < |ops| && 0 <= j < |ops[i].path| ==> SafeSegment(ops[i].path[j])
  }

  /** Writing below one key changes only that key. */
  lemma {:induction false} ApplyBelow(state: Json, key: string, ops: seq<Operation>)
    requires state.Object? && key in state.fields && state.fields[key].Object?
    requires AllSafe(ops) && SafeSegment(key)
    ensures ApplyAll(state, Below([key], ops)) ==
      match ApplyAll(state.fields[key], ops)
      case Ok(child) => Ok(Object(state.fields[key := child]))
      case Err(e) => Err(e)
    decreases |ops|
  {
    var below := Below([key], ops);
    if ops == [] {
      assert state.fields[key := state.fields[key]] == state.fields;
    } else {
      assert below[0].path == [key] + ops[0].path && below[0].path[1..] == ops[0].path;
      assert below[1..] == Below([key], ops[1..]);
      assert SafePath(below[0].path);
      var step := ApplyOperation(state.fields[key], ops[0]);
      SameWrite(state.fields[key], ops[0].path, ops[0], below[0]);
      if step.Ok? {
        var next := Object(state.fields[key := step.value]);
        assert ApplyOperation(state, below[0]) == Ok(next);
        ApplyBelow(next, key, ops[1..]);
        assert ApplyAll(state, below) == ApplyAll(next, below[1..]);
        if ApplyAll(step.value, ops[1..]).Ok? {
          var child := ApplyAll(step.value, ops[1..]).value;
          assert next.fields[key := child] == state.fields[key := child];
        }
      }
    }
  }

  /** Only the kind and the value of an operation matter once its path is given. */
  lemma {:induction false} SameWrite(state: Json, path: Path, a: Operation, b: Operation)
    requires state.Object? && path != [] && a.(path := b.path) == b
    ensures ApplyAt(state, path, a) == ApplyAt(state, path, b)
    decreases |path|
  {
    if |path| > 1 && path[0] in state.fields && state.fields[path[0]].Object? {
      SameWrite(state.fields[path[0]], path[1..], a, b);
    }
  }

  /** `state` with every key of `keys` taken from `right`. */
  function Patched(state: Json, right: Json, keys: set<string>): Json
    requires state.Object? && right.Object?
  {
    Object(map k | k in state.fields.Keys + right.fields.Keys
      && k in (if k in keys then right.fields.Keys else state.fields.Keys)
           :: if k in keys then right.fields[k] else state.fields[k])
  }

  lemma ApplyOne(state: Json, op: Operation, next: Json)
    requires state.Object? && ApplyOperation(state, op) == Ok(next)
    ensures ApplyAll(state, [op]) == Ok(next)
  {
    assert [op][1..] == [];
  }

  lemma PatchOne(state: Json, right: Json, key: string)
    requires state.Object? && right.Object?
    ensures key !in right.fields ==> Patched(state, right, {key}).fields == state.fields - {key}
    ensures key in right.fields ==> Patched(state, right, {key}).fields == state.fields[key := right.fields[key]]
  {
  }

  lemma CollectKeyApplies(left: Json, right: Json, key: string, state: Json)
    requires left.Object? && right.Object? && state.Object? && key in left.fields.Keys + right.fields.Keys
    requires key in state.fields <==> key in left.fields
    requires key in left.fields ==> state.fields[key] == left.fields[key]
    requires AllSafe(CollectKey(left, right, key))
    ensures ApplyAll(state, CollectKey(left, right, key)) == Ok(Patched(state, right, {key}))
    decreases left, 0
  {
    PatchOne(state, right, key);
    hide Patched, Collect, Below, ApplyAll;
    var ops := CollectKey(left, right, key);
    if key !in right.fields {
      assert SafePath(ops[0].path);
      ApplyOne(state, ops[0], Object(state.fields - {key}));
    } else if key !in left.fields {
      assert SafePath(ops[0].path);
      ApplyOne(state, ops[0], Object(state.fields[key := right.fields[key]]));
    } else {
      CollectBelowApplies(left.fields[key], right.fields[key], key, state);
    }
  }

  lemma CollectBelowApplies(l: Json, r: Json, key: string, state: Json)
    requires state.Object? && key in state.fields && state.fields[key] == l
    requires AllSafe(Below([key], Collect(l, r)))
    ensures ApplyAll(state, Below([key], Collect(l, r))) == Ok(Object(state.fields[key := r]))
    decreases l, 3
  {
    var inner := Collect(l, r);
    var ops := Below([key], inner);
    if l == r {
      assert state.fields[key := r] == state.fields;
    } else if l.Object? && r.Object? {
      NonEmptyPaths(l, r, l.fields.Keys + r.fields.Keys);
      assert inner == CollectKeys(l, r, l.fields.Keys + r.fields.Keys);
      forall i | 0 <= i < |inner| ensures SafePath(inner[i].path) {
        assert inner[i].path != [];
        assert SafePath(ops[i].path) && ops[i].path[1..] == inner[i].path;
      }
      DiffApplies(l, r);
      assert inner != [];
      assert SafePath(ops[0].path) && ops[0].path[0] == key;
      ApplyBelow(state, key, inner);
    } else {
      BelowFew([key], r);
      assert SafePath(ops[0].path);
      ApplyOne(state, SetAt([key], r), Object(state.fields[key := r]));
    }
  }

  lemma {:induction false} NonEmptyPaths(left: Json, right: Json, keys: set<string>)
    requires left.Object? && right.Object? && keys <= left.fields.Keys + right.fields.Keys
    ensures forall i :: 0 <= i < |CollectKeys(left, right, keys)| ==> CollectKeys(left, right, keys)[i].path != []
    decreases keys
  {
    if keys != {} {
      var key := FirstKey(keys);
      NonEmptyPaths(left, right, keys - {key});
    }
  }

  lemma PatchMore(state: Json, right: Json, key: string, keys: set<string>)
    requires state.Object? && right.Object? && key in keys
    ensures Patched(Patched(state, right, {key}), right, keys - {key}) == Patched(state, right, keys)
  {
    assert Patched(Patched(state, right, {key}), right, keys - {key}).fields == Patched(state, right, keys).fields;
  }

  lemma SafeParts(a: seq<Operation>, b: seq<Operation>)
    requires AllSafe(a + b)
    ensures AllSafe(a) && AllSafe(b)
  {
    assert forall i :: 0 <= i < |a| ==> (a + b)[i] == a[i];
    assert forall i :: 0 <= i < |b| ==> (a + b)[|a| + i] == b[i];
  }

  lemma CollectKeysApply(left: Json, right: Json, keys: set<string>, state: Json)
    requires left.Object? && right.Object? && state.Object? && keys <= left.fields.Keys + right.fields.Keys
    requires forall k :: k in keys ==> (k in state.fields <==> k in left.fields)
    requires forall k :: k in keys && k in left.fields ==> state.fields[k] == left.fields[k]
    requires AllSafe(CollectKeys(left, right, keys))
    ensures ApplyAll(state, CollectKeys(left, right, keys)) == Ok(Patched(state, right, keys))
    decreases left, 1, keys
  {
    if keys == {} {
      assert Patched(state, right, {}).fields == state.fields;
    } else {
      var key := FirstKey(keys);
      var head, rest := CollectKey(left, right, key), CollectKeys(left, right, keys - {key});
      SafeParts(head, rest);
      CollectKeyApplies(left, right, key, state);
      var next := Patched(state, right, {key});
      forall k | k in keys - {key}
        ensures (k in next.fields <==> k in left.fields) && (k in left.fields ==> next.fields[k] == left.fields[k]) {
      }
      hide Patched, ApplyAll, CollectKey, AllSafe;
      CollectKeysApply(left, right, keys - {key}, next);
      ApplyConcat(state, head, rest);
      PatchMore(state, right, key, keys);
    }
  }

  /** The heart of the round trip: on safe paths the collected operations turn `left` into `right`. */
  lemma DiffApplies(left: Json, right: Json)
    requires left.Object? && right.Object? && AllSafe(Collect(left, right))
    ensures ApplyAll(left, Collect(left, right)) == Ok(right)
    decreases left, 2
  {
    if left != right {
      var keys := left.fields.Keys + right.fields.Keys;
      CollectKeysApply(left, right, keys, left);
      assert Patched(left, right, keys).fields == right.fields;
    }
  }

  /** Keys at every depth are safe: then a diff of two different objects always succeeds. */
  predicate SafeKeys(state: Json) {
    state.Object? ==> forall k :: k in state.fields ==> SafeSegment(k) && SafeKeys(state.fields[k])
  }

  lemma {:induction false} NothingCollected(left: Json, right: Json)
    ensures Collect(left, right) == [] <==> left == right
    decreases left, 1
  {
    if left != right && left.Object? && right.Object? {
      var keys := left.fields.Keys + right.fields.Keys;
      if CollectKeys(left, right, keys) == [] {
        NoKeyCollected(left, right, keys);
        SameFields(left, right);
        assert false;
      }
    }
  }

  lemma SameFields(left: Json, right: Json)
    requires left.Object? && right.Object?
    requires forall k :: k in left.fields.Keys + right.fields.Keys ==>
      k in left.fields && k in right.fields && left.fields[k] == right.fields[k]
    ensures left == right
  {
    assert left.fields == right.fields;
  }

  lemma {:induction false} NoKeyCollected(left: Json, right: Json, keys: set<string>)
    requires left.Object? && right.Object? && keys <= left.fields.Keys + right.fields.Keys
    requires CollectKeys(left, right, keys) == []
    ensures forall k :: k in keys ==> k in left.fields && k in right.fields && left.fields[k] == right.fields[k]
    decreases left, 0, keys
  {
    if keys != {} {
      var key := FirstKey(keys);
      NoKeyCollected(left, right, keys - {key});
      assert CollectKey(left, right, key) == [];
      assert |Below([key], Collect(left.fields[key], right.fields[key]))| == 0;
      NothingCollected(left.fields[key], right.fields[key]);
    }
  }

  lemma {:induction false} CollectSafe(left: Json, right: Json)
    requires SafeKeys(left) && SafeKeys(right)
    ensures SafeSegments(Collect(left, right))
    decreases left, 1
  {
    if left.Object? && right.Object? && left != right {
      CollectKeysSafe(left, right, left.fields.Keys + right.fields.Keys);
    }
  }

  lemma {:induction false} CollectKeysSafe(left: Json, right: Json, keys: set<string>)
    requires left.Object? && right.Object? && SafeKeys(left) && SafeKeys(right)
    requires keys <= left.fields.Keys + right.fields.Keys
    ensures SafeSegments(CollectKeys(left, right, keys))
    decreases left, 0, keys
  {
    if keys != {} {
      var key := FirstKey(keys);
      CollectKeysSafe(left, right, keys - {key});
      if key in left.fields && key in right.fields {
        CollectSafe(left.fields[key], right.fields[key]);
      }
    }
  }

  /**
   Diffing is exact: it refuses two equal states and unsafe paths only, and what it returns turns the first
   state into the second. On states whose keys are safe it fails only when there is nothing to record.
   */
  lemma DiffRoundTrip(before: Json, after: Json)
    requires before.Object? && after.Object?
    ensures Diff(before, after).Ok? ==> ApplyChange(before, Diff(before, after).value) == Ok(after)
    ensures Diff(before, after) == Err(NoChange) <==> before == after
    ensures SafeKeys(before) && SafeKeys(after) ==> (Diff(before, after).Ok? <==> before != after)
  {
    NothingCollected(before, after);
    if AllSafe(Collect(before, after)) { DiffApplies(before, after); }
    if SafeKeys(before) && SafeKeys(after) {
      CollectSafe(before, after);
      if before != after { NonEmptyPaths(before, after, before.fields.Keys + after.fields.Keys); }
    }
  }

  // Forward and inverse diffs touch the same paths

  function PathsOf(ops: seq<Operation>): seq<Path> {
    seq<Path>(|ops|, i requires 0 <= i < |ops| => ops[i].path)
  }

  lemma PathsConcat(a: seq<Operation>, b: seq<Operation>)
    ensures PathsOf(a + b) == PathsOf(a) + PathsOf(b)
  {
  }

  lemma {:induction false} SamePathsKeys(left: Json, right: Json, keys: set<string>)
    requires left.Object? && right.Object? && keys <= left.fields.Keys + right.fields.Keys
    ensures PathsOf(CollectKeys(left, right, keys)) == PathsOf(CollectKeys(right, left, keys))
    decreases left, 0, keys
  {
    if keys != {} {
      var key := FirstKey(keys);
      SamePathsKeys(left, right, keys - {key});
      assert PathsOf(CollectKey(left, right, key)) == PathsOf(CollectKey(right, left, key)) by {
        if key in left.fields && key in right.fields {
          var l, r := left.fields[key], right.fields[key];
          SamePaths(l, r);
          PathsBelow([key], Collect(l, r));
          PathsBelow([key], Collect(r, l));
          assert |PathsOf(Collect(l, r))| == |PathsOf(Collect(r, l))|;
        }
      }
      PathsConcat(CollectKey(left, right, key), CollectKeys(left, right, keys - {key}));
      PathsConcat(CollectKey(right, left, key), CollectKeys(right, left, keys - {key}));
    }
  }

  lemma PathsBelow(path: Path, ops: seq<Operation>)
    ensures forall i :: 0 <= i < |ops| ==> PathsOf(Below(path, ops))[i] == path + PathsOf(ops)[i]
  {
  }

  /** The inverse diff writes along exactly the paths of the forward diff, in the same order. */
  lemma {:induction false} SamePaths(left: Json, right: Json)
    ensures PathsOf(Collect(left, right)) == PathsOf(Collect(right, left))
    decreases left, 1
  {
    if left != right && left.Object? && right.Object? {
      assert left.fields.Keys + right.fields.Keys == right.fields.Keys + left.fields.Keys;
      SamePathsKeys(left, right, left.fields.Keys + right.fields.Keys);
    }
  }

  // Changes on unrelated paths commute

  function ApplyTwo(state: Json, p: Path, a: Operation, q: Path, b: Operation): Result<Json, ChangeError>
    requires state.Object? && p != [] && q != []
  {
    match ApplyAt(state, p, a)
    case Ok(mid) => ApplyAt(mid, q, b)
    case Err(e) => Err(e)
  }

  /** Two writes through the same member are two writes to that member. */
  lemma TwoBelow(state: Json, p: Path, a: Operation, q: Path, b: Operation)
    requires state.Object? && |p| > 1 && |q| > 1 && p[0] == q[0]
    requires p[0] in state.fields && state.fields[p[0]].Object?
    ensures ApplyTwo(state, p, a, q, b) ==
      match ApplyTwo(state.fields[p[0]], p[1..], a, q[1..], b)
      case Ok(child) => Ok(Object(state.fields[p[0] := child]))
      case Err(e) => Err(e)
  {
    var k := p[0];
    var one := ApplyAt(state.fields[k], p[1..], a);
    if one.Ok? {
      var mid := Object(state.fields[k := one.value]);
      var two := ApplyAt(one.value, q[1..], b);
      if two.Ok? {
        assert mid.fields[k := two.value] == state.fields[k := two.value];
      }
    }
  }

  lemma {:induction false} CommuteWrites(state: Json, p: Path, a: Operation, q: Path, b: Operation)
    requires state.Object? && p != [] && q != [] && Incomparable(p, q)
    ensures ApplyTwo(state, p, a, q, b) == ApplyTwo(state, q, b, p, a)
    decreases |p|
  {
    var k, m := p[0], q[0];
    if k == m {
      assert |p| > 1 && |q| > 1;
      assert Incomparable(p[1..], q[1..]) by {
        assert p == [k] + p[1..] && q == [k] + q[1..];
      }
      if k in state.fields && state.fields[k].Object? {
        CommuteWrites(state.fields[k], p[1..], a, q[1..], b);
        TwoBelow(state, p, a, q, b);
        TwoBelow(state, q, b, p, a);
        hide ApplyAt;
      }
    } else {
      CommuteApart(state, p, a, q, b);
    }
  }

  /** What a write does to the member of an object that its path starts with. */
  function Slot(state: Json, key: string): Option<Json>
    requires state.Object?
  {
    if key in state.fields then Some(state.fields[key]) else None
  }

  function WithSlot(state: Json, key: string, slot: Option<Json>): Json
    requires state.Object?
    ensures WithSlot(state, key, slot).Object?
  {
    if slot.Some? then Object(state.fields[key := slot.value]) else Object(state.fields - {key})
  }

  function WriteSlot(slot: Option<Json>, path: Path, op: Operation): Result<Option<Json>, ChangeError>
    requires path != []
  {
    if |path| == 1 then Ok(match op case SetAt(_, value) => Some(value) case DeleteAt(_) => None)
    else if slot.None? || !slot.value.Object? then Err(Unresolved)
    else match ApplyAt(slot.value, path[1..], op)
      case Ok(child) => Ok(Some(child))
      case Err(e) => Err(e)
  }

  lemma ApplyAtBySlot(state: Json, path: Path, op: Operation)
    requires state.Object? && path != []
    ensures ApplyAt(state, path, op) ==
      match WriteSlot(Slot(state, path[0]), path, op)
      case Ok(slot) => Ok(WithSlot(state, path[0], slot))
      case Err(e) => Err(e)
  {
  }

  lemma SlotsApart(state: Json, k: string, m: string, a: Option<Json>, b: Option<Json>)
    requires state.Object? && k != m
    ensures Slot(WithSlot(state, k, a), m) == Slot(state, m)
    ensures WithSlot(WithSlot(state, k, a), m, b) == WithSlot(WithSlot(state, m, b), k, a)
  {
    assert WithSlot(WithSlot(state, k, a), m, b).fields == WithSlot(WithSlot(state, m, b), k, a).fields;
  }

  /** Below different keys the two writes do not even meet. */
  lemma CommuteApart(state: Json, p: Path, a: Operation, q: Path, b: Operation)
    requires state.Object? && p != [] && q != [] && p[0] != q[0]
    ensures ApplyTwo(state, p, a, q, b) == ApplyTwo(state, q, b, p, a)
  {
    var one, two := WriteSlot(Slot(state, p[0]), p, a), WriteSlot(Slot(state, q[0]), q, b);
    ApplyAtBySlot(state, p, a);
    ApplyAtBySlot(state, q, b);
    if one.Ok? {
      var mid := WithSlot(state, p[0], one.value);
      SlotsApart(state, p[0], q[0], one.value, None);
      ApplyAtBySlot(mid, q, b);
    }
    if two.Ok? {
      var mid := WithSlot(state, q[0], two.value);
      SlotsApart(state, q[0], p[0], two.value, None);
      ApplyAtBySlot(mid, p, a);
    }
    if one.Ok? && two.Ok? {
      SlotsApart(state, p[0], q[0], one.value, two.value);
    }
    WriteError(Slot(state, p[0]), p, a);
    WriteError(Slot(state, q[0]), q, b);
    hide WriteSlot, WithSlot, Slot, ApplyAt;
  }

  lemma {:induction false} WriteError(slot: Option<Json>, path: Path, op: Operation)
    requires path != []
    ensures WriteSlot(slot, path, op).Err? ==> WriteSlot(slot, path, op).error == Unresolved
    decreases |path|
  {
    if |path| > 1 && slot.Some? && slot.value.Object? {
      ApplyAtBySlot(slot.value, path[1..], op);
      WriteError(Slot(slot.value, path[1]), path[1..], op);
    }
  }

  ghost predicate Unrelated(a: seq<Operation>, b: seq<Operation>) {
    forall i, j :: 0 <= i < |a| && 0 <= j < |b| ==> Incomparable(a[i].path, b[j].path)
  }

  lemma CommuteTwo(state: Json, a: Operation, b: Operation)
    requires state.Object? && SafePath(a.path) && SafePath(b.path) && Incomparable(a.path, b.path)
    ensures ApplyAll(state, [a, b]) == ApplyAll(state, [b, a])
  {
    CommuteWrites(state, a.path, a, b.path, b);
    ApplyPair(state, a, b);
    ApplyPair(state, b, a);
  }

  lemma ApplyPair(state: Json, a: Operation, b: Operation)
    requires state.Object? && SafePath(a.path) && SafePath(b.path)
    ensures ApplyAll(state, [a, b]) == ApplyTwo(state, a.path, a, b.path, b)
  {
    assert [a, b][1..] == [b] && [b][1..] == [];
    var step := ApplyOperation(state, a);
    if step.Ok? {
      assert ApplyAll(step.value, [b]) == ApplyOperation(step.value, b);
    }
  }

  lemma {:induction false} CommuteOne(state: Json, a: Operation, b: seq<Operation>)
    requires state.Object? && SafePath(a.path) && AllSafe(b)
    requires forall j :: 0 <= j < |b| ==> Incomparable(a.path, b[j].path)
    ensures ApplyAll(state, [a] + b) == ApplyAll(state, b + [a])
    decreases |b|
  {
    if b == [] {
      assert [a] + b == b + [a];
    } else {
      var rest := b[1..];
      assert [a] + b == [a, b[0]] + rest;
      ApplyConcat(state, [a, b[0]], rest);
      CommuteTwo(state, a, b[0]);
      ApplyConcat(state, [b[0], a], rest);
      assert [b[0], a] + rest == [b[0]] + ([a] + rest);
      ApplyConcat(state, [b[0]], [a] + rest);
      var step := ApplyAll(state, [b[0]]);
      if step.Ok? { CommuteOne(step.value, a, rest); }
      ApplyConcat(state, [b[0]], rest + [a]);
      assert [b[0]] + (rest + [a]) == b + [a];
    }
  }

  /** Two lists of operations on pairwise unrelated paths can be applied in either order. */
  lemma {:induction false} Commute(state: Json, a: seq<Operation>, b: seq<Operation>)
    requires state.Object? && AllSafe(a) && AllSafe(b) && Unrelated(a, b)
    ensures ApplyAll(state, a + b) == ApplyAll(state, b + a)
    decreases |a|
  {
    if a == [] {
      assert a + b == b + a;
    } else {
      var head, rest := [a[0]], a[1..];
      assert a == head + rest && a + b == head + (rest + b);
      ApplyConcat(state, head, rest + b);
      var step := ApplyAll(state, head);
      if step.Ok? { Commute(step.value, rest, b); }
      ApplyConcat(state, head, b + rest);
      assert head + (b + rest) == (head + b) + rest;
      ApplyConcat(state, head + b, rest);
      CommuteOne(state, a[0], b);
      ApplyConcat(state, b + head, rest);
      assert (b + head) + rest == b + a;
    }
  }

  /**
   Undoing an older change: when every later operation is unrelated to it, applying its inverse to the
   present state gives what the later operations make of the state before the change, and neither fails.
   */
  lemma UndoUnderLater(before: Json, after: Json, later: seq<Operation>, now: Json)
    requires Diff(before, after).Ok? && Diff(after, before).Ok?
    requires AllSafe(later) && Unrelated(Diff(before, after).value, later)
    requires ApplyAll(after, later) == Ok(now)
    ensures ApplyAll(now, Diff(after, before).value) == ApplyAll(before, later)
    ensures ApplyAll(before, later).Ok?
  {
    var forward, inverse := Diff(before, after).value, Diff(after, before).value;
    DiffRoundTrip(before, after);
    DiffRoundTrip(after, before);
    SamePaths(before, after);
    forall i, j | 0 <= i < |inverse| && 0 <= j < |later| ensures Incomparable(inverse[i].path, later[j].path) {
      assert PathsOf(inverse)[i] == PathsOf(forward)[i];
    }
    Commute(after, inverse, later);
    ApplyConcat(after, inverse, later);
    ApplyConcat(after, later, inverse);
    Commute(before, forward, later);
    ApplyConcat(before, forward, later);
    ApplyConcat(before, later, forward);
  }
}
