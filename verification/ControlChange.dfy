/**
 Structural changes of the control state: what differs between two states as a list of writes along paths,
 and how such a list is applied.

 A control state is a JSON tree. The code tells objects from everything else and compares the rest by its
 JSON text, so a tree here is an object or a leaf that stands for the text of a scalar or an array. The
 order of an object's keys is not part of the state: no operation depends on it.
 */
module ControlChange {
  import opened Wrappers
  import Sequences

  datatype Json = Leaf(text: string) | Object(fields: map<string, Json>)

  type Path = seq<string>

  datatype Operation = SetAt(path: Path, value: Json) | DeleteAt(path: Path)

  datatype ChangeError = NotAnObject | NoChange | EmptyChange | BadPath | Unresolved

  // Paths

  const UNSAFE_PATH_SEGMENTS: set<string> := {"__proto__", "constructor", "prototype"}

  predicate SafeSegment(segment: string) { segment != "" && segment !in UNSAFE_PATH_SEGMENTS }

  predicate SafePath(path: Path) { path != [] && forall i :: 0 <= i < |path| ==> SafeSegment(path[i]) }

  /** Neither path leads through the other. */
  predicate Incomparable(p: Path, q: Path) { !(p <= q) && !(q <= p) }

  // Applying a change

  /** Writes or deletes at a path below the object `state`. */
  function ApplyAt(state: Json, path: Path, op: Operation): Result<Json, ChangeError>
    requires state.Object? && path != []
    ensures ApplyAt(state, path, op).Ok? ==> ApplyAt(state, path, op).value.Object?
    decreases |path|
  {
    var key := path[0];
    if |path| == 1 then
      Ok(match op
         case SetAt(_, value) => Object(state.fields[key := value])
         case DeleteAt(_) => Object(state.fields - {key}))
    else if key !in state.fields || !state.fields[key].Object? then
      Err(Unresolved)
    else
      match ApplyAt(state.fields[key], path[1..], op)
      case Ok(child) => Ok(Object(state.fields[key := child]))
      case Err(error) => Err(error)
  }

  function ApplyOperation(state: Json, op: Operation): Result<Json, ChangeError>
    requires state.Object?
    ensures ApplyOperation(state, op).Ok? ==> ApplyOperation(state, op).value.Object?
  {
    if SafePath(op.path) then ApplyAt(state, op.path, op) else Err(BadPath)
  }

  function ApplyAll(state: Json, ops: seq<Operation>): Result<Json, ChangeError>
    requires state.Object?
    ensures ApplyAll(state, ops).Ok? ==> ApplyAll(state, ops).value.Object?
    decreases |ops|
  {
    if ops == [] then Ok(state)
    else match ApplyOperation(state, ops[0])
      case Ok(next) => ApplyAll(next, ops[1..])
      case Err(error) => Err(error)
  }

  /** applyControlStateChange */
  function ApplyChange(state: Json, ops: seq<Operation>): Result<Json, ChangeError>
  {
    if !state.Object? then Err(NotAnObject)
    else if ops == [] then Err(EmptyChange)
    else ApplyAll(state, ops)
  }

  // Diffing

  predicate StringBelow(a: string, b: string) {
    if b == [] then false
    else if a == [] then true
    else a[0] < b[0] || (a[0] == b[0] && StringBelow(a[1..], b[1..]))
  }

  lemma {:induction false} StringBelowTrichotomy(a: string, b: string)
    ensures a == b || StringBelow(a, b) || StringBelow(b, a)
    ensures !(StringBelow(a, b) && StringBelow(b, a))
    ensures !StringBelow(a, a)
  {
    if a != [] && b != [] {
      StringBelowTrichotomy(a[1..], b[1..]);
      if a[0] == b[0] && a[1..] == b[1..] { assert a == [a[0]] + a[1..] == b; }
    }
    if a != [] { StringBelowTrichotomy(a[1..], a[1..]); }
  }

  lemma {:induction false} StringBelowTransitive(a: string, b: string, c: string)
    requires StringBelow(a, b) && StringBelow(b, c)
    ensures StringBelow(a, c)
  {
    if a != [] && a[0] == b[0] == c[0] {
      StringBelowTransitive(a[1..], b[1..], c[1..]);
    }
  }

  predicate IsFirstKey(keys: set<string>, key: string) {
    key in keys && forall k :: k in keys ==> k == key || StringBelow(key, k)
  }

  lemma {:induction false} FirstKeyExists(keys: set<string>) returns (key: string)
    requires keys != {}
    ensures IsFirstKey(keys, key)
    decreases keys
  {
    var k :| k in keys;
    if keys == {k} {
      key := k;
    } else {
      var other := FirstKeyExists(keys - {k});
      StringBelowTrichotomy(k, other);
      key := if StringBelow(k, other) then k else other;
      forall x | x in keys ensures x == key || StringBelow(key, x) {
        if x != k && x != other && key == k {
          StringBelowTransitive(k, other, x);
        }
      }
    }
  }

  /** The first key in the order of Array.prototype.sort. */
  function FirstKey(keys: set<string>): (key: string)
    requires keys != {}
    ensures IsFirstKey(keys, key)
  {
    assert exists k :: IsFirstKey(keys, k) by {
      var k := FirstKeyExists(keys);
    }
    assert forall a, b :: IsFirstKey(keys, a) && IsFirstKey(keys, b) ==> a == b by {
      forall a, b | IsFirstKey(keys, a) && IsFirstKey(keys, b) ensures a == b { StringBelowTrichotomy(a, b); }
    }
    var k :| k in keys && IsFirstKey(keys, k);
    k
  }

  /** Puts a path in front of the path of every operation. */
  function Below(path: Path, ops: seq<Operation>): (r: seq<Operation>)
    ensures |r| == |ops|
  {
    seq(|ops|, i requires 0 <= i < |ops| => ops[i].(path := path + ops[i].path))
  }

  /** The operations collect() pushes for two values, with paths relative to them. */
  function Collect(left: Json, right: Json): seq<Operation>
    decreases left, 2
  {
    if left == right then []
    else if left.Object? && right.Object? then CollectKeys(left, right, left.fields.Keys + right.fields.Keys)
    else [SetAt([], right)]
  }

  function CollectKeys(left: Json, right: Json, keys: set<string>): seq<Operation>
    requires left.Object? && right.Object? && keys <= left.fields.Keys + right.fields.Keys
    decreases left, 1, keys
  {
    if keys == {} then []
    else
      var key := FirstKey(keys);
      CollectKey(left, right, key) + CollectKeys(left, right, keys - {key})
  }

  function CollectKey(left: Json, right: Json, key: string): seq<Operation>
    requires left.Object? && right.Object? && key in left.fields.Keys + right.fields.Keys
    decreases left, 0
  {
    if key !in right.fields then [DeleteAt([key])]
    else if key !in left.fields then [SetAt([key], right.fields[key])]
    else Below([key], Collect(left.fields[key], right.fields[key]))
  }

  predicate AllSafe(ops: seq<Operation>) { forall i :: 0 <= i < |ops| ==> SafePath(ops[i].path) }

  /** diffControlState */
  function Diff(before: Json, after: Json): Result<seq<Operation>, ChangeError> {
    if !before.Object? || !after.Object? then Err(NotAnObject)
    else
      var ops := Collect(before, after);
      if ops == [] then Err(NoChange)
      else if !AllSafe(ops) then Err(BadPath)
      else Ok(ops)
  }

  // The list that collect() pushes into

  class OperationList {
    var items: seq<Operation>

    constructor ()
      ensures items == []
    {
      items := [];
    }

    method Push(op: Operation)
      modifies this
      ensures items == old(items) + [op]
    {
      items := items + [op];
    }
  }

  method CollectInto(left: Json, right: Json, path: Path, operations: OperationList)
    modifies operations
    ensures operations.items == old(operations.items) + Below(path, Collect(left, right))
    decreases left, 1
  {
    BelowFew(path, right);
    if left == right { return; }
    if left.Object? && right.Object? {
      var keys := left.fields.Keys + right.fields.Keys;
      ghost var all := keys;
      hide Below, FirstKey;
      while keys != {}
        invariant keys <= all
        invariant old(operations.items) + Below(path, Collect(left, right))
                  == operations.items + Below(path, CollectKeys(left, right, keys))
        decreases keys
      {
        var key := FirstKey(keys);
        ghost var before := operations.items;
        CollectKeyInto(left, right, key, path, operations);
        BelowConcat(path, CollectKey(left, right, key), CollectKeys(left, right, keys - {key}));
        Sequences.Reassociate(before, Below(path, CollectKey(left, right, key)),
                              Below(path, CollectKeys(left, right, keys - {key})));
        keys := keys - {key};
      }
      return;
    }
    operations.Push(SetAt(path, right));
  }

  method CollectKeyInto(left: Json, right: Json, key: string, path: Path, operations: OperationList)
    requires left.Object? && right.Object? && key in left.fields.Keys + right.fields.Keys
    modifies operations
    ensures operations.items == old(operations.items) + Below(path, CollectKey(left, right, key))
    decreases left, 0
  {
    if key !in right.fields {
      operations.Push(DeleteAt(path + [key]));
    } else if key !in left.fields {
      operations.Push(SetAt(path + [key], right.fields[key]));
    } else {
      BelowBelow(path, [key], Collect(left.fields[key], right.fields[key]));
      CollectInto(left.fields[key], right.fields[key], path + [key], operations);
    }
  }

  lemma BelowFew(path: Path, value: Json)
    ensures Below(path, []) == [] && Below(path, [SetAt([], value)]) == [SetAt(path, value)]
  {
    assert path + [] == path;
  }

  method DiffControlState(before: Json, after: Json) returns (r: Result<seq<Operation>, ChangeError>)
    ensures r == Diff(before, after)
  {
    if !before.Object? || !after.Object? { return Err(NotAnObject); }
    var operations := new OperationList();
    CollectInto(before, after, [], operations);
    var items := operations.items;
    assert items == Collect(before, after) by { BelowNothing(Collect(before, after)); }
    hide Collect, Below;
    if items == [] { return Err(NoChange); }
    for i := 0 to |items|
      invariant forall j :: 0 <= j < i ==> SafePath(items[j].path)
    {
      if !SafePath(items[i].path) { return Err(BadPath); }
    }
    r := Ok(items);
  }

  method ApplyControlStateChange(state: Json, operations: seq<Operation>) returns (r: Result<Json, ChangeError>)
    ensures r == ApplyChange(state, operations)
  {
    if !state.Object? { return Err(NotAnObject); }
    if operations == [] { return Err(EmptyChange); }
    var next := state;
    for i := 0 to |operations|
      invariant next.Object? && ApplyAll(state, operations) == ApplyAll(next, operations[i..])
    {
      var step := ApplyOperation(next, operations[i]);
      if step.Err? { return Err(step.error); }
      next := step.value;
      assert operations[i..][1..] == operations[i + 1..];
    }
    r := Ok(next);
  }

  lemma BelowNothing(ops: seq<Operation>)
    ensures Below([], ops) == ops
  {
    forall i | 0 <= i < |ops| ensures Below([], ops)[i] == ops[i] { assert [] + ops[i].path == ops[i].path; }
  }

  lemma BelowBelow(p: Path, q: Path, ops: seq<Operation>)
    ensures Below(p, Below(q, ops)) == Below(p + q, ops)
  {
    forall i | 0 <= i < |ops| ensures Below(p, Below(q, ops))[i] == Below(p + q, ops)[i] {
      assert p + (q + ops[i].path) == (p + q) + ops[i].path;
    }
  }

  lemma BelowConcat(path: Path, a: seq<Operation>, b: seq<Operation>)
    ensures Below(path, a + b) == Below(path, a) + Below(path, b)
  {
  }
}
