/**
 What a diff consists of: one operation for each path at which the two states part, in the order of the paths,
 and so when two changes have nothing to do with each other.
 */
module ControlDifference {
  import opened Wrappers
  import opened ControlChange
  import opened ControlReplay
  import opened ControlPaths

  // The paths of a diff

  /** The states hold different values here, and these cannot be told apart further down. */
  ghost predicate ChangedAt(x: Json, y: Json, path: Path) {
    Lookup(x, path) != Lookup(y, path) && !(IsObjectAt(x, path) && IsObjectAt(y, path))
  }

  /** The states part at this path: both hold objects all the way above it. */
  ghost predicate PartAt(x: Json, y: Json, path: Path) {
    && ChangedAt(x, y, path)
    && forall n :: 0 <= n < |path| ==> IsObjectAt(x, path[..n]) && IsObjectAt(y, path[..n])
  }

  lemma ObjectBelow(state: Json, path: Path)
    requires path != []
    ensures IsObjectAt(state, path) <==>
            state.Object? && path[0] in state.fields && IsObjectAt(state.fields[path[0]], path[1..])
  {
  }

  lemma PartBelow(x: Json, y: Json, path: Path)
    requires path != [] && x.Object? && y.Object? && path[0] in x.fields && path[0] in y.fields
    ensures PartAt(x, y, path) <==> PartAt(x.fields[path[0]], y.fields[path[0]], path[1..])
  {
    var tail := path[1..];
    forall n | 0 <= n < |tail|
      ensures IsObjectAt(x, path[..n + 1]) <==> IsObjectAt(x.fields[path[0]], tail[..n])
      ensures IsObjectAt(y, path[..n + 1]) <==> IsObjectAt(y.fields[path[0]], tail[..n])
    {
      assert path[..n + 1][1..] == tail[..n] && path[..n + 1][0] == path[0];
      ObjectBelow(x, path[..n + 1]);
      ObjectBelow(y, path[..n + 1]);
    }
    ObjectBelow(x, path);
    ObjectBelow(y, path);
    assert Lookup(x, path) == Lookup(x.fields[path[0]], tail) && Lookup(y, path) == Lookup(y.fields[path[0]], tail);
    assert IsObjectAt(x, path[..0]) && IsObjectAt(y, path[..0]) by { assert path[..0] == []; }
    hide Lookup, IsObjectAt;
    if PartAt(x.fields[path[0]], y.fields[path[0]], tail) {
      forall n | 0 <= n < |path| ensures IsObjectAt(x, path[..n]) && IsObjectAt(y, path[..n]) {
        if n > 0 {
          var m := n - 1;
          assert IsObjectAt(x.fields[path[0]], tail[..m]) && IsObjectAt(y.fields[path[0]], tail[..m]);
          assert IsObjectAt(x, path[..m + 1]) && IsObjectAt(y, path[..m + 1]);
        }
      }
    }
  }

  /** Where only one of two objects has a member, they part there and not below. */
  lemma PartAtMissing(x: Json, y: Json, path: Path)
    requires path != [] && x.Object? && y.Object? && !(path[0] in x.fields && path[0] in y.fields)
    ensures PartAt(x, y, path) <==> |path| == 1 && (path[0] in x.fields || path[0] in y.fields)
  {
    assert path[..0] == [];
    if |path| > 1 {
      assert path[..1][0] == path[0];
      ObjectBelow(x, path[..1]);
      ObjectBelow(y, path[..1]);
    } else {
      assert path[1..] == [];
      ObjectBelow(x, path);
      ObjectBelow(y, path);
    }
  }

  lemma PathsOfBelow(key: string, ops: seq<Operation>, path: Path)
    ensures path in PathsOf(Below([key], ops)) <==> path != [] && path[0] == key && path[1..] in PathsOf(ops)
  {
    var below := Below([key], ops);
    forall i | 0 <= i < |ops| ensures PathsOf(below)[i] == [key] + PathsOf(ops)[i] {
    }
    if path != [] && path[0] == key && path[1..] in PathsOf(ops) {
      var i :| 0 <= i < |ops| && PathsOf(ops)[i] == path[1..];
      assert path == [key] + path[1..] == PathsOf(below)[i];
    }
  }

  lemma {:induction false} KeysPaths(left: Json, right: Json, keys: set<string>, path: Path)
    requires left.Object? && right.Object? && keys <= left.fields.Keys + right.fields.Keys
    ensures path in PathsOf(CollectKeys(left, right, keys)) <==>
            path != [] && path[0] in keys && path in PathsOf(CollectKey(left, right, path[0]))
    decreases keys
  {
    if keys != {} {
      var key := FirstKey(keys);
      var head, rest := CollectKey(left, right, key), CollectKeys(left, right, keys - {key});
      KeysPaths(left, right, keys - {key}, path);
      PathsConcat(head, rest);
      if path in PathsOf(head) { KeyPath(left, right, key, path); }
      hide CollectKey;
    }
  }

  lemma KeyPath(left: Json, right: Json, key: string, path: Path)
    requires left.Object? && right.Object? && key in left.fields.Keys + right.fields.Keys
    requires path in PathsOf(CollectKey(left, right, key))
    ensures path != [] && path[0] == key
  {
    if key in left.fields && key in right.fields {
      PathsOfBelow(key, Collect(left.fields[key], right.fields[key]), path);
    }
  }

  /** A path carries an operation exactly when the two values part there. */
  lemma {:induction false} CollectPaths(left: Json, right: Json, path: Path)
    ensures path in PathsOf(Collect(left, right)) <==> PartAt(left, right, path)
    decreases |path|
  {
    if left == right {
    } else if left.Object? && right.Object? {
      if path != [] { MemberPaths(left, right, path); }
      KeysPaths(left, right, left.fields.Keys + right.fields.Keys, path);
      hide CollectKeys, CollectKey;
    } else {
      assert PathsOf([SetAt([], right)]) == [[]];
      assert path != [] ==> path[..0] == [];
    }
  }

  lemma {:induction false} MemberPaths(left: Json, right: Json, path: Path)
    requires left.Object? && right.Object? && path != []
    ensures path[0] in left.fields.Keys + right.fields.Keys && path in PathsOf(CollectKey(left, right, path[0])) <==>
            PartAt(left, right, path)
    decreases |path|, 0
  {
    var key := path[0];
    if key in left.fields && key in right.fields {
      CollectPaths(left.fields[key], right.fields[key], path[1..]);
      PathsOfBelow(key, Collect(left.fields[key], right.fields[key]), path);
      PartBelow(left, right, path);
    } else {
      PartAtMissing(left, right, path);
      if key in left.fields || key in right.fields {
        assert PathsOf(CollectKey(left, right, key)) == [[key]];
        assert |path| == 1 ==> path == [key];
      }
    }
  }

  // Their order

  /** The first segment in which the paths differ is smaller in `p`. */
  predicate PathBelow(p: Path, q: Path) {
    p != [] && q != [] && (StringBelow(p[0], q[0]) || (p[0] == q[0] && PathBelow(p[1..], q[1..])))
  }

  ghost predicate InOrder(paths: seq<Path>) {
    forall i, j :: 0 <= i < j < |paths| ==> PathBelow(paths[i], paths[j])
  }

  lemma {:induction false} CollectInOrder(left: Json, right: Json)
    ensures InOrder(PathsOf(Collect(left, right)))
    decreases left, 1
  {
    if left != right && left.Object? && right.Object? {
      KeysInOrder(left, right, left.fields.Keys + right.fields.Keys);
    }
  }

  lemma {:induction false} KeysInOrder(left: Json, right: Json, keys: set<string>)
    requires left.Object? && right.Object? && keys <= left.fields.Keys + right.fields.Keys
    ensures InOrder(PathsOf(CollectKeys(left, right, keys)))
    decreases left, 0, keys
  {
    if keys != {} {
      var key := FirstKey(keys);
      var head, rest := CollectKey(left, right, key), CollectKeys(left, right, keys - {key});
      KeysInOrder(left, right, keys - {key});
      assert InOrder(PathsOf(head)) by {
        if key in left.fields && key in right.fields {
          CollectInOrder(left.fields[key], right.fields[key]);
          BelowInOrder(key, Collect(left.fields[key], right.fields[key]));
        }
      }
      forall path | path in PathsOf(head) ensures path != [] && path[0] == key { KeyPath(left, right, key, path); }
      forall path | path in PathsOf(rest) ensures path != [] && StringBelow(key, path[0]) {
        KeysPaths(left, right, keys - {key}, path);
      }
      hide CollectKey, Collect;
      JoinInOrder(key, head, rest);
    }
  }

  lemma BelowInOrder(key: string, ops: seq<Operation>)
    requires InOrder(PathsOf(ops))
    ensures InOrder(PathsOf(Below([key], ops)))
  {
    var below := Below([key], ops);
    forall i, j | 0 <= i < j < |below| ensures PathBelow(below[i].path, below[j].path) {
      assert PathBelow(PathsOf(ops)[i], PathsOf(ops)[j]);
      assert below[i].path[1..] == ops[i].path && below[j].path[1..] == ops[j].path;
    }
  }

  lemma JoinInOrder(key: string, head: seq<Operation>, rest: seq<Operation>)
    requires InOrder(PathsOf(head)) && InOrder(PathsOf(rest))
    requires forall path :: path in PathsOf(head) ==> path != [] && path[0] == key
    requires forall path :: path in PathsOf(rest) ==> path != [] && StringBelow(key, path[0])
    ensures InOrder(PathsOf(head + rest))
  {
    var all := PathsOf(head + rest);
    PathsConcat(head, rest);
    forall i, j | 0 <= i < j < |all| ensures PathBelow(all[i], all[j]) {
      if j < |head| {
        assert PathBelow(PathsOf(head)[i], PathsOf(head)[j]);
      } else if i >= |head| {
        assert PathBelow(PathsOf(rest)[i - |head|], PathsOf(rest)[j - |head|]);
      } else {
        assert all[i] in PathsOf(head) && all[j] in PathsOf(rest);
      }
    }
  }

  /**
   What a diff is, in terms of the two states alone: its paths are exactly those at which they part, in
   order, and each carries the value the second state holds there.
   */
  lemma DiffIsStructural(before: Json, after: Json)
    requires Diff(before, after).Ok?
    ensures var ops := Diff(before, after).value;
      && (forall path :: path in PathsOf(ops) <==> PartAt(before, after, path))
      && InOrder(PathsOf(ops)) && HoldsWritten(ops, after)
  {
    var ops := Diff(before, after).value;
    forall path ensures path in PathsOf(ops) <==> PartAt(before, after, path) { CollectPaths(before, after, path); }
    CollectInOrder(before, after);
    forall i | 0 <= i < |ops| ensures Lookup(after, ops[i].path) == Written(ops[i]) {
      DiffWritesTarget(before, after, i);
    }
  }

  /** Which pairs of states have a diff: two different objects that part on paths of safe segments only. */
  lemma DiffExists(before: Json, after: Json)
    ensures Diff(before, after).Ok? <==>
            before.Object? && after.Object? && before != after
            && forall path :: PartAt(before, after, path) ==> SafePath(path)
  {
    hide PartAt, SafePath;
    var ops := Collect(before, after);
    NothingCollected(before, after);
    forall path ensures path in PathsOf(ops) <==> PartAt(before, after, path) { CollectPaths(before, after, path); }
    assert AllSafe(ops) <==> forall path :: path in PathsOf(ops) ==> SafePath(path) by {
      assert forall i :: 0 <= i < |ops| ==> PathsOf(ops)[i] == ops[i].path;
    }
  }

  // Members touched by a change

  /** The change from `x` to `y` replaces, adds or removes this member or one it is in. */
  ghost predicate Touched(x: Json, y: Json, member: Path) {
    exists n :: 0 <= n <= |member| && ChangedAt(x, y, member[..n])
  }

  /** A touched member lies at or below exactly the path where the states part. */
  lemma {:induction false} TouchedBelowParting(x: Json, y: Json, member: Path, n: nat) returns (k: nat)
    requires n <= |member| && ChangedAt(x, y, member[..n])
    ensures k <= n && PartAt(x, y, member[..k])
  {
    if m :| 0 <= m < n && !(IsObjectAt(x, member[..m]) && IsObjectAt(y, member[..m])) {
      if Lookup(x, member[..m]) == Lookup(y, member[..m]) {
        SameBelow(x, y, member[..m], member[..n]);
      }
      k := TouchedBelowParting(x, y, member, m);
    } else {
      k := n;
      assert forall m :: 0 <= m < n ==> member[..n][..m] == member[..m];
    }
  }

  lemma SameBelow(x: Json, y: Json, p: Path, q: Path)
    requires p <= q && Lookup(x, p) == Lookup(y, p)
    ensures Lookup(x, q) == Lookup(y, q)
  {
    LookupSplit(x, p, q);
    LookupSplit(y, p, q);
  }

  lemma TouchedMeansWritten(x: Json, y: Json, ops: seq<Operation>, member: Path)
    requires Diff(x, y) == Ok(ops)
    ensures Touched(x, y, member) <==> exists i :: 0 <= i < |ops| && ops[i].path <= member
  {
    if Touched(x, y, member) {
      var n :| 0 <= n <= |member| && ChangedAt(x, y, member[..n]);
      var k := TouchedBelowParting(x, y, member, n);
      CollectPaths(x, y, member[..k]);
      var i :| 0 <= i < |PathsOf(ops)| && PathsOf(ops)[i] == member[..k];
      assert ops[i].path <= member;
    }
    if i :| 0 <= i < |ops| && ops[i].path <= member {
      assert PathsOf(ops)[i] == ops[i].path;
      CollectPaths(x, y, ops[i].path);
      assert member[..|ops[i].path|] == ops[i].path;
    }
  }

  /** The operations of two changes are unrelated exactly when there is no member that both changes touch. */
  lemma UnrelatedExactly(x: Json, y: Json, u: Json, v: Json)
    requires Diff(x, y).Ok? && Diff(u, v).Ok?
    ensures Unrelated(Diff(x, y).value, Diff(u, v).value) <==>
            forall member :: !(Touched(x, y, member) && Touched(u, v, member))
  {
    var a, b := Diff(x, y).value, Diff(u, v).value;
    hide Touched, Diff;
    forall member
      ensures Touched(x, y, member) <==> exists i :: 0 <= i < |a| && a[i].path <= member
      ensures Touched(u, v, member) <==> exists j :: 0 <= j < |b| && b[j].path <= member
    {
      TouchedMeansWritten(x, y, a, member);
      TouchedMeansWritten(u, v, b, member);
    }
    if member :| Touched(x, y, member) && Touched(u, v, member) {
      var i :| 0 <= i < |a| && a[i].path <= member;
      var j :| 0 <= j < |b| && b[j].path <= member;
      assert !Incomparable(a[i].path, b[j].path);
    }
    if !Unrelated(a, b) {
      var i, j :| 0 <= i < |a| && 0 <= j < |b| && !Incomparable(a[i].path, b[j].path);
      var member := if a[i].path <= b[j].path then b[j].path else a[i].path;
      assert a[i].path <= member && b[j].path <= member;
      assert Touched(x, y, member) && Touched(u, v, member);
    }
  }
}
