/** Small vocabulary shared by the models. */
module Wrappers {

  datatype Option<+T> = None | Some(value: T)

  datatype Result<+T, +E> = Ok(value: T) | Err(error: E)
}

/** Facts about sequences that several models need. */
module Sequences {

  /** The elements of `s` whose flag is set, in order. */
  function Select<T>(s: seq<T>, keep: seq<bool>): (r: seq<T>)
    requires |s| == |keep|
    ensures |r| <= |s|
    ensures forall x :: x in r ==> x in s
  {
    if s == [] then []
    else (if keep[0] then [s[0]] else []) + Select(s[1..], keep[1..])
  }

  lemma {:induction false} SelectAppend<T>(s: seq<T>, keep: seq<bool>, x: T, flag: bool)
    requires |s| == |keep|
    ensures Select(s + [x], keep + [flag]) == Select(s, keep) + (if flag then [x] else [])
  {
    if s == [] {
    } else {
      var rest := Select(s[1..], keep[1..]);
      SelectAppend(s[1..], keep[1..], x, flag);
      assert (s + [x])[1..] == s[1..] + [x] && (keep + [flag])[1..] == keep[1..] + [flag];
      assert (s + [x])[0] == s[0] && (keep + [flag])[0] == keep[0];
      var head, last := if keep[0] then [s[0]] else [], if flag then [x] else [];
      assert head + rest + last == head + (rest + last);
    }
  }

  lemma Reassociate<T>(a: seq<T>, b: seq<T>, c: seq<T>)
    ensures a + b + c == a + (b + c)
  {
  }

  lemma SubsetSize<T>(some: set<T>, all: set<T>)
    requires some <= all
    ensures |some| <= |all|
  {
    assert all == some + (all - some);
  }

  ghost predicate Distinct<T(!new)>(s: seq<T>) {
    forall i, j :: 0 <= i < j < |s| ==> s[i] != s[j]
  }

  lemma {:induction false} DistinctCount<T(!new)>(s: seq<T>, all: set<T>)
    requires Distinct(s) && forall x :: x in s <==> x in all
    ensures |s| == |all|
  {
    if s == [] {
      assert all == {};
    } else {
      var rest := all - {s[0]};
      assert s == [s[0]] + s[1..];
      assert s[0] !in s[1..] && s[0] in all;
      forall x ensures x in s[1..] <==> x in rest {
      }
      DistinctCount(s[1..], rest);
    }
  }

  ghost predicate Increasing(s: seq<nat>) {
    forall i, j :: 0 <= i < j < |s| ==> s[i] < s[j]
  }

  lemma {:induction false} SelectIncreasing(s: seq<nat>, keep: seq<bool>)
    requires |s| == |keep| && Increasing(s)
    ensures Increasing(Select(s, keep))
  {
    if s != [] {
      assert forall i, j :: 0 <= i < j < |s[1..]| ==> s[1..][i] == s[i + 1] && s[1..][j] == s[j + 1];
      SelectIncreasing(s[1..], keep[1..]);
      var rest := Select(s[1..], keep[1..]);
      forall i | 0 <= i < |rest| ensures s[0] < rest[i] {
        assert rest[i] in s[1..];
      }
      assert keep[0] ==> Select(s, keep) == [s[0]] + rest;
      assert !keep[0] ==> Select(s, keep) == rest;
    }
  }

  /** Replacing the middle of an increasing sequence by some of its own elements, in order, keeps it increasing. */
  lemma Thin(a: seq<nat>, b: seq<nat>, c: seq<nat>, b': seq<nat>)
    requires Increasing(a + b + c) && Increasing(b')
    requires forall x :: x in b' ==> x in b
    ensures Increasing(a + b' + c)
  {
    var s, t := a + b + c, a + b' + c;
    forall i, j | 0 <= i < j < |t| ensures t[i] < t[j] {
      var i' := Origin(a, b, c, b', i);
      var j' := Origin(a, b, c, b', j);
      if |a| <= i && j < |a| + |b'| {
        assert t[i] == b'[i - |a|] && t[j] == b'[j - |a|];
      }
    }
  }

  lemma Origin(a: seq<nat>, b: seq<nat>, c: seq<nat>, b': seq<nat>, i: nat) returns (k: nat)
    requires i < |a + b' + c|
    requires forall x :: x in b' ==> x in b
    ensures k < |a + b + c| && (a + b + c)[k] == (a + b' + c)[i]
    ensures i < |a| ==> k == i
    ensures |a| <= i < |a| + |b'| ==> |a| <= k < |a| + |b|
    ensures |a| + |b'| <= i ==> k == i - |b'| + |b|
  {
    if i < |a| {
      k := i;
    } else if i < |a| + |b'| {
      assert b'[i - |a|] in b;
      var m :| 0 <= m < |b| && b[m] == b'[i - |a|];
      k := |a| + m;
    } else {
      k := i - |b'| + |b|;
    }
  }
}
