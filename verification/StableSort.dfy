/**
 Stable sorting by a comparator, as Array.prototype.sort does it. A row carries its position as the tie-breaker,
 which turns any total preorder on rows into a strict total order on entries.
 */
module StableSort {

  /** A comparator whose sign is antisymmetric and transitive. */
  ghost predicate TotalPreorder<T(!new)>(cmp: (T, T) -> int) {
    && (forall a, b :: cmp(a, b) < 0 <==> cmp(b, a) > 0)
    && (forall a, b, c :: cmp(a, b) <= 0 && cmp(b, c) <= 0 ==> cmp(a, c) <= 0)
  }

  datatype Entry<T> = Entry(row: T, index: nat)

  function Order<T>(cmp: (T, T) -> int, a: Entry<T>, b: Entry<T>): int {
    if cmp(a.row, b.row) != 0 then cmp(a.row, b.row) else a.index - b.index
  }

  predicate Before<T>(cmp: (T, T) -> int, a: Entry<T>, b: Entry<T>) { Order(cmp, a, b) < 0 }

  lemma BeforeTransitive<T(!new)>(cmp: (T, T) -> int, a: Entry<T>, b: Entry<T>, c: Entry<T>)
    requires TotalPreorder(cmp) && Before(cmp, a, b) && Before(cmp, b, c)
    ensures Before(cmp, a, c)
  {
    assert cmp(a.row, b.row) <= 0 && cmp(b.row, c.row) <= 0;
    if cmp(a.row, c.row) == 0 {
      assert cmp(c.row, a.row) == 0;
      assert cmp(c.row, b.row) <= 0 && cmp(b.row, a.row) <= 0;
    }
  }

  lemma BeforeTotal<T(!new)>(cmp: (T, T) -> int, a: Entry<T>, b: Entry<T>)
    requires TotalPreorder(cmp)
    ensures Order(cmp, a, b) < 0 <==> Order(cmp, b, a) > 0
    ensures a.index != b.index ==> Before(cmp, a, b) || Before(cmp, b, a)
  {
  }

  function Entries<T>(rows: seq<T>): seq<Entry<T>> {
    seq(|rows|, i requires 0 <= i < |rows| => Entry(rows[i], i))
  }

  function Rows<T>(entries: seq<Entry<T>>): seq<T> {
    seq(|entries|, i requires 0 <= i < |entries| => entries[i].row)
  }

  ghost predicate DistinctIndices<T>(s: seq<Entry<T>>) {
    forall i, j :: 0 <= i < j < |s| ==> s[i].index != s[j].index
  }

  ghost predicate Sorted<T>(cmp: (T, T) -> int, s: seq<Entry<T>>) {
    forall i, j :: 0 <= i < j < |s| ==> Before(cmp, s[i], s[j])
  }

  function Insert<T>(cmp: (T, T) -> int, s: seq<Entry<T>>, x: Entry<T>): seq<Entry<T>> {
    if s == [] then [x]
    else if Before(cmp, s[|s| - 1], x) then s + [x]
    else Insert(cmp, s[..|s| - 1], x) + [s[|s| - 1]]
  }

  /** The entries in order. */
  function Sort<T>(cmp: (T, T) -> int, s: seq<Entry<T>>): seq<Entry<T>> {
    if s == [] then [] else Insert(cmp, Sort(cmp, s[..|s| - 1]), s[|s| - 1])
  }

  /** rows.slice().sort(cmp) */
  function SortRows<T>(cmp: (T, T) -> int, rows: seq<T>): seq<T> {
    Rows(Sort(cmp, Entries(rows)))
  }

  lemma {:induction false} InsertSorts<T(!new)>(cmp: (T, T) -> int, s: seq<Entry<T>>, x: Entry<T>)
    requires TotalPreorder(cmp) && Sorted(cmp, s) && forall i :: 0 <= i < |s| ==> s[i].index != x.index
    ensures Sorted(cmp, Insert(cmp, s, x))
    ensures multiset(Insert(cmp, s, x)) == multiset(s) + multiset{x}
  {
    if s != [] {
      var n := |s| - 1;
      assert s == s[..n] + [s[n]];
      if Before(cmp, s[n], x) {
        forall i | 0 <= i < n ensures Before(cmp, s[i], x) { BeforeTransitive(cmp, s[i], s[n], x); }
      } else {
        BeforeTotal(cmp, s[n], x);
        InsertSorts(cmp, s[..n], x);
        var rest := Insert(cmp, s[..n], x);
        hide Insert, TotalPreorder, Before;
        forall i | 0 <= i < |rest| ensures Before(cmp, rest[i], s[n]) {
          assert rest[i] in multiset(rest);
          assert rest[i] == x || rest[i] in s[..n];
        }
      }
    }
  }

  lemma {:induction false} SortSorts<T(!new)>(cmp: (T, T) -> int, s: seq<Entry<T>>)
    requires TotalPreorder(cmp) && DistinctIndices(s)
    ensures Sorted(cmp, Sort(cmp, s))
    ensures multiset(Sort(cmp, s)) == multiset(s)
  {
    if s != [] {
      var n := |s| - 1;
      assert s == s[..n] + [s[n]];
      SortSorts(cmp, s[..n]);
      var rest := Sort(cmp, s[..n]);
      forall i | 0 <= i < |rest| ensures rest[i].index != s[n].index {
        assert rest[i] in multiset(rest);
        assert rest[i] in s[..n];
      }
      InsertSorts(cmp, rest, s[n]);
    }
  }

  lemma SortedSameLast<T(!new)>(cmp: (T, T) -> int, a: seq<Entry<T>>, b: seq<Entry<T>>)
    requires TotalPreorder(cmp) && Sorted(cmp, a) && Sorted(cmp, b) && a != [] && b != []
    requires a[|a| - 1] in b && b[|b| - 1] in a
    ensures a[|a| - 1] == b[|b| - 1]
  {
    var x, y := a[|a| - 1], b[|b| - 1];
    BeforeTotal(cmp, x, y);
    hide Before, TotalPreorder, Order;
    if x != y {
      assert Before(cmp, x, y);
      assert Before(cmp, y, x);
      hide Sorted;
      NotBoth(cmp, x, y);
    }
  }

  lemma NotBoth<T(!new)>(cmp: (T, T) -> int, x: Entry<T>, y: Entry<T>)
    requires TotalPreorder(cmp)
    ensures !(Before(cmp, x, y) && Before(cmp, y, x))
  {
  }

  lemma DropLast<T>(s: seq<T>)
    requires s != []
    ensures multiset(s[..|s| - 1]) == multiset(s) - multiset{s[|s| - 1]}
  {
    assert s == s[..|s| - 1] + [s[|s| - 1]];
  }

  /** There is only one way to put the same entries in order. */
  lemma {:induction false} SortedUnique<T(!new)>(cmp: (T, T) -> int, a: seq<Entry<T>>, b: seq<Entry<T>>)
    requires TotalPreorder(cmp) && Sorted(cmp, a) && Sorted(cmp, b) && multiset(a) == multiset(b)
    ensures a == b
  {
    assert |multiset(a)| == |a| && |multiset(b)| == |b|;
    if a != [] {
      assert a[|a| - 1] in multiset(b) && b[|b| - 1] in multiset(a);
      SortedSameLast(cmp, a, b);
      DropLast(a);
      DropLast(b);
      SortedUnique(cmp, a[..|a| - 1], b[..|b| - 1]);
    }
  }

  /** If everything in `low` comes before everything in `high`, sorting both together is sorting each. */
  lemma SortSplits<T(!new)>(cmp: (T, T) -> int, all: seq<Entry<T>>, low: seq<Entry<T>>, high: seq<Entry<T>>)
    requires TotalPreorder(cmp) && DistinctIndices(all) && DistinctIndices(low) && DistinctIndices(high)
    requires multiset(all) == multiset(low) + multiset(high)
    requires forall x, y :: x in low && y in high ==> Before(cmp, x, y)
    ensures Sort(cmp, all) == Sort(cmp, low) + Sort(cmp, high)
  {
    SortSorts(cmp, all);
    SortSorts(cmp, low);
    SortSorts(cmp, high);
    var l, h := Sort(cmp, low), Sort(cmp, high);
    forall i, j | 0 <= i < |l| && 0 <= j < |h| ensures Before(cmp, l[i], h[j]) {
      assert l[i] in multiset(l) && h[j] in multiset(h);
      assert l[i] in low && h[j] in high;
    }
    SortedUnique(cmp, Sort(cmp, all), l + h);
  }

  lemma EntriesDistinct<T>(rows: seq<T>)
    ensures DistinctIndices(Entries(rows))
  {
  }

  // Sorting rows whose ties are equal does not depend on their order

  ghost predicate Ascending<T>(cmp: (T, T) -> int, s: seq<T>) {
    forall i, j :: 0 <= i < j < |s| ==> cmp(s[i], s[j]) <= 0
  }

  ghost predicate TiesAreEqual<T>(cmp: (T, T) -> int, s: seq<T>) {
    forall x, y :: x in s && y in s && cmp(x, y) == 0 ==> x == y
  }

  lemma {:induction false} InsertRows<T>(cmp: (T, T) -> int, s: seq<Entry<T>>, x: Entry<T>)
    ensures multiset(Rows(Insert(cmp, s, x))) == multiset(Rows(s)) + multiset{x.row}
  {
    if s == [] {
    } else {
      var n := |s| - 1;
      assert Rows(s) == Rows(s[..n]) + [s[n].row];
      if Before(cmp, s[n], x) {
        assert Rows(s + [x]) == Rows(s) + [x.row];
      } else {
        InsertRows(cmp, s[..n], x);
        assert Rows(Insert(cmp, s[..n], x) + [s[n]]) == Rows(Insert(cmp, s[..n], x)) + [s[n].row];
      }
    }
  }

  lemma {:induction false} SortKeepsRows<T>(cmp: (T, T) -> int, s: seq<Entry<T>>)
    ensures multiset(Rows(Sort(cmp, s))) == multiset(Rows(s))
  {
    if s != [] {
      var n := |s| - 1;
      SortKeepsRows(cmp, s[..n]);
      InsertRows(cmp, Sort(cmp, s[..n]), s[n]);
      assert Rows(s) == Rows(s[..n]) + [s[n].row];
    }
  }

  /** SortRows is a rearrangement of the rows in ascending order. */
  lemma SortRowsSorts<T(!new)>(cmp: (T, T) -> int, rows: seq<T>)
    requires TotalPreorder(cmp)
    ensures Ascending(cmp, SortRows(cmp, rows)) && multiset(SortRows(cmp, rows)) == multiset(rows)
    ensures |SortRows(cmp, rows)| == |rows|
  {
    var entries := Entries(rows);
    EntriesDistinct(rows);
    SortSorts(cmp, entries);
    SortKeepsRows(cmp, entries);
    assert Rows(entries) == rows;
    assert |multiset(SortRows(cmp, rows))| == |SortRows(cmp, rows)| && |multiset(rows)| == |rows|;
    var sorted := Sort(cmp, entries);
    forall i, j | 0 <= i < j < |sorted| ensures cmp(sorted[i].row, sorted[j].row) <= 0 {
      assert Before(cmp, sorted[i], sorted[j]);
    }
  }

  lemma {:induction false} AscendingUnique<T(!new)>(cmp: (T, T) -> int, a: seq<T>, b: seq<T>)
    requires TotalPreorder(cmp) && Ascending(cmp, a) && Ascending(cmp, b) && multiset(a) == multiset(b)
    requires TiesAreEqual(cmp, a)
    ensures a == b
  {
    hide *;
    SameLength(a, b);
    if a != [] {
      SamePrefixes(cmp, a, b);
      AscendingUnique(cmp, a[..|a| - 1], b[..|a| - 1]);
      LastJoins(a, b);
    }
  }

  lemma SameLength<T>(a: seq<T>, b: seq<T>)
    requires multiset(a) == multiset(b)
    ensures |a| == |b|
  {
    assert |multiset(a)| == |a| && |multiset(b)| == |b|;
  }

  lemma LastJoins<T>(a: seq<T>, b: seq<T>)
    requires |a| == |b| > 0 && a[..|a| - 1] == b[..|a| - 1] && a[|a| - 1] == b[|a| - 1]
    ensures a == b
  {
    assert a == a[..|a| - 1] + [a[|a| - 1]] && b == b[..|a| - 1] + [b[|a| - 1]];
  }

  lemma SamePrefixes<T(!new)>(cmp: (T, T) -> int, a: seq<T>, b: seq<T>)
    requires TotalPreorder(cmp) && Ascending(cmp, a) && Ascending(cmp, b) && multiset(a) == multiset(b)
    requires TiesAreEqual(cmp, a)
    requires |a| == |b| > 0
    ensures a[|a| - 1] == b[|a| - 1]
    ensures Ascending(cmp, a[..|a| - 1]) && Ascending(cmp, b[..|a| - 1])
    ensures multiset(a[..|a| - 1]) == multiset(b[..|a| - 1]) && TiesAreEqual(cmp, a[..|a| - 1])
  {
    hide *;
    SameLast(cmp, a, b);
    DropLast(a);
    DropLast(b);
    TiesStay(cmp, a);
    AscendingStays(cmp, a);
    AscendingStays(cmp, b);
  }

  lemma AscendingStays<T>(cmp: (T, T) -> int, a: seq<T>)
    requires Ascending(cmp, a) && a != []
    ensures Ascending(cmp, a[..|a| - 1])
  {
    var b := a[..|a| - 1];
    forall i, j | 0 <= i < j < |b| ensures cmp(b[i], b[j]) <= 0 {
      assert b[i] == a[i] && b[j] == a[j];
    }
  }

  lemma TiesStay<T>(cmp: (T, T) -> int, a: seq<T>)
    requires TiesAreEqual(cmp, a) && a != []
    ensures TiesAreEqual(cmp, a[..|a| - 1])
  {
    forall x | x in a[..|a| - 1] ensures x in a {
    }
  }

  lemma SameLast<T(!new)>(cmp: (T, T) -> int, a: seq<T>, b: seq<T>)
    requires TotalPreorder(cmp) && Ascending(cmp, a) && Ascending(cmp, b) && multiset(a) == multiset(b)
    requires TiesAreEqual(cmp, a)
    requires a != [] && b != []
    ensures a[|a| - 1] == b[|b| - 1]
  {
    var x, y := a[|a| - 1], b[|b| - 1];
    assert x in multiset(b) && y in multiset(a);
    LastIsLast(cmp, a, y);
    LastIsLast(cmp, b, x);
    hide Ascending;
    assert cmp(x, y) == 0;
  }

  lemma LastIsLast<T(!new)>(cmp: (T, T) -> int, a: seq<T>, y: T)
    requires TotalPreorder(cmp) && Ascending(cmp, a) && y in a
    ensures cmp(y, a[|a| - 1]) <= 0
  {
    assert cmp(y, y) == 0;
  }

  lemma SortIndependent<T(!new)>(cmp: (T, T) -> int, a: seq<T>, b: seq<T>)
    requires TotalPreorder(cmp) && multiset(a) == multiset(b) && TiesAreEqual(cmp, a)
    ensures SortRows(cmp, a) == SortRows(cmp, b)
  {
    SortRowsSorts(cmp, a);
    SortRowsSorts(cmp, b);
    var s := SortRows(cmp, a);
    forall x | x in s ensures x in a { assert x in multiset(s); }
    AscendingUnique(cmp, s, SortRows(cmp, b));
  }
}
