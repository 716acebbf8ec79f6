/** The ranking of an overview: the first rows of a stable sort, found with a bounded binary heap. */
module RankOutcomes {
  import opened Wrappers
  import opened StableSort

  function Parent(i: int): int { (i - 1) / 2 }

  /** No entry comes after its parent: the last one of all is at the root. */
  ghost predicate Heap<T>(cmp: (T, T) -> int, h: seq<Entry<T>>) {
    forall i :: 1 <= i < |h| ==> Before(cmp, h[i], h[Parent(i)])
  }

  /** A heap but for the entry in the hole, which may belong higher up. */
  ghost predicate Rising<T>(cmp: (T, T) -> int, h: seq<Entry<T>>, hole: nat) {
    && (forall i :: 1 <= i < |h| && i != hole ==> Before(cmp, h[i], h[Parent(i)]))
    && (hole > 0 ==> forall i :: 1 <= i < |h| && Parent(i) == hole ==> Before(cmp, h[i], h[Parent(hole)]))
  }

  /** A heap but for the entry in the hole, which may belong further down. */
  ghost predicate Sinking<T>(cmp: (T, T) -> int, h: seq<Entry<T>>, hole: nat) {
    && (forall i :: 1 <= i < |h| && Parent(i) != hole ==> Before(cmp, h[i], h[Parent(i)]))
    && (hole > 0 ==> forall i :: 1 <= i < |h| && Parent(i) == hole ==> Before(cmp, h[i], h[Parent(hole)]))
  }

  lemma {:induction false} RootIsLast<T(!new)>(cmp: (T, T) -> int, h: seq<Entry<T>>, i: nat)
    requires TotalPreorder(cmp) && Heap(cmp, h) && 1 <= i < |h|
    ensures Before(cmp, h[i], h[0])
  {
    if Parent(i) > 0 {
      RootIsLast(cmp, h, Parent(i));
      BeforeTransitive(cmp, h[i], h[Parent(i)], h[0]);
    }
  }

  lemma Swapped<T>(h: seq<T>, i: nat, j: nat)
    requires i < |h| && j < |h|
    ensures multiset(h[i := h[j]][j := h[i]]) == multiset(h)
  {
  }

  /** heap.push and the loop that lifts the new entry. */
  method Push<T(!new)>(cmp: (T, T) -> int, old_: seq<Entry<T>>, entry: Entry<T>) returns (heap: seq<Entry<T>>)
    requires TotalPreorder(cmp) && Heap(cmp, old_) && DistinctIndices(old_ + [entry])
    ensures Heap(cmp, heap) && multiset(heap) == multiset(old_ + [entry])
  {
    heap := old_ + [entry];
    var child: nat := |old_|;
    ghost var g := heap;
    assert Rising(cmp, g, child);
    hide Before, TotalPreorder, DistinctIndices, Rising, Heap, Order;
    while child > 0
      invariant 0 <= child < |heap| && g == heap[child := entry]
      invariant multiset(g) == multiset(old_ + [entry])
      invariant Rising(cmp, g, child)
    {
      var parent: nat := Parent(child);
      if Order(cmp, heap[parent], entry) >= 0 {
        Apart(cmp, old_ + [entry], g, parent, child);
        Risen(cmp, g, child);
        heap := heap[child := entry];
        return;
      }
      ReplaceOrder(cmp, heap[parent], entry);
      RiseStep(cmp, g, child);
      Swapped(g, child, parent);
      Moved(heap, g, child, parent, entry);
      g := g[child := g[parent]][parent := entry];
      heap := heap[child := heap[parent]];
      child := parent;
    }
    Risen(cmp, g, 0);
    heap := heap[child := entry];
  }

  lemma Moved<T>(heap: seq<T>, g: seq<T>, hole: nat, next: nat, entry: T)
    requires hole < |heap| && next < |heap| && hole != next && g == heap[hole := entry]
    ensures g[hole := g[next]][next := entry] == heap[hole := heap[next]][next := entry]
  {
  }

  lemma Risen<T>(cmp: (T, T) -> int, g: seq<Entry<T>>, child: nat)
    requires Rising(cmp, g, child) && child < |g| && (child > 0 ==> Before(cmp, g[child], g[Parent(child)]))
    ensures Heap(cmp, g)
  {
  }

  /** Two places of a rearrangement of distinct entries hold different entries. */
  lemma Apart<T(!new)>(cmp: (T, T) -> int, s: seq<Entry<T>>, h: seq<Entry<T>>, i: nat, j: nat)
    requires TotalPreorder(cmp) && DistinctIndices(s) && multiset(h) == multiset(s) && i < |h| && j < |h| && i != j
    ensures h[i].index != h[j].index
    ensures Order(cmp, h[i], h[j]) >= 0 ==> Before(cmp, h[j], h[i])
  {
    StillDistinct(s, h);
    BeforeTotal(cmp, h[i], h[j]);
  }

  lemma StillDistinct<T>(s: seq<Entry<T>>, h: seq<Entry<T>>)
    requires DistinctIndices(s) && multiset(h) == multiset(s)
    ensures DistinctIndices(h)
  {
    forall i, j | 0 <= i < j < |h| ensures h[i].index != h[j].index {
      var pair := [h[i], h[j]];
      Multiplicity(s, h[i]);
      TwoIn(h, i, j);
      assert h[i] in multiset(s) && h[j] in multiset(s);
      var a :| 0 <= a < |s| && s[a] == h[i];
      var b :| 0 <= b < |s| && s[b] == h[j];
    }
  }

  /** Distinct entries occur once. */
  lemma {:induction false} Multiplicity<T>(s: seq<Entry<T>>, x: Entry<T>)
    requires DistinctIndices(s)
    ensures multiset(s)[x] <= 1
  {
    if s != [] {
      var n := |s| - 1;
      assert s == s[..n] + [s[n]];
      Multiplicity(s[..n], x);
      forall i | 0 <= i < n ensures s[..n][i] != s[n] {
        assert s[i].index != s[n].index;
      }
      assert s[n] !in s[..n];
    }
  }

  lemma TwoIn<T>(h: seq<T>, i: nat, j: nat)
    requires i < j < |h|
    ensures h[i] == h[j] ==> multiset(h)[h[i]] >= 2
  {
    assert h == h[..j] + [h[j]] + h[j + 1..];
    assert h[i] in h[..j];
  }

  lemma RiseStep<T(!new)>(cmp: (T, T) -> int, g: seq<Entry<T>>, child: nat)
    requires TotalPreorder(cmp) && 0 < child < |g| && Rising(cmp, g, child)
    requires Before(cmp, g[Parent(child)], g[child])
    ensures Rising(cmp, g[child := g[Parent(child)]][Parent(child) := g[child]], Parent(child))
  {
    var p := Parent(child);
    var h := g[child := g[p]][p := g[child]];
    forall i | 1 <= i < |h| && i != p ensures Before(cmp, h[i], h[Parent(i)]) {
      if Parent(i) == p && i != child { BeforeTransitive(cmp, g[i], g[p], g[child]); }
    }
    if p > 0 {
      forall i | 1 <= i < |h| && Parent(i) == p ensures Before(cmp, h[i], h[Parent(p)]) {
        assert Before(cmp, g[p], g[Parent(p)]);
        if i != child { BeforeTransitive(cmp, g[i], g[p], g[Parent(p)]); }
      }
    }
  }

  /** The loop that replaces the root by an entry that comes before it. */
  method Replace<T(!new)>(cmp: (T, T) -> int, old_: seq<Entry<T>>, entry: Entry<T>) returns (heap: seq<Entry<T>>)
    requires TotalPreorder(cmp) && old_ != [] && Heap(cmp, old_) && DistinctIndices(old_[0 := entry])
    ensures Heap(cmp, heap) && multiset(heap) == multiset(old_[0 := entry])
  {
    heap := old_;
    var parent: nat := 0;
    ghost var g := heap[0 := entry];
    hide Before, TotalPreorder, DistinctIndices;
    while parent * 2 + 1 < |heap|
      invariant parent < |heap| && g == heap[parent := entry] && |g| == |old_|
      invariant multiset(g) == multiset(old_[0 := entry])
      invariant Sinking(cmp, g, parent)
      decreases |heap| - parent
    {
      var child := LargerChild(cmp, heap, parent, old_[0 := entry], g);
      if Order(cmp, entry, heap[child]) >= 0 {
        Apart(cmp, old_[0 := entry], g, parent, child);
        SinkStop(cmp, g, parent, child);
        heap := heap[parent := entry];
        return;
      }
      SinkStep(cmp, g, parent, child);
      Swapped(g, parent, child);
      Moved(heap, g, parent, child, entry);
      g := g[parent := g[child]][child := entry];
      heap := heap[parent := heap[child]];
      parent := child;
    }
    heap := heap[parent := entry];
  }

  /** The child that comes later; `g` is the heap with the new entry in the hole. */
  method LargerChild<T(!new)>(cmp: (T, T) -> int, heap: seq<Entry<T>>, parent: nat, ghost s: seq<Entry<T>>,
                              ghost g: seq<Entry<T>>)
    returns (child: nat)
    requires TotalPreorder(cmp) && DistinctIndices(s) && multiset(g) == multiset(s)
    requires |g| == |heap| && parent * 2 + 1 < |heap| && forall i :: 0 <= i < |g| && i != parent ==> g[i] == heap[i]
    ensures LaterChild(cmp, g, parent, child)
  {
    child := parent * 2 + 1;
    if parent * 2 + 2 < |heap| {
      Apart(cmp, s, g, parent * 2 + 1, parent * 2 + 2);
      BeforeTotal(cmp, g[parent * 2 + 1], g[parent * 2 + 2]);
    }
    if child + 1 < |heap| && Order(cmp, heap[child + 1], heap[child]) > 0 {
      child := child + 1;
    }
    forall i | 1 <= i < |g| && Parent(i) == parent && i != child ensures Before(cmp, g[i], g[child]) {
      assert i == parent * 2 + 1 || i == parent * 2 + 2;
    }
  }

  ghost predicate LaterChild<T>(cmp: (T, T) -> int, g: seq<Entry<T>>, parent: nat, child: nat) {
    && child < |g| && Parent(child) == parent && child > 0
    && forall i :: 1 <= i < |g| && Parent(i) == parent && i != child ==> Before(cmp, g[i], g[child])
  }

  lemma SinkStop<T(!new)>(cmp: (T, T) -> int, g: seq<Entry<T>>, parent: nat, child: nat)
    requires TotalPreorder(cmp) && parent < |g| && Sinking(cmp, g, parent) && LaterChild(cmp, g, parent, child)
    requires Before(cmp, g[child], g[parent])
    ensures Heap(cmp, g)
  {
    forall i | 1 <= i < |g| ensures Before(cmp, g[i], g[Parent(i)]) {
      if Parent(i) == parent && i != child { BeforeTransitive(cmp, g[i], g[child], g[parent]); }
    }
  }

  lemma SinkStep<T(!new)>(cmp: (T, T) -> int, g: seq<Entry<T>>, parent: nat, child: nat)
    requires TotalPreorder(cmp) && parent < |g| && Sinking(cmp, g, parent) && LaterChild(cmp, g, parent, child)
    requires Before(cmp, g[parent], g[child])
    ensures Sinking(cmp, g[parent := g[child]][child := g[parent]], child)
  {
    var h := g[parent := g[child]][child := g[parent]];
    forall i | 1 <= i < |h| && Parent(i) != child ensures Before(cmp, h[i], h[Parent(i)]) {
    }
  }

  /** slice(0, limit): a negative limit counts from the end. */
  function Sliced<T>(s: seq<T>, limit: int): seq<T> {
    if limit < 0 then (if |s| + limit < 0 then [] else s[..|s| + limit])
    else if limit > |s| then s else s[..limit]
  }

  /** The rows seen so far are in the heap or in `rest`, and all of the heap comes before all of `rest`. */
  ghost predicate KeepsFirst<T>(cmp: (T, T) -> int, seen: seq<Entry<T>>, heap: seq<Entry<T>>, rest: seq<Entry<T>>) {
    && Heap(cmp, heap) && DistinctIndices(heap)
    && multiset(seen) == multiset(heap) + multiset(rest)
    && forall x, y :: x in heap && y in rest ==> Before(cmp, x, y)
  }

  lemma PartsDistinct<T>(seen: seq<Entry<T>>, a: seq<Entry<T>>, b: seq<Entry<T>>)
    requires DistinctIndices(seen) && multiset(seen) == multiset(a) + multiset(b)
    ensures DistinctIndices(a) && DistinctIndices(b)
  {
    StillDistinct(seen, a + b);
    assert forall i :: 0 <= i < |a| ==> (a + b)[i] == a[i];
    assert forall i :: 0 <= i < |b| ==> (a + b)[|a| + i] == b[i];
  }

  lemma Members<T>(a: seq<T>, b: seq<T>)
    requires multiset(a) == multiset(b)
    ensures forall x :: x in a <==> x in b
  {
    forall x ensures x in a <==> x in b {
      assert x in a <==> x in multiset(a);
      assert x in b <==> x in multiset(b);
    }
  }

  /** A row that comes after the root goes to the rest. */
  lemma Passed<T(!new)>(cmp: (T, T) -> int, seen: seq<Entry<T>>, heap: seq<Entry<T>>, rest: seq<Entry<T>>,
                        entry: Entry<T>)
    requires TotalPreorder(cmp) && KeepsFirst(cmp, seen, heap, rest) && heap != []
    requires Before(cmp, heap[0], entry)
    ensures KeepsFirst(cmp, seen + [entry], heap, rest + [entry])
  {
    forall x | x in heap ensures Before(cmp, x, entry) {
      var i :| 0 <= i < |heap| && heap[i] == x;
      if i > 0 { RootIsLast(cmp, heap, i); BeforeTransitive(cmp, x, heap[0], entry); }
    }
  }

  /** A row that comes before the root takes its place, and the root goes to the rest. */
  lemma Replaced<T(!new)>(cmp: (T, T) -> int, seen: seq<Entry<T>>, heap: seq<Entry<T>>, rest: seq<Entry<T>>,
                          entry: Entry<T>, next: seq<Entry<T>>)
    requires TotalPreorder(cmp) && KeepsFirst(cmp, seen, heap, rest) && heap != [] && DistinctIndices(seen + [entry])
    requires Before(cmp, entry, heap[0]) && Heap(cmp, next) && multiset(next) == multiset(heap[0 := entry])
    ensures KeepsFirst(cmp, seen + [entry], next, rest + [heap[0]])
  {
    assert multiset(heap[0 := entry]) == multiset(heap) - multiset{heap[0]} + multiset{entry};
    assert multiset(seen + [entry]) == multiset(next) + multiset(rest + [heap[0]]);
    PartsDistinct(seen + [entry], next, rest + [heap[0]]);
    Members(next, heap[0 := entry]);
    forall x, y | x in next && y in rest + [heap[0]] ensures Before(cmp, x, y) {
      var i :| 0 <= i < |heap| && heap[0 := entry][i] == x;
      if i > 0 { RootIsLast(cmp, heap, i); }
      if y in rest && i == 0 { BeforeTransitive(cmp, entry, heap[0], y); }
    }
  }

  lemma SeenMore<T>(rows: seq<T>, n: nat)
    requires n < |rows|
    ensures Entries(rows)[..n + 1] == Entries(rows)[..n] + [Entry(rows[n], n)]
    ensures DistinctIndices(Entries(rows)[..n + 1])
  {
  }

  /** One round of the loop: the next row enters the heap if it is among the first `limit` so far. */
  method Offer<T(!new)>(cmp: (T, T) -> int, heap: seq<Entry<T>>, entry: Entry<T>, limit: nat,
                        ghost seen: seq<Entry<T>>, ghost rest: seq<Entry<T>>)
    returns (next: seq<Entry<T>>, ghost rest': seq<Entry<T>>)
    requires TotalPreorder(cmp) && KeepsFirst(cmp, seen, heap, rest) && DistinctIndices(seen + [entry])
    requires 0 < limit && |heap| <= limit && (|heap| < limit ==> rest == [])
    ensures KeepsFirst(cmp, seen + [entry], next, rest')
    ensures if |heap| < limit then |next| == |heap| + 1 && rest' == [] else |next| == limit
  {
    rest' := rest;
    Fresh(seen, heap, rest, entry);
    hide TotalPreorder, DistinctIndices, Before, Heap, Order;
    if |heap| < limit {
      next := Push(cmp, heap, entry);
      Added(cmp, seen, heap, entry, next);
      assert |multiset(next)| == |next| && |multiset(heap + [entry])| == |heap| + 1;
    } else if Order(cmp, entry, heap[0]) < 0 {
      next := Replace(cmp, heap, entry);
      ReplaceOrder(cmp, entry, heap[0]);
      Replaced(cmp, seen, heap, rest, entry, next);
      rest' := rest + [heap[0]];
      assert |multiset(next)| == |next| && |multiset(heap[0 := entry])| == |heap|;
    } else {
      PassOrder(cmp, entry, heap[0]);
      Passed(cmp, seen, heap, rest, entry);
      rest' := rest + [entry];
      next := heap;
    }
  }

  /** The bounded heap keeps exactly the first `limit` entries of the sorted rows. */
  method FirstEntries<T(!new)>(cmp: (T, T) -> int, rows: seq<T>, limit: nat) returns (heap: seq<Entry<T>>)
    requires TotalPreorder(cmp) && 0 < limit < |rows|
    ensures |heap| == limit && DistinctIndices(heap)
    ensures |Sort(cmp, Entries(rows))| == |rows| && Sort(cmp, heap) == Sort(cmp, Entries(rows))[..limit]
  {
    SortedLength(cmp, rows);
    heap := [];
    ghost var rest: seq<Entry<T>> := [];
    ghost var all := Entries(rows);
    assert KeepsFirst(cmp, [], heap, rest);
    for index := 0 to |rows|
      invariant |heap| == if index < limit then index else limit
      invariant index < limit ==> rest == []
      invariant KeepsFirst(cmp, all[..index], heap, rest)
    {
      SeenMore(rows, index);
      hide TotalPreorder, DistinctIndices, KeepsFirst;
      heap, rest := Offer(cmp, heap, Entry(rows[index], index), limit, all[..index], rest);
    }
    assert all[..|rows|] == all;
    SplitHere(cmp, rows, heap, rest);
  }

  lemma SplitHere<T(!new)>(cmp: (T, T) -> int, rows: seq<T>, heap: seq<Entry<T>>, rest: seq<Entry<T>>)
    requires TotalPreorder(cmp) && KeepsFirst(cmp, Entries(rows), heap, rest)
    ensures DistinctIndices(heap)
    ensures Sort(cmp, Entries(rows)) == Sort(cmp, heap) + Sort(cmp, rest) && |Sort(cmp, heap)| == |heap|
  {
    var all := Entries(rows);
    EntriesDistinct(rows);
    PartsDistinct(all, heap, rest);
    SortSplits(cmp, all, heap, rest);
    SortSorts(cmp, heap);
    assert |multiset(heap)| == |heap| && |multiset(Sort(cmp, heap))| == |Sort(cmp, heap)|;
  }

  lemma Fresh<T>(seen: seq<Entry<T>>, heap: seq<Entry<T>>, rest: seq<Entry<T>>, entry: Entry<T>)
    requires DistinctIndices(seen + [entry]) && DistinctIndices(heap)
    requires multiset(seen) == multiset(heap) + multiset(rest)
    ensures DistinctIndices(heap + [entry])
    ensures (heap != [] ==> DistinctIndices(heap[0 := entry]) && heap[0].index != entry.index)
  {
    forall i | 0 <= i < |heap| ensures heap[i].index != entry.index {
      assert heap[i] in multiset(heap);
      assert heap[i] in multiset(seen);
      var k :| 0 <= k < |seen| && seen[k] == heap[i];
      assert (seen + [entry])[k] == seen[k] && (seen + [entry])[|seen|] == entry;
    }
  }

  lemma Added<T(!new)>(cmp: (T, T) -> int, seen: seq<Entry<T>>, before: seq<Entry<T>>, entry: Entry<T>,
                       heap: seq<Entry<T>>)
    requires KeepsFirst(cmp, seen, before, []) && Heap(cmp, heap) && multiset(heap) == multiset(before + [entry])
    requires DistinctIndices(before + [entry])
    ensures KeepsFirst(cmp, seen + [entry], heap, [])
  {
    StillDistinct(before + [entry], heap);
  }

  lemma ReplaceOrder<T>(cmp: (T, T) -> int, a: Entry<T>, b: Entry<T>)
    requires Order(cmp, a, b) < 0
    ensures Before(cmp, a, b)
  {
  }

  lemma PassOrder<T(!new)>(cmp: (T, T) -> int, a: Entry<T>, b: Entry<T>)
    requires TotalPreorder(cmp) && Order(cmp, a, b) >= 0 && a.index != b.index
    ensures Before(cmp, b, a)
  {
    BeforeTotal(cmp, a, b);
  }

  /**
   rankOutcomes: the first rows of the stable sort, for every list of rows, every limit and every comparator
   that is a total preorder.
   */
  method RankOutcomes<T(!new)>(rows: seq<T>, cmp: (T, T) -> int, limit: Option<int>) returns (ranked: seq<T>)
    requires TotalPreorder(cmp)
    ensures ranked == match limit case None => SortRows(cmp, rows) case Some(n) => Sliced(SortRows(cmp, rows), n)
  {
    if limit.None? { return SortRows(cmp, rows); }
    SortedLength(cmp, rows);
    if limit.value < 0 || limit.value >= |rows| {
      return Sliced(SortRows(cmp, rows), limit.value);
    }
    if limit.value == 0 { return []; }
    var heap := FirstEntries(cmp, rows, limit.value);
    ranked := Rows(Sort(cmp, heap));
  }

  lemma SortedLength<T(!new)>(cmp: (T, T) -> int, rows: seq<T>)
    requires TotalPreorder(cmp)
    ensures |SortRows(cmp, rows)| == |rows| && |Sort(cmp, Entries(rows))| == |rows|
  {
    EntriesDistinct(rows);
    SortSorts(cmp, Entries(rows));
    assert |multiset(Entries(rows))| == |rows| && |multiset(Sort(cmp, Entries(rows)))| == |Sort(cmp, Entries(rows))|;
  }

  // The four orders of an overview

  datatype Outcome = Outcome(name: string, value: real, count: int, max: real)

  datatype Kind = CounterKind | EventKind | HistogramKind | LogKind

  /** The sign of b - a. */
  function Descending(a: real, b: real): int { if a > b then -1 else if a < b then 1 else 0 }

  function OutcomeOrder(kind: Kind, locale: (string, string) -> int, a: Outcome, b: Outcome): int {
    match kind
    case CounterKind => Descending(a.value, b.value)
    case EventKind => b.count - a.count
    case HistogramKind => if a.max != b.max then Descending(a.max, b.max) else b.count - a.count
    case LogKind => if a.count != b.count then b.count - a.count else locale(a.name, b.name)
  }

  /** Each of them is a total preorder, given that localeCompare is one. */
  lemma OutcomeOrdersRank(kind: Kind, locale: (string, string) -> int)
    requires TotalPreorder(locale)
    ensures TotalPreorder((a: Outcome, b: Outcome) => OutcomeOrder(kind, locale, a, b))
  {
    var cmp := (a: Outcome, b: Outcome) => OutcomeOrder(kind, locale, a, b);
    forall a, b ensures cmp(a, b) < 0 <==> cmp(b, a) > 0 {
    }
    forall a, b, c | cmp(a, b) <= 0 && cmp(b, c) <= 0 ensures cmp(a, c) <= 0 {
    }
  }

  /** Which of two outcomes an overview may list first. */
  ghost predicate RanksFirst(kind: Kind, locale: (string, string) -> int, a: Outcome, b: Outcome) {
    match kind
    case CounterKind => a.value >= b.value
    case EventKind => a.count >= b.count
    case HistogramKind => a.max > b.max || (a.max == b.max && a.count >= b.count)
    case LogKind => a.count > b.count || (a.count == b.count && locale(a.name, b.name) <= 0)
  }

  /**
   An overview lists the largest first: counters by value, events by count, histograms by maximum and then count,
   logs by count and then name.
   */
  lemma LargestFirst(kind: Kind, locale: (string, string) -> int, rows: seq<Outcome>, i: nat, j: nat)
    requires TotalPreorder(locale) && i < j < |rows|
    ensures var cmp := (a: Outcome, b: Outcome) => OutcomeOrder(kind, locale, a, b);
      && |SortRows(cmp, rows)| == |rows| && multiset(SortRows(cmp, rows)) == multiset(rows)
      && RanksFirst(kind, locale, SortRows(cmp, rows)[i], SortRows(cmp, rows)[j])
  {
    var cmp := (a: Outcome, b: Outcome) => OutcomeOrder(kind, locale, a, b);
    OutcomeOrdersRank(kind, locale);
    SortRowsSorts(cmp, rows);
    var sorted := SortRows(cmp, rows);
    hide SortRows, TotalPreorder;
    assert cmp(sorted[i], sorted[j]) <= 0;
  }
}
