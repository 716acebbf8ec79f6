/** Client windows of a metric registry, and their merge into one minute on the server. */
module WindowMerge {
  import opened Wrappers
  import opened Sequences
  import opened MetricWindows
  import opened StableSort

  // The client's series objects

  class ClientHistogram {
    const bounds: seq<real>
    const counts: array<nat>
    var count: nat
    var sum: real
    var min: Option<real>
    var max: Option<real>
    ghost var window: seq<Payload>

    ghost predicate Valid()
      reads this, counts
    {
      && counts.Length == |bounds|
      && AllSuit(window, Histogram)
      && Samples(count, sum, min, max, counts[..]) == Summarize(window, Histogram, bounds)
    }

    constructor (bounds: seq<real>)
      ensures Valid() && window == [] && this.bounds == bounds && fresh(counts)
    {
      this.bounds := bounds;
      counts := new nat[|bounds|](_ => 0);
      count, sum, min, max, window := 0, 0.0, None, None, [];
    }

    /** observe: the window gains one sample. */
    method Observe(value: real)
      requires Valid()
      modifies this, counts
      ensures Valid() && window == old(window) + [Sample(value)]
    {
      hide Summarize, AllSuit, Bucket, Plus, One;
      var isMax := max.None? || value >= max.value;
      count, sum := count + 1, sum + value;
      if min.None? || value < min.value { min := Some(value); }
      if isMax { max := Some(value); }
      ghost var before := counts[..];
      var i := 0;
      while i < |bounds| && !(value <= bounds[i])
        invariant i <= |bounds|
        invariant forall j :: 0 <= j < i ==> bounds[j] < value
        invariant counts[..] == before
      {
        i := i + 1;
      }
      BucketIs(bounds, value, i);
      if i < |bounds| { counts[i] := counts[i] + 1; }
      OneMore(before, counts[..], i);
      window := window + [Sample(value)];
      SummarizeLast(old(window), Sample(value), Histogram, bounds);
    }

    method Snapshot() returns (body: Summary)
      requires Valid()
      ensures body == Summarize(window, Histogram, bounds)
    {
      body := Samples(count, sum, min, max, counts[..]);
    }

    method Reset()
      requires Valid()
      modifies this, counts
      ensures Valid() && window == []
    {
      for i := 0 to counts.Length
        invariant forall j :: 0 <= j < i ==> counts[j] == 0
      {
        counts[i] := 0;
      }
      count, sum, min, max, window := 0, 0.0, None, None, [];
      assert counts[..] == Zeros(|bounds|);
    }
  }

  lemma OneMore(before: seq<nat>, after: seq<nat>, i: nat)
    requires |after| == |before| && i <= |before|
    requires after == if i < |before| then before[i := before[i] + 1] else before
    ensures after == Plus(before, One(|before|, i, 1))
  {
  }

  lemma BucketIs(bounds: seq<real>, value: real, i: nat)
    requires i <= |bounds| && (i < |bounds| ==> value <= bounds[i]) && forall j :: 0 <= j < i ==> bounds[j] < value
    ensures Bucket(bounds, value) == i
  {
    var k := Bucket(bounds, value);
    assert !(k < i) && !(i < k);
  }

  lemma SummarizeLast(payloads: seq<Payload>, p: Payload, kind: Kind, bounds: seq<real>)
    requires AllSuit(payloads, kind) && Suits(p, kind)
    ensures AllSuit(payloads + [p], kind)
    ensures Summarize(payloads + [p], kind, bounds) ==
      Merge(Summarize(payloads, kind, bounds), Single(p, kind, bounds), kind, bounds)
  {
    assert (payloads + [p])[..|payloads|] == payloads;
  }

  class ClientDistinct {
    const registers: array<nat>
    var dirty: bool
    ghost var window: seq<Payload>

    ghost predicate Valid()
      reads this, registers
    {
      && registers.Length == REGISTER_COUNT
      && AllSuit(window, Distinct)
      && Registers(registers[..]) == Summarize(window, Distinct, [])
      && (dirty <==> window != [])
    }

    constructor ()
      ensures Valid() && window == [] && fresh(registers)
    {
      registers := new nat[REGISTER_COUNT](_ => 0);
      dirty, window := false, [];
    }

    /** add, once the identifier has been hashed to a register and a rank. */
    method Add(index: nat, rank: nat)
      requires Valid() && index < REGISTER_COUNT
      modifies this, registers
      ensures Valid() && window == old(window) + [Hashed(index, rank)]
    {
      ghost var before := registers[..];
      if rank > registers[index] { registers[index] := rank; }
      assert registers[..] == Most(before, One(REGISTER_COUNT, index, rank));
      dirty, window := true, window + [Hashed(index, rank)];
      SummarizeLast(old(window), Hashed(index, rank), Distinct, []);
    }

    method Reset()
      requires Valid()
      modifies this, registers
      ensures Valid() && window == []
    {
      for i := 0 to registers.Length
        invariant forall j :: 0 <= j < i ==> registers[j] == 0
      {
        registers[i] := 0;
      }
      dirty, window := false, [];
      assert registers[..] == Zeros(REGISTER_COUNT);
    }
  }

  // The server's merges

  datatype BucketRow = BucketRow(bound: real, count: nat)

  function ByBound(): (BucketRow, BucketRow) -> int {
    (a: BucketRow, b: BucketRow) => if a.bound < b.bound then -1 else if a.bound > b.bound then 1 else 0
  }

  function RowsOf(bounds: seq<real>, counts: seq<nat>): seq<BucketRow>
    requires |bounds| == |counts|
  {
    seq(|bounds|, i requires 0 <= i < |bounds| => BucketRow(bounds[i], counts[i]))
  }

  function CountsOf(rows: seq<BucketRow>): seq<nat> {
    seq(|rows|, i requires 0 <= i < |rows| => rows[i].count)
  }

  /** The position of a key in an insertion-ordered map from bounds to counts. */
  function Find(rows: seq<BucketRow>, bound: real): (i: nat)
    ensures i <= |rows| && (i < |rows| ==> rows[i].bound == bound) && forall j :: 0 <= j < i ==> rows[j].bound != bound
  {
    if rows == [] || rows[0].bound == bound then 0
    else
      var i := Find(rows[1..], bound);
      assert forall j :: 0 < j <= i ==> rows[j] == rows[1..][j - 1];
      i + 1
  }

  function SetCount(rows: seq<BucketRow>, bound: real, count: nat): seq<BucketRow> {
    var i := Find(rows, bound);
    if i < |rows| then rows[i := BucketRow(bound, count)] else rows + [BucketRow(bound, count)]
  }

  function GetCount(rows: seq<BucketRow>, bound: real): nat {
    var i := Find(rows, bound);
    if i < |rows| then rows[i].count else 0
  }

  lemma AlreadySorted(bounds: seq<real>, counts: seq<nat>)
    requires |bounds| == |counts| && StrictlyIncreasing(bounds)
    ensures SortRows(ByBound(), RowsOf(bounds, counts)) == RowsOf(bounds, counts)
  {
    var rows := RowsOf(bounds, counts);
    ByBoundOrders();
    SortRowsSorts(ByBound(), rows);
    assert TiesAreEqual(ByBound(), rows);
    assert Ascending(ByBound(), rows);
    AscendingUnique(ByBound(), rows, SortRows(ByBound(), rows));
  }

  lemma ByBoundOrders()
    ensures TotalPreorder(ByBound())
  {
  }

  /** Partly merged buckets: the first i have gained the incoming counts. */
  function PartlyMerged(a: seq<nat>, b: seq<nat>, i: nat): (c: seq<nat>)
    requires |a| == |b|
    ensures |c| == |a|
  {
    seq(|a|, j requires 0 <= j < |a| => if j < i then a[j] + b[j] else a[j])
  }

  lemma SetNext(bounds: seq<real>, a: seq<nat>, b: seq<nat>, i: nat)
    requires |bounds| == |a| == |b| && i < |bounds| && StrictlyIncreasing(bounds)
    ensures var rows := RowsOf(bounds, PartlyMerged(a, b, i));
      SetCount(rows, bounds[i], GetCount(rows, bounds[i]) + b[i]) == RowsOf(bounds, PartlyMerged(a, b, i + 1))
  {
    var rows := RowsOf(bounds, PartlyMerged(a, b, i));
    assert Find(rows, bounds[i]) == i by {
      var k := Find(rows, bounds[i]);
      assert rows[i].bound == bounds[i];
      assert !(i < k) && !(k < i);
    }
  }

  /** mergeHistogram for two bodies with the same bounds, through a map from bounds to counts. */
  method MergeHistogram(existing: Summary, incoming: Summary, bounds: seq<real>) returns (body: Summary)
    requires Fits(existing, Histogram, bounds) && Fits(incoming, Histogram, bounds) && StrictlyIncreasing(bounds)
    requires existing.min.Some? && existing.max.Some? && incoming.min.Some? && incoming.max.Some?
    ensures body == Merge(existing, incoming, Histogram, bounds)
  {
    var count, sum := existing.count + incoming.count, existing.sum + incoming.sum;
    var min, max := existing.min.value, existing.max.value;
    if incoming.min.value < min { min := incoming.min.value; }
    if incoming.max.value > max { max := incoming.max.value; }
    var byBound := RowsOf(bounds, existing.counts);
    assert PartlyMerged(existing.counts, incoming.counts, 0) == existing.counts;
    hide Find, RowsOf, SortRows, StrictlyIncreasing;
    for i := 0 to |bounds|
      invariant byBound == RowsOf(bounds, PartlyMerged(existing.counts, incoming.counts, i))
    {
      SetNext(bounds, existing.counts, incoming.counts, i);
      byBound := SetCount(byBound, bounds[i], GetCount(byBound, bounds[i]) + incoming.counts[i]);
    }
    AllMerged(bounds, existing.counts, incoming.counts);
    var sorted := SortRows(ByBound(), byBound);
    body := Samples(count, sum, Some(min), Some(max), CountsOf(sorted));
  }

  lemma AllMerged(bounds: seq<real>, a: seq<nat>, b: seq<nat>)
    requires |bounds| == |a| == |b| && StrictlyIncreasing(bounds)
    ensures CountsOf(SortRows(ByBound(), RowsOf(bounds, PartlyMerged(a, b, |bounds|)))) == Plus(a, b)
  {
    AlreadySorted(bounds, PartlyMerged(a, b, |bounds|));
    hide SortRows, StrictlyIncreasing;
  }

  /** mergeHllBodies */
  method MergeHllBodies(left: seq<nat>, right: seq<nat>) returns (merged: seq<nat>)
    requires |left| == |right| == REGISTER_COUNT
    ensures merged == Most(left, right)
  {
    var buffer := new nat[REGISTER_COUNT](i requires 0 <= i < REGISTER_COUNT => left[i]);
    for i := 0 to REGISTER_COUNT
      invariant forall j :: 0 <= j < REGISTER_COUNT ==>
        buffer[j] == if j < i then Larger(left[j], right[j]) else left[j]
    {
      if right[i] > buffer[i] { buffer[i] := right[i]; }
    }
    merged := buffer[..];
  }
}
