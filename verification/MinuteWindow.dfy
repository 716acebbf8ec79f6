/** One stream of observations cut into client windows, whose frames reach one server minute in any order. */
module MinuteWindow {
  import opened Wrappers
  import opened Sequences
  import opened MetricWindows
  import opened WindowMerge

  datatype Key = Key(kind: Kind, role: string, name: string, dims: string)

  /** The series cap counts per kind, role and name. */
  datatype Cap = Cap(kind: Kind, role: string, name: string)

  function CapOf(k: Key): Cap { Cap(k.kind, k.role, k.name) }

  datatype Observation = Observation(key: Key, payload: Payload)

  type Rows = map<Key, Summary>

  ghost predicate AllFit(window: seq<Observation>) {
    forall o :: o in window ==> Suits(o.payload, o.key.kind)
  }

  function PayloadsOf(window: seq<Observation>, k: Key): (p: seq<Payload>)
    requires AllFit(window)
    ensures AllSuit(p, k.kind)
  {
    if window == [] then []
    else
      var n := |window| - 1;
      PayloadsOf(window[..n], k) + (if window[n].key == k then [window[n].payload] else [])
  }

  lemma {:induction false} PayloadsOfConcat(a: seq<Observation>, b: seq<Observation>, k: Key)
    requires AllFit(a) && AllFit(b)
    ensures AllFit(a + b) && PayloadsOf(a + b, k) == PayloadsOf(a, k) + PayloadsOf(b, k)
  {
    if b == [] {
      assert a + b == a;
    } else {
      var n := |b| - 1;
      PayloadsOfConcat(a, b[..n], k);
      assert (a + b)[..|a| + n] == a + b[..n] && (a + b)[|a| + n] == b[n];
    }
  }

  /** What a single, unsplit series would say. */
  function SummaryOf(window: seq<Observation>, k: Key, boundsOf: Key -> seq<real>): (s: Summary)
    requires AllFit(window)
    ensures Fits(s, k.kind, boundsOf(k))
  {
    Summarize(PayloadsOf(window, k), k.kind, boundsOf(k))
  }

  lemma SummaryOfConcat(a: seq<Observation>, b: seq<Observation>, k: Key, boundsOf: Key -> seq<real>)
    requires AllFit(a) && AllFit(b)
    ensures AllFit(a + b)
    ensures SummaryOf(a + b, k, boundsOf) ==
      Merge(SummaryOf(a, k, boundsOf), SummaryOf(b, k, boundsOf), k.kind, boundsOf(k))
  {
    PayloadsOfConcat(a, b, k);
    SummarizeConcat(PayloadsOf(a, k), PayloadsOf(b, k), k.kind, boundsOf(k));
  }

  /** A row that is missing says nothing. */
  function Reading(rows: Rows, k: Key, boundsOf: Key -> seq<real>): Summary {
    if k in rows then rows[k] else Empty(k.kind, boundsOf(k))
  }

  /** Rows as a client sends them: histograms have samples. */
  ghost predicate Proper(rows: Rows, boundsOf: Key -> seq<real>) {
    forall k :: k in rows ==> ProperRow(rows[k], k.kind, boundsOf(k))
  }

  predicate ProperRow(s: Summary, kind: Kind, bounds: seq<real>) {
    Fits(s, kind, bounds) && (s.Samples? ==> s.count > 0 && s.min.Some? && s.max.Some?)
  }

  function KeysWith(keys: set<Key>, c: Cap): set<Key> { set k | k in keys && CapOf(k) == c }

  lemma OneMoreKey(keys: set<Key>, k: Key, c: Cap)
    requires k !in keys
    ensures |KeysWith(keys + {k}, c)| == |KeysWith(keys, c)| + if CapOf(k) == c then 1 else 0
  {
    if CapOf(k) == c {
      assert KeysWith(keys + {k}, c) == KeysWith(keys, c) + {k};
    } else {
      assert KeysWith(keys + {k}, c) == KeysWith(keys, c);
    }
  }

  /** No metric has more than `max` series among these. */
  ghost predicate Roomy(keys: set<Key>, max: nat) { forall c :: |KeysWith(keys, c)| <= max }

  lemma KeysWithGrow(some: set<Key>, all: set<Key>, c: Cap)
    requires some <= all
    ensures |KeysWith(some, c)| <= |KeysWith(all, c)|
  {
    SubsetSize(KeysWith(some, c), KeysWith(all, c));
  }

  lemma RoomyShrinks(some: set<Key>, all: set<Key>, max: nat)
    requires some <= all && Roomy(all, max)
    ensures Roomy(some, max)
  {
    forall c ensures |KeysWith(some, c)| <= max { KeysWithGrow(some, all, c); }
  }

  /**
   `known` fits under the cap and each of `refused` met a full metric: then nothing was refused exactly when
   there was room for all of them.
   */
  lemma RefusedExactly(known: set<Key>, refused: set<Key>, max: nat)
    requires Roomy(known, max) && refused !! known
    requires forall k :: k in refused ==> |KeysWith(known, CapOf(k))| >= max
    ensures refused == {} <==> Roomy(known + refused, max)
  {
    if k :| k in refused {
      OneMoreKey(known, k, CapOf(k));
      KeysWithGrow(known + {k}, known + refused, CapOf(k));
    } else {
      assert known + refused == known;
    }
  }

  // The server's minute

  class ServerWindow {
    const boundsOf: Key -> seq<real>
    const maxSeries: nat
    var rows: Rows
    var seriesByName: map<Cap, nat>
    var cardinalityDropped: nat

    ghost predicate Valid()
      reads this
    {
      && (forall k :: StrictlyIncreasing(boundsOf(k)))
      && Proper(rows, boundsOf)
      && Capped(rows.Keys, seriesByName, maxSeries)
    }

    ghost predicate Admits(k: Key)
      reads this
    {
      k in rows || |KeysWith(rows.Keys, CapOf(k))| < maxSeries
    }

    constructor (boundsOf: Key -> seq<real>, maxSeries: nat)
      requires forall k :: StrictlyIncreasing(boundsOf(k))
      ensures Valid() && rows == map[] && cardinalityDropped == 0
      ensures this.boundsOf == boundsOf && this.maxSeries == maxSeries
    {
      this.boundsOf, this.maxSeries := boundsOf, maxSeries;
      rows, seriesByName, cardinalityDropped := map[], map[], 0;
      NoKeys(maxSeries);
    }

    /** admitSeries */
    method AdmitSeries(k: Key) returns (admitted: bool)
      requires Valid()
      modifies this`seriesByName
      ensures admitted <==> Admits(k)
      ensures admitted ==> Capped(rows.Keys + {k}, seriesByName, maxSeries)
      ensures !admitted ==> Valid()
    {
      hide Proper, StrictlyIncreasing;
      if k in rows {
        assert rows.Keys + {k} == rows.Keys;
        return true;
      }
      var n := if CapOf(k) in seriesByName then seriesByName[CapOf(k)] else 0;
      if n >= maxSeries { return false; }
      AdmitNext(rows.Keys, seriesByName, maxSeries, k);
      seriesByName := seriesByName[CapOf(k) := n + 1];
      return true;
    }

    method MergeRow(existing: Summary, incoming: Summary, k: Key) returns (row: Summary)
      requires ProperRow(existing, k.kind, boundsOf(k)) && ProperRow(incoming, k.kind, boundsOf(k))
      requires StrictlyIncreasing(boundsOf(k))
      ensures row == Merge(existing, incoming, k.kind, boundsOf(k)) && ProperRow(row, k.kind, boundsOf(k))
    {
      match k.kind
      case Counter => row := Total(existing.value + incoming.value);
      case Histogram => row := MergeHistogram(existing, incoming, boundsOf(k));
      case Distinct =>
        var merged := MergeHllBodies(existing.ranks, incoming.ranks);
        row := Registers(merged);
    }

    /** One row of a frame: merged when its series is admitted, counted as dropped otherwise. */
    method IngestRow(k: Key, incoming: Summary) returns (ghost admitted: bool)
      requires Valid() && ProperRow(incoming, k.kind, boundsOf(k))
      modifies this
      ensures Valid() && admitted == old(Admits(k))
      ensures cardinalityDropped == old(cardinalityDropped) + if admitted then 0 else 1
      ensures rows == if !admitted then old(rows) else
        old(rows)[k := Merge(Reading(old(rows), k, boundsOf), incoming, k.kind, boundsOf(k))]
    {
      var known := AdmitSeries(k);
      admitted := known;
      if !known {
        cardinalityDropped := cardinalityDropped + 1;
        return;
      }
      var row := incoming;
      MergeEmpty(incoming, k.kind, boundsOf(k));
      if k in rows { row := MergeRow(rows[k], incoming, k); }
      hide Merge, ProperRow, StrictlyIncreasing, Capped;
      assert rows[k := row].Keys == rows.Keys + {k};
      rows := rows[k := row];
    }

    /**
     The rows of a frame, in whatever order the frame lists them: the admitted ones are merged, each other one
     is counted and met a full metric, and none is dropped exactly when there is room for them all.
     */
    method IngestFrame(frame: Rows)
      requires Valid() && Proper(frame, boundsOf)
      modifies this
      ensures Valid() && IsMerged(old(rows), rows, frame, frame.Keys * rows.Keys, boundsOf)
      ensures cardinalityDropped == old(cardinalityDropped) + |frame.Keys - rows.Keys|
      ensures forall k :: k in frame.Keys - rows.Keys ==> |KeysWith(rows.Keys, CapOf(k))| >= maxSeries
      ensures cardinalityDropped == old(cardinalityDropped) <==> Roomy(old(rows).Keys + frame.Keys, maxSeries)
    {
      hide *;
      var todo := frame.Keys;
      ghost var start, done: set<Key>, refused: set<Key> := rows, {}, {};
      NothingMerged(rows, frame, boundsOf);
      NothingIngested(rows.Keys, frame.Keys, maxSeries);
      while todo != {}
        invariant Valid() && cardinalityDropped == old(cardinalityDropped) + |refused|
        invariant IsMerged(start, rows, frame, done, boundsOf)
        invariant Ingesting(start.Keys, rows.Keys, frame.Keys, todo, done, refused, maxSeries)
        decreases |todo|
      {
        var k :| k in todo;
        done, refused := IngestNext(frame, k, start, todo, done, refused);
        todo := todo - {k};
      }
      ValidIsCapped(this);
      FrameDone(start.Keys, rows.Keys, frame.Keys, done, refused, seriesByName, maxSeries);
    }

    /** The next row of a frame: merged, or refused by a full metric. */
    method IngestNext(frame: Rows, k: Key, ghost start: Rows, ghost todo: set<Key>, ghost done: set<Key>,
                      ghost refused: set<Key>)
      returns (ghost done': set<Key>, ghost refused': set<Key>)
      requires Valid() && Proper(frame, boundsOf) && k in todo
      requires IsMerged(start, rows, frame, done, boundsOf)
      requires Ingesting(start.Keys, rows.Keys, frame.Keys, todo, done, refused, maxSeries)
      modifies this
      ensures Valid() && IsMerged(start, rows, frame, done', boundsOf)
      ensures Ingesting(start.Keys, rows.Keys, frame.Keys, todo - {k}, done', refused', maxSeries)
      ensures cardinalityDropped - |refused'| == old(cardinalityDropped) - |refused|
    {
      hide Proper, ProperRow, IsMerged, Merge, Reading, StrictlyIncreasing, Capped, KeysWith, Roomy, CapOf, Ingesting;
      ghost var before := rows;
      done', refused' := done, refused;
      IngestOne(start.Keys, rows.Keys, frame.Keys, todo, done, refused, k, maxSeries);
      ProperAt(frame, k, boundsOf);
      assert Proper(before, boundsOf);
      ghost var admitted := IngestRow(k, frame[k]);
      if admitted {
        MergedNext(start, before, rows, frame, done, k, boundsOf);
        assert rows.Keys == before.Keys + {k};
        done' := done + {k};
      } else {
        refused' := refused + {k};
      }
    }
  }

  lemma ValidIsCapped(server: ServerWindow)
    requires server.Valid()
    ensures Capped(server.rows.Keys, server.seriesByName, server.maxSeries)
  {
  }

  lemma NothingIngested(rows: set<Key>, frame: set<Key>, max: nat)
    ensures Ingesting(rows, rows, frame, frame, {}, {}, max)
  {
  }

  /** The frame's keys outside `todo` are merged or were refused by a full metric. */
  ghost predicate Ingesting(start: set<Key>, rows: set<Key>, frame: set<Key>, todo: set<Key>, done: set<Key>,
                            refused: set<Key>, max: nat)
  {
    && todo <= frame && done + refused == frame - todo && rows == start + done && refused !! rows
    && forall k :: k in refused ==> |KeysWith(rows, CapOf(k))| >= max
  }

  lemma IngestOne(start: set<Key>, rows: set<Key>, frame: set<Key>, todo: set<Key>, done: set<Key>, refused: set<Key>,
                  k: Key, max: nat)
    requires Ingesting(start, rows, frame, todo, done, refused, max) && k in todo
    ensures k !in done && k !in refused && k in frame
    ensures Ingesting(start, rows + {k}, frame, todo - {k}, done + {k}, refused, max)
    ensures k !in rows && |KeysWith(rows, CapOf(k))| >= max ==>
      Ingesting(start, rows, frame, todo - {k}, done, refused + {k}, max)
  {
    hide KeysWith;
    OneDone(frame, todo, done, refused, k);
    forall j | j in refused ensures |KeysWith(rows + {k}, CapOf(j))| >= max {
      KeysWithGrow(rows, rows + {k}, CapOf(j));
    }
  }

  lemma OneDone<T>(all: set<T>, todo: set<T>, done: set<T>, refused: set<T>, x: T)
    requires todo <= all && done + refused == all - todo && x in todo
    ensures (done + {x}) + refused == all - (todo - {x}) && done + (refused + {x}) == all - (todo - {x})
    ensures x !in done && x !in refused
  {
    assert all - (todo - {x}) == all - todo + {x};
    assert x in all - todo ==> x !in todo;
    forall y ensures y in done + refused <==> y in all - todo { }
  }

  lemma FrameDone(start: set<Key>, rows: set<Key>, frame: set<Key>, done: set<Key>, refused: set<Key>,
                  byName: map<Cap, nat>, max: nat)
    requires Ingesting(start, rows, frame, {}, done, refused, max) && Capped(rows, byName, max)
    ensures done == frame * rows && refused == frame - rows
    ensures forall k :: k in frame - rows ==> |KeysWith(rows, CapOf(k))| >= max
    ensures refused == {} <==> Roomy(start + frame, max)
  {
    hide KeysWith;
    RefusedExactly(rows, refused, max);
    assert rows + refused == start + frame;
  }

  ghost predicate Capped(keys: set<Key>, byName: map<Cap, nat>, max: nat) {
    forall c :: (if c in byName then byName[c] else 0) == |KeysWith(keys, c)| <= max
  }

  lemma NoKeys(max: nat)
    ensures Capped({}, map[], max)
  {
    forall c ensures |KeysWith({}, c)| == 0 {
      assert KeysWith({}, c) == {};
    }
  }

  lemma AdmitNext(keys: set<Key>, byName: map<Cap, nat>, max: nat, k: Key)
    requires Capped(keys, byName, max) && k !in keys && |KeysWith(keys, CapOf(k))| < max
    ensures Capped(keys + {k}, byName[CapOf(k) := |KeysWith(keys, CapOf(k))| + 1], max)
  {
    forall c ensures |KeysWith(keys + {k}, c)| == |KeysWith(keys, c)| + if CapOf(k) == c then 1 else 0 {
      OneMoreKey(keys, k, c);
    }
    hide KeysWith;
  }

  lemma ProperAt(rows: Rows, k: Key, boundsOf: Key -> seq<real>)
    requires Proper(rows, boundsOf) && k in rows
    ensures ProperRow(rows[k], k.kind, boundsOf(k))
  {
  }

  /** The rows of a frame with keys in `done` have been merged into `before`. */
  ghost predicate IsMerged(before: Rows, after: Rows, frame: Rows, done: set<Key>, boundsOf: Key -> seq<real>) {
    && done <= frame.Keys
    && after.Keys == before.Keys + done
    && forall k :: k in after ==>
      if k in done then Reads(before, after[k], frame[k], k, boundsOf) else k in before && after[k] == before[k]
  }

  ghost predicate Reads(before: Rows, row: Summary, incoming: Summary, k: Key, boundsOf: Key -> seq<real>) {
    && Fits(Reading(before, k, boundsOf), k.kind, boundsOf(k)) && Fits(incoming, k.kind, boundsOf(k))
    && row == Merge(Reading(before, k, boundsOf), incoming, k.kind, boundsOf(k))
  }

  lemma NothingMerged(rows: Rows, frame: Rows, boundsOf: Key -> seq<real>)
    ensures IsMerged(rows, rows, frame, {}, boundsOf)
  {
  }

  lemma MergedNext(start: Rows, before: Rows, after: Rows, frame: Rows, done: set<Key>, k: Key,
                   boundsOf: Key -> seq<real>)
    requires IsMerged(start, before, frame, done, boundsOf) && k in frame && k !in done
    requires Proper(before, boundsOf) && ProperRow(frame[k], k.kind, boundsOf(k))
    requires after == before[k := Merge(Reading(before, k, boundsOf), frame[k], k.kind, boundsOf(k))]
    ensures IsMerged(start, after, frame, done + {k}, boundsOf)
  {
    assert Reading(before, k, boundsOf) == Reading(start, k, boundsOf);
    assert Fits(Reading(before, k, boundsOf), k.kind, boundsOf(k));
    assert Reads(start, after[k], frame[k], k, boundsOf);
    hide Reads, Reading, Proper, ProperRow, Merge, Fits;
  }

  /** After a frame every series reads as the merge of what it read before and what the frame says. */
  lemma MergedReads(before: Rows, after: Rows, frame: Rows, k: Key, boundsOf: Key -> seq<real>)
    requires IsMerged(before, after, frame, frame.Keys, boundsOf)
    requires Fits(Reading(before, k, boundsOf), k.kind, boundsOf(k))
    requires Fits(Reading(frame, k, boundsOf), k.kind, boundsOf(k))
    ensures Reading(after, k, boundsOf) ==
      Merge(Reading(before, k, boundsOf), Reading(frame, k, boundsOf), k.kind, boundsOf(k))
  {
    MergeEmpty(Reading(before, k, boundsOf), k.kind, boundsOf(k));
    hide Merge, Fits;
  }

  // The client's registry

  datatype Series = Series(summary: Summary, dirty: bool)

  /** The series that snapshotAndReset writes out. */
  predicate IsActive(s: Series) {
    match s.summary
    case Total(value) => value != 0.0
    case Samples(count, _, _, _, _) => count > 0
    case Registers(_) => s.dirty
  }

  /** What a series holds after the observations of the current window. */
  ghost predicate Holds(s: Series, payloads: seq<Payload>, kind: Kind, bounds: seq<real>) {
    && AllSuit(payloads, kind)
    && s.summary == Summarize(payloads, kind, bounds)
    && (kind == Distinct ==> (s.dirty <==> payloads != []))
  }

  /** An inactive series is as good as an empty one, and an active one makes a proper row. */
  lemma {:induction false} InactiveIsEmpty(s: Series, payloads: seq<Payload>, kind: Kind, bounds: seq<real>)
    requires Holds(s, payloads, kind, bounds)
    ensures !IsActive(s) ==> s.summary == Empty(kind, bounds) && Holds(s, [], kind, bounds)
    ensures IsActive(s) ==> ProperRow(s.summary, kind, bounds)
    ensures IsActive(s) <==> if s.summary.Total? then s.summary.value != 0.0 else payloads != []
  {
    if kind == Histogram && payloads != [] { ExtremesAreSamples(payloads, bounds); }
    if kind == Histogram { SampleCount(payloads, bounds); }
  }

  /** Every series holds its part of the window, and a series without one has no observations there. */
  ghost predicate HoldsWindow(series: map<Key, Series>, window: seq<Observation>, boundsOf: Key -> seq<real>) {
    AllFit(window) && forall k :: HoldsKey(series, window, k, boundsOf)
  }

  ghost predicate HoldsKey(series: map<Key, Series>, window: seq<Observation>, k: Key, boundsOf: Key -> seq<real>)
    requires AllFit(window)
  {
    if k in series then Holds(series[k], PayloadsOf(window, k), k.kind, boundsOf(k)) else PayloadsOf(window, k) == []
  }

  lemma NewSeries(series: map<Key, Series>, window: seq<Observation>, k: Key, boundsOf: Key -> seq<real>)
    requires HoldsWindow(series, window, boundsOf) && k !in series
    ensures HoldsWindow(series[k := Series(Empty(k.kind, boundsOf(k)), false)], window, boundsOf)
  {
    assert HoldsKey(series, window, k, boundsOf);
    var added := series[k := Series(Empty(k.kind, boundsOf(k)), false)];
    forall j ensures HoldsKey(added, window, j, boundsOf) {
      assert HoldsKey(series, window, j, boundsOf);
    }
  }

  function Recorded(s: Series, o: Observation, boundsOf: Key -> seq<real>): Series
    requires Suits(o.payload, o.key.kind) && Fits(s.summary, o.key.kind, boundsOf(o.key))
  {
    Series(Merge(s.summary, Single(o.payload, o.key.kind, boundsOf(o.key)), o.key.kind, boundsOf(o.key)), true)
  }

  lemma HoldsNext(series: map<Key, Series>, window: seq<Observation>, o: Observation, boundsOf: Key -> seq<real>)
    requires HoldsWindow(series, window, boundsOf) && o.key in series && Suits(o.payload, o.key.kind)
    ensures Fits(series[o.key].summary, o.key.kind, boundsOf(o.key))
    ensures HoldsWindow(series[o.key := Recorded(series[o.key], o, boundsOf)], window + [o], boundsOf)
  {
    assert HoldsKey(series, window, o.key, boundsOf);
    SummarizeLast(PayloadsOf(window, o.key), o.payload, o.key.kind, boundsOf(o.key));
    var recorded := series[o.key := Recorded(series[o.key], o, boundsOf)];
    assert AllFit(window + [o]);
    assert (window + [o])[..|window|] == window;
    hide Merge, Single, Suits, Summarize;
    forall k ensures HoldsKey(recorded, window + [o], k, boundsOf) {
      assert HoldsKey(series, window, k, boundsOf);
      if k != o.key { assert PayloadsOf(window, k) + [] == PayloadsOf(window, k); }
    }
  }

  /** A frame that says exactly what happened in the window. */
  ghost predicate IsFrameOf(frame: Rows, window: seq<Observation>, boundsOf: Key -> seq<real>) {
    && AllFit(window) && Proper(frame, boundsOf)
    && (forall k :: Reading(frame, k, boundsOf) == SummaryOf(window, k, boundsOf))
    && (forall k :: k in frame <==> Says(window, k, boundsOf))
  }

  /** The window has something to send for a series: a counter that moved, or any sample or identifier. */
  ghost predicate Says(window: seq<Observation>, k: Key, boundsOf: Key -> seq<real>)
    requires AllFit(window)
  {
    match SummaryOf(window, k, boundsOf)
    case Total(value) => value != 0.0
    case _ => PayloadsOf(window, k) != []
  }

  /** The series of snapshotAndReset that have been visited are empty again, and the active ones are in the frame. */
  ghost predicate Visited(start: map<Key, Series>, series: map<Key, Series>, frame: Rows, todo: set<Key>,
                          boundsOf: Key -> seq<real>)
  {
    && series.Keys == start.Keys && todo <= start.Keys && frame.Keys <= start.Keys - todo
    && (forall k :: k in todo ==> series[k] == start[k])
    && (forall k :: k in start && k !in todo ==> VisitedKey(start[k], series[k], frame, k, boundsOf))
  }

  ghost predicate VisitedKey(was: Series, is_: Series, frame: Rows, k: Key, boundsOf: Key -> seq<real>) {
    Holds(is_, [], k.kind, boundsOf(k))
      && (if IsActive(was) then k in frame && frame[k] == was.summary else k !in frame)
  }

  lemma VisitNext(start: map<Key, Series>, series: map<Key, Series>, frame: Rows, todo: set<Key>,
                  window: seq<Observation>,
                  k: Key, boundsOf: Key -> seq<real>)
    requires HoldsWindow(start, window, boundsOf) && Visited(start, series, frame, todo, boundsOf) && k in todo
    ensures var s := series[k];
      if IsActive(s) then
        Visited(start, series[k := Series(Empty(k.kind, boundsOf(k)), false)], frame[k := s.summary], todo - {k},
                boundsOf)
      else Visited(start, series, frame, todo - {k}, boundsOf)
  {
    assert HoldsKey(start, window, k, boundsOf);
    InactiveIsEmpty(start[k], PayloadsOf(window, k), k.kind, boundsOf(k));
    assert Holds(Series(Empty(k.kind, boundsOf(k)), false), [], k.kind, boundsOf(k));
    hide Holds, HoldsWindow, HoldsKey, IsActive, Empty;
    var frame' := frame[k := series[k].summary];
    forall j | j in start && j !in todo ensures VisitedKey(start[j], series[j], frame', j, boundsOf) {
      assert VisitedKey(start[j], series[j], frame, j, boundsOf);
    }
  }

  lemma AllVisited(start: map<Key, Series>, series: map<Key, Series>, frame: Rows, window: seq<Observation>,
                   boundsOf: Key -> seq<real>)
    requires HoldsWindow(start, window, boundsOf) && Visited(start, series, frame, {}, boundsOf)
    ensures HoldsWindow(series, [], boundsOf) && IsFrameOf(frame, window, boundsOf)
  {
    forall k ensures HoldsKey(series, [], k, boundsOf) {
      if k in start { assert VisitedKey(start[k], series[k], frame, k, boundsOf); }
    }
    forall k ensures Reading(frame, k, boundsOf) == SummaryOf(window, k, boundsOf)
      && (k in frame ==> ProperRow(frame[k], k.kind, boundsOf(k)))
      && (k in frame <==> Says(window, k, boundsOf))
    {
      FrameSays(start, series, frame, window, k, boundsOf);
    }
  }

  lemma FrameSays(start: map<Key, Series>, series: map<Key, Series>, frame: Rows, window: seq<Observation>, k: Key,
                  boundsOf: Key -> seq<real>)
    requires HoldsWindow(start, window, boundsOf) && Visited(start, series, frame, {}, boundsOf)
    ensures Reading(frame, k, boundsOf) == SummaryOf(window, k, boundsOf)
    ensures k in frame ==> ProperRow(frame[k], k.kind, boundsOf(k))
    ensures k in frame <==> Says(window, k, boundsOf)
  {
    assert HoldsKey(start, window, k, boundsOf);
    if k in start {
      assert VisitedKey(start[k], series[k], frame, k, boundsOf);
      InactiveIsEmpty(start[k], PayloadsOf(window, k), k.kind, boundsOf(k));
      hide IsActive, ProperRow, Empty, PayloadsOf;
    }
  }

  /** The known series fit under the cap, and each rejected one met a full metric and was counted. */
  ghost predicate WithinCap(known: set<Key>, rejected: set<Key>, dropped: nat, max: nat) {
    && Roomy(known, max) && rejected !! known && dropped == |rejected|
    && forall k :: k in rejected ==> |KeysWith(known, CapOf(k))| >= max
  }

  lemma WithinCapNext(known: set<Key>, rejected: set<Key>, dropped: nat, max: nat, k: Key)
    requires WithinCap(known, rejected, dropped, max) && k !in known && k !in rejected
    ensures |KeysWith(known, CapOf(k))| < max ==> WithinCap(known + {k}, rejected, dropped, max)
    ensures |KeysWith(known, CapOf(k))| >= max ==> WithinCap(known, rejected + {k}, dropped + 1, max)
  {
    forall c ensures |KeysWith(known + {k}, c)| == |KeysWith(known, c)| + if CapOf(k) == c then 1 else 0 {
      OneMoreKey(known, k, c);
    }
    hide KeysWith;
  }

  class MetricsRegistry {
    const boundsOf: Key -> seq<real>
    const maxSeriesPerMetric: nat
    var series: map<Key, Series>
    var rejected: set<Key>
    var dropped: nat
    ghost var window: seq<Observation>

    ghost predicate Valid()
      reads this
    {
      && HoldsWindow(series, window, boundsOf)
      && WithinCap(series.Keys, rejected, dropped, maxSeriesPerMetric)
    }

    constructor (boundsOf: Key -> seq<real>, maxSeriesPerMetric: nat)
      ensures Valid() && window == [] && series == map[] && rejected == {}
      ensures this.boundsOf == boundsOf && this.maxSeriesPerMetric == maxSeriesPerMetric
    {
      this.boundsOf, this.maxSeriesPerMetric := boundsOf, maxSeriesPerMetric;
      series, rejected, dropped, window := map[], {}, 0, [];
      forall c ensures |KeysWith({}, c)| == 0 { assert KeysWith({}, c) == {}; }
    }

    /** `known` are the series that were asked for, and without a refusal `recorded` is the window. */
    ghost predicate Stands(known: set<Key>, recorded: seq<Observation>)
      reads this
    {
      Valid() && series.Keys + rejected == known && (rejected == {} ==> window == recorded)
    }

    ghost predicate Accepts(k: Key)
      reads this
    {
      k !in rejected && (k in series || |KeysWith(series.Keys, CapOf(k))| < maxSeriesPerMetric)
    }

    /** _series: finds or creates the series, unless it was rejected before or the metric is full. */
    method FindSeries(k: Key) returns (found: bool)
      requires Valid()
      modifies this`series, this`rejected, this`dropped
      ensures Valid() && found == old(Accepts(k))
      ensures series.Keys == old(series.Keys) + if found then {k} else {}
      ensures rejected == old(rejected) + if found then {} else {k}
    {
      hide HoldsKey, HoldsWindow, KeysWith, WithinCap;
      if k in rejected { return false; }
      if k in series { return true; }
      WithinCapNext(series.Keys, rejected, dropped, maxSeriesPerMetric, k);
      if |KeysWith(series.Keys, CapOf(k))| >= maxSeriesPerMetric {
        rejected, dropped := rejected + {k}, dropped + 1;
        return false;
      }
      NewSeries(series, window, k, boundsOf);
      assert series[k := Series(Empty(k.kind, boundsOf(k)), false)].Keys == series.Keys + {k};
      series := series[k := Series(Empty(k.kind, boundsOf(k)), false)];
      return true;
    }

    /**
     An observation on a series: it joins the window unless the series was rejected before or is new to a full
     metric; a series that is refused stays refused.
     */
    method Record(o: Observation) returns (accepted: bool)
      requires Valid() && Suits(o.payload, o.key.kind)
      modifies this
      ensures Valid() && accepted == old(Accepts(o.key))
      ensures window == if accepted then old(window) + [o] else old(window)
      ensures series.Keys == old(series.Keys) + if accepted then {o.key} else {}
      ensures rejected == old(rejected) + if accepted then {} else {o.key}
    {
      accepted := FindSeries(o.key);
      if accepted {
        var k := o.key;
        HoldsNext(series, window, o, boundsOf);
        var s := series[k];
        hide HoldsWindow, KeysWith, Merge, Single, Suits;
        assert series[k := Recorded(s, o, boundsOf)].Keys == series.Keys;
        series, window := series[k := Recorded(s, o, boundsOf)], window + [o];
      }
    }

    /** The active series in whatever order the maps yield them, each emptied once it is written out. */
    method SnapshotAndReset() returns (frame: Rows)
      requires Valid()
      modifies this`series, this`window
      ensures Valid() && window == [] && IsFrameOf(frame, old(window), boundsOf)
      ensures series.Keys == old(series.Keys)
    {
      ghost var start := series;
      hide Visited, HoldsWindow, KeysWith, IsFrameOf, IsActive, Empty;
      frame := map[];
      var todo := series.Keys;
      NoneVisited(series, boundsOf);
      while todo != {}
        invariant window == old(window) && todo <= series.Keys == start.Keys
        invariant Visited(start, series, frame, todo, boundsOf)
        decreases |todo|
      {
        var k :| k in todo;
        VisitNext(start, series, frame, todo, window, k, boundsOf);
        if IsActive(series[k]) {
          frame := frame[k := series[k].summary];
          series := series[k := Series(Empty(k.kind, boundsOf(k)), false)];
        }
        todo := todo - {k};
      }
      AllVisited(start, series, frame, window, boundsOf);
      window := [];
    }
  }

  lemma NoneVisited(series: map<Key, Series>, boundsOf: Key -> seq<real>)
    ensures Visited(series, series, map[], series.Keys, boundsOf)
  {
  }

  // From the stream to the minute

  function WindowAt(windows: seq<seq<Observation>>, i: nat): seq<Observation> {
    if i < |windows| then windows[i] else []
  }

  /** The observations of the windows with these numbers, one window after the other. */
  function Picked(windows: seq<seq<Observation>>, order: seq<nat>): seq<Observation> {
    if order == [] then [] else Picked(windows, order[..|order| - 1]) + WindowAt(windows, order[|order| - 1])
  }

  function Numbers(n: nat): seq<nat> { seq(n, i => i) }

  ghost predicate AllWindowsFit(windows: seq<seq<Observation>>) {
    forall i :: 0 <= i < |windows| ==> AllFit(windows[i])
  }

  lemma {:induction false} PickedFit(windows: seq<seq<Observation>>, order: seq<nat>)
    requires AllWindowsFit(windows)
    ensures AllFit(Picked(windows, order))
  {
    if order != [] { PickedFit(windows, order[..|order| - 1]); }
  }

  lemma PickedAppend(windows: seq<seq<Observation>>, order: seq<nat>, i: nat)
    ensures Picked(windows, order + [i]) == Picked(windows, order) + WindowAt(windows, i)
  {
    assert (order + [i])[..|order|] == order;
  }

  lemma {:induction false} PickedConcat(windows: seq<seq<Observation>>, a: seq<nat>, b: seq<nat>)
    ensures Picked(windows, a + b) == Picked(windows, a) + Picked(windows, b)
  {
    if b == [] {
      assert a + b == a;
    } else {
      var rest, last := b[..|b| - 1], b[|b| - 1];
      PickedConcat(windows, a, rest);
      assert b == rest + [last];
      hide *;
      Reassociate(a, rest, [last]);
      PickedAppend(windows, a + rest, last);
      PickedAppend(windows, rest, last);
      Reassociate(Picked(windows, a), Picked(windows, rest), WindowAt(windows, last));
    }
  }

  lemma PickedMiddle(windows: seq<seq<Observation>>, a: seq<nat>, x: nat, b: seq<nat>)
    ensures multiset(Picked(windows, a + [x] + b)) == multiset(Picked(windows, a + b)) + multiset(WindowAt(windows, x))
  {
    PickedConcat(windows, a, b);
    PickedConcat(windows, a, [x]);
    PickedConcat(windows, a + [x], b);
    assert Picked(windows, [x]) == [] + WindowAt(windows, x);
    hide Picked, WindowAt;
  }

  lemma {:induction false} PickedPermutes(windows: seq<seq<Observation>>, a: seq<nat>, b: seq<nat>)
    requires multiset(a) == multiset(b)
    ensures multiset(Picked(windows, a)) == multiset(Picked(windows, b))
  {
    if a == [] {
      assert |multiset(b)| == 0;
    } else {
      var n := |a| - 1;
      assert a[n] in multiset(b);
      var i :| 0 <= i < |b| && b[i] == a[n];
      Without(a, b, i);
      assert b == b[..i] + [b[i]] + b[i + 1..];
      PickedPermutes(windows, a[..n], b[..i] + b[i + 1..]);
      PickedMiddle(windows, b[..i], b[i], b[i + 1..]);
      hide WindowAt;
    }
  }

  lemma PayloadsMiddle(a: seq<Observation>, o: Observation, b: seq<Observation>, k: Key)
    requires AllFit(a + [o] + b)
    ensures AllFit(a + b)
    ensures multiset(PayloadsOf(a + [o] + b, k)) ==
      multiset(PayloadsOf(a + b, k)) + multiset(if o.key == k then [o.payload] else [])
  {
    assert forall p :: p in a + [o] + b <==> p in a || p == o || p in b;
    PayloadsOfConcat(a, b, k);
    PayloadsOfConcat(a, [o], k);
    PayloadsOfConcat(a + [o], b, k);
    assert [o][..0] == [] && PayloadsOf([o], k) == [] + (if o.key == k then [o.payload] else []);
    hide PayloadsOf;
  }

  lemma {:induction false} PayloadsPermute(a: seq<Observation>, b: seq<Observation>, k: Key)
    requires AllFit(a) && multiset(a) == multiset(b)
    ensures AllFit(b) && multiset(PayloadsOf(a, k)) == multiset(PayloadsOf(b, k))
  {
    forall o | o in b ensures o in a { assert o in multiset(a); }
    if a == [] {
      assert |multiset(b)| == 0;
    } else {
      var n := |a| - 1;
      assert a[n] in multiset(b);
      var i :| 0 <= i < |b| && b[i] == a[n];
      Without(a, b, i);
      assert b == b[..i] + [b[i]] + b[i + 1..];
      PayloadsPermute(a[..n], b[..i] + b[i + 1..], k);
      PayloadsMiddle(b[..i], b[i], b[i + 1..], k);
    }
  }

  /** The same windows in another order say the same about every series. */
  lemma AnyOrder(windows: seq<seq<Observation>>, a: seq<nat>, b: seq<nat>, k: Key, boundsOf: Key -> seq<real>)
    requires AllWindowsFit(windows) && multiset(a) == multiset(b)
    ensures AllFit(Picked(windows, a)) && AllFit(Picked(windows, b))
    ensures SummaryOf(Picked(windows, a), k, boundsOf) == SummaryOf(Picked(windows, b), k, boundsOf)
  {
    PickedPermutes(windows, a, b);
    PickedFit(windows, a);
    PickedFit(windows, b);
    PayloadsPermute(Picked(windows, a), Picked(windows, b), k);
    SummarizePermutes(PayloadsOf(Picked(windows, a), k), PayloadsOf(Picked(windows, b), k), k.kind, boundsOf(k));
  }

  /** Every series of the minute reads as if all these observations had been one window. */
  ghost predicate Unsplit(rows: Rows, window: seq<Observation>, boundsOf: Key -> seq<real>) {
    AllFit(window) && forall k :: Reading(rows, k, boundsOf) == SummaryOf(window, k, boundsOf)
  }

  /** Every series of the minute says what the observations on it amount to. */
  ghost predicate ReportsAll(rows: Rows, window: seq<Observation>, boundsOf: Key -> seq<real>) {
    AllFit(window) && forall k :: Reports(Reading(rows, k, boundsOf), PayloadsOf(window, k), k.kind, boundsOf(k))
  }

  lemma UnsplitReports(rows: Rows, window: seq<Observation>, boundsOf: Key -> seq<real>)
    requires AllFit(window) && forall k :: StrictlyIncreasing(boundsOf(k))
    ensures Unsplit(rows, window, boundsOf) <==> ReportsAll(rows, window, boundsOf)
  {
    hide StrictlyIncreasing, Reports, Reading, PayloadsOf, AllFit, AllSuit;
    forall k
      ensures Reading(rows, k, boundsOf) == SummaryOf(window, k, boundsOf) <==>
              Reports(Reading(rows, k, boundsOf), PayloadsOf(window, k), k.kind, boundsOf(k))
    {
      ReportsExactly(Reading(rows, k, boundsOf), PayloadsOf(window, k), k.kind, boundsOf(k));
    }
  }

  lemma IngestedNext(before: Rows, after: Rows, frame: Rows, seen: seq<Observation>, window: seq<Observation>,
                     boundsOf: Key -> seq<real>)
    requires Unsplit(before, seen, boundsOf) && IsFrameOf(frame, window, boundsOf)
    requires IsMerged(before, after, frame, frame.Keys, boundsOf)
    ensures Unsplit(after, seen + window, boundsOf)
  {
    hide Reading, IsMerged, Proper, SummaryOf, Merge;
    forall k ensures Reading(after, k, boundsOf) == SummaryOf(seen + window, k, boundsOf) {
      MergedReads(before, after, frame, k, boundsOf);
      SummaryOfConcat(seen, window, k, boundsOf);
    }
  }

  // Which series a stream needs

  /** What the application does: it asks for the handle of a series, or observes on one. */
  datatype Use = Handle(handle: Key) | Observe(observation: Observation)

  function KeyOf(u: Use): Key { if u.Handle? then u.handle else u.observation.key }

  function Observing(u: Use): seq<Observation> { if u.Observe? then [u.observation] else [] }

  function Observed(uses: seq<Use>): seq<Observation> {
    if uses == [] then [] else Observed(uses[..|uses| - 1]) + Observing(uses[|uses| - 1])
  }

  /** The observations of each window of a stream. */
  function WindowsOf(stream: seq<seq<Use>>): seq<seq<Observation>> {
    seq<seq<Observation>>(|stream|, i requires 0 <= i < |stream| => Observed(stream[i]))
  }

  function KeysIn(uses: seq<Use>): set<Key> { set u | u in uses :: KeyOf(u) }

  /** The series that the stream asks for or observes. */
  function StreamKeys(stream: seq<seq<Use>>): set<Key> {
    if stream == [] then {} else StreamKeys(stream[..|stream| - 1]) + KeysIn(stream[|stream| - 1])
  }

  lemma StreamKeysNext(stream: seq<seq<Use>>, i: nat)
    requires i < |stream|
    ensures StreamKeys(stream[..i + 1]) == StreamKeys(stream[..i]) + KeysIn(stream[i])
  {
    assert stream[..i + 1][..i] == stream[..i];
  }

  lemma KeysInNext(uses: seq<Use>, j: nat)
    requires j < |uses|
    ensures KeysIn(uses[..j + 1]) == KeysIn(uses[..j]) + {KeyOf(uses[j])}
  {
    hide KeyOf;
    assert uses[..j + 1] == uses[..j] + [uses[j]];
  }

  lemma ObservedNext(uses: seq<Use>, j: nat)
    requires j < |uses|
    ensures Observed(uses[..j + 1]) == Observed(uses[..j]) + Observing(uses[j])
  {
    assert uses[..j + 1][..j] == uses[..j];
  }

  lemma {:induction false} ObservedFits(uses: seq<Use>, j: nat)
    requires j < |uses| && uses[j].Observe? && AllFit(Observed(uses))
    ensures Suits(uses[j].observation.payload, uses[j].observation.key.kind)
  {
    var n := |uses| - 1;
    assert forall o :: o in Observed(uses[..n]) ==> o in Observed(uses);
    if j < n {
      ObservedFits(uses[..n], j);
    } else {
      assert uses[j].observation in Observing(uses[n]) && uses[j].observation in Observed(uses);
    }
  }

  lemma {:induction false} InStream(stream: seq<seq<Use>>, i: nat, k: Key)
    requires i < |stream| && k in KeysIn(stream[i])
    ensures k in StreamKeys(stream)
  {
    if i < |stream| - 1 { InStream(stream[..|stream| - 1], i, k); }
  }

  /** The series that some window has something to send for. */
  ghost function SentKeys(stream: seq<seq<Use>>, boundsOf: Key -> seq<real>): set<Key>
    requires AllWindowsFit(WindowsOf(stream))
  {
    set k | k in StreamKeys(stream) && exists i :: 0 <= i < |stream| && Says(WindowsOf(stream)[i], k, boundsOf)
  }

  lemma SaysObserved(uses: seq<Use>, k: Key, boundsOf: Key -> seq<real>)
    requires AllFit(Observed(uses)) && Says(Observed(uses), k, boundsOf)
    ensures k in KeysIn(uses)
  {
    if k !in KeysIn(uses) {
      NoPayloads(uses, k);
      assert false;
    }
  }

  lemma {:induction false} NoPayloads(uses: seq<Use>, k: Key)
    requires AllFit(Observed(uses)) && k !in KeysIn(uses)
    ensures PayloadsOf(Observed(uses), k) == []
  {
    if uses != [] {
      var n := |uses| - 1;
      var before, last := Observed(uses[..n]), Observing(uses[n]);
      assert uses[n] in uses && forall u :: u in uses[..n] ==> u in uses;
      assert forall o :: o in before ==> o in before + last;
      assert AllFit(last) by { assert forall o :: o in last ==> o in before + last; }
      NoPayloads(uses[..n], k);
      PayloadsOfConcat(before, last, k);
      if uses[n].Observe? { assert [uses[n].observation][..0] == []; }
    }
  }

  function FrameAt(frames: seq<Rows>, i: nat): Rows { if i < |frames| then frames[i] else map[] }

  /** The keys of the frames with these numbers. */
  function FrameKeys(frames: seq<Rows>, order: seq<nat>): set<Key> {
    if order == [] then {}
    else FrameKeys(frames, order[..|order| - 1]) + FrameAt(frames, order[|order| - 1]).Keys
  }

  lemma {:induction false} InFrames(frames: seq<Rows>, order: seq<nat>, k: Key)
    ensures k in FrameKeys(frames, order) <==> exists i :: i in order && k in FrameAt(frames, i)
  {
    if order != [] {
      var rest, last := order[..|order| - 1], order[|order| - 1];
      assert order == rest + [last];
      InFrames(frames, rest, k);
    }
  }

  lemma FrameKeysNext(frames: seq<Rows>, order: seq<nat>, i: nat)
    requires i < |frames|
    ensures FrameKeys(frames, order + [i]) == FrameKeys(frames, order) + frames[i].Keys
  {
    assert (order + [i])[..|order|] == order;
  }

  /** The frames of the windows, in any order, hold the keys the windows send. */
  lemma FramesSend(frames: seq<Rows>, stream: seq<seq<Use>>, order: seq<nat>, boundsOf: Key -> seq<real>)
    requires AllWindowsFit(WindowsOf(stream)) && AreFramesOf(frames, WindowsOf(stream), boundsOf)
    requires forall i: nat :: i in order <==> i < |frames|
    ensures FrameKeys(frames, order) == SentKeys(stream, boundsOf)
  {
    var windows := WindowsOf(stream);
    forall k ensures k in FrameKeys(frames, order) <==> k in SentKeys(stream, boundsOf) {
      InFrames(frames, order, k);
      hide Says, StreamKeys, FrameKeys, Proper;
      if i: nat :| i < |stream| && Says(windows[i], k, boundsOf) {
        SaysObserved(stream[i], k, boundsOf);
        InStream(stream, i, k);
        assert i in order && k in FrameAt(frames, i);
      }
    }
  }

  // The client and the server over the whole stream

  method UseNext(registry: MetricsRegistry, u: Use, ghost known: set<Key>, ghost recorded: seq<Observation>)
    requires registry.Stands(known, recorded)
    requires u.Observe? ==> Suits(u.observation.payload, u.observation.key.kind)
    modifies registry
    ensures registry.Stands(known + {KeyOf(u)}, recorded + Observing(u))
    ensures registry.rejected == {} ==> old(registry.rejected) == {}
  {
    hide HoldsWindow, WithinCap, KeysWith, Suits;
    match u
    case Handle(k) =>
      assert recorded + [] == recorded;
      var found := registry.FindSeries(k);
    case Observe(o) =>
      var accepted := registry.Record(o);
  }

  lemma PrefixNext(uses: seq<Use>, j: nat, known: set<Key>)
    requires j < |uses|
    ensures Observed(uses[..j + 1]) == Observed(uses[..j]) + Observing(uses[j])
    ensures known + KeysIn(uses[..j + 1]) == known + KeysIn(uses[..j]) + {KeyOf(uses[j])}
  {
    KeysInNext(uses, j);
    ObservedNext(uses, j);
  }

  /** One window of the client; `recorded` is what it did not refuse. */
  method RecordWindow(registry: MetricsRegistry, uses: seq<Use>, ghost known: set<Key>)
    returns (frame: Rows, ghost recorded: seq<Observation>)
    requires registry.Stands(known, []) && registry.window == [] && AllFit(Observed(uses))
    modifies registry
    ensures registry.Stands(known + KeysIn(uses), []) && registry.window == []
    ensures IsFrameOf(frame, recorded, registry.boundsOf)
    ensures registry.rejected == {} ==> old(registry.rejected) == {} && recorded == Observed(uses)
  {
    assert KeysIn([]) == {} && uses[..0] == [] && known + {} == known && Observed([]) == [];
    hide AllFit, KeysIn, KeyOf, Observed, Observing, IsFrameOf, MetricsRegistry.Stands;
    for j := 0 to |uses|
      invariant registry.Stands(known + KeysIn(uses[..j]), Observed(uses[..j]))
      invariant registry.rejected == {} ==> old(registry.rejected) == {}
    {
      if uses[j].Observe? { ObservedFits(uses, j); }
      UseNext(registry, uses[j], known + KeysIn(uses[..j]), Observed(uses[..j]));
      PrefixNext(uses, j, known);
    }
    assert uses[..|uses|] == uses;
    recorded := registry.window;
    frame := SendWindow(registry, known + KeysIn(uses), Observed(uses));
  }

  method SendWindow(registry: MetricsRegistry, ghost known: set<Key>, ghost recorded: seq<Observation>)
    returns (frame: Rows)
    requires registry.Stands(known, recorded)
    modifies registry
    ensures registry.Stands(known, []) && registry.window == [] && registry.rejected == old(registry.rejected)
    ensures IsFrameOf(frame, old(registry.window), registry.boundsOf)
    ensures registry.rejected == {} ==> old(registry.window) == recorded
  {
    hide HoldsWindow, WithinCap, IsFrameOf;
    frame := registry.SnapshotAndReset();
  }

  lemma WindowFits(stream: seq<seq<Use>>, i: nat)
    requires AllWindowsFit(WindowsOf(stream)) && i < |stream|
    ensures AllFit(Observed(stream[i])) && WindowsOf(stream)[i] == Observed(stream[i])
  {
    assert WindowsOf(stream)[i] == Observed(stream[i]);
  }

  /**
   One client goes through the windows one after the other and sends a frame for each. `recorded` is what it did
   not refuse, and it refuses nothing exactly when there is room for every series of the stream, those included
   that are asked for and never observed.
   */
  method Client(stream: seq<seq<Use>>, boundsOf: Key -> seq<real>, maxSeriesPerMetric: nat)
    returns (frames: seq<Rows>, complete: bool, ghost recorded: seq<seq<Observation>>)
    requires AllWindowsFit(WindowsOf(stream))
    ensures |recorded| == |stream| && AllWindowsFit(recorded) && AreFramesOf(frames, recorded, boundsOf)
    ensures complete ==> recorded == WindowsOf(stream)
    ensures complete <==> Roomy(StreamKeys(stream), maxSeriesPerMetric)
  {
    var registry := new MetricsRegistry(boundsOf, maxSeriesPerMetric);
    frames, recorded := [], [];
    ghost var windows := WindowsOf(stream);
    assert stream[..0] == [] && StreamKeys([]) == {} && registry.Stands({}, []);
    assert AreFramesOf(frames, recorded, boundsOf) && IsPrefix(true, recorded, windows, 0);
    hide IsPrefix, AllFit, AllWindowsFit, IsFrameOf, AreFramesOf, StreamKeys, KeysIn, Roomy, MetricsRegistry.Stands,
      Observed;
    for i := 0 to |stream|
      invariant fresh(registry) && registry.window == [] && registry.boundsOf == boundsOf
      invariant |recorded| == i && AreFramesOf(frames, recorded, boundsOf)
      invariant IsPrefix(registry.rejected == {}, recorded, windows, i)
      invariant registry.maxSeriesPerMetric == maxSeriesPerMetric
      invariant registry.Stands(StreamKeys(stream[..i]), [])
    {
      WindowFits(stream, i);
      var frame;
      ghost var kept;
      frame, kept := RecordWindow(registry, stream[i], StreamKeys(stream[..i]));
      AreFramesNext(frames, recorded, frame, kept, boundsOf);
      PrefixGrows(registry.rejected == {}, recorded, windows, i, kept);
      frames, recorded := frames + [frame], recorded + [kept];
      StreamKeysNext(stream, i);
    }
    assert stream[..|stream|] == stream;
    assert IsPrefix(registry.rejected == {}, recorded, windows, |windows|);
    PrefixEnds(registry.rejected == {}, recorded, windows);
    complete := registry.dropped == 0;
    NothingRefused(registry, StreamKeys(stream));
    FramesFit(frames, recorded, boundsOf);
  }

  lemma NothingRefused(registry: MetricsRegistry, known: set<Key>)
    requires registry.Stands(known, [])
    ensures registry.dropped == 0 <==> registry.rejected == {}
    ensures registry.rejected == {} <==> Roomy(known, registry.maxSeriesPerMetric)
  {
    RefusedExactly(registry.series.Keys, registry.rejected, registry.maxSeriesPerMetric);
  }

  ghost predicate IsPrefix<T>(clean: bool, done: seq<T>, all: seq<T>, n: nat) {
    n == |done| <= |all| && (clean ==> done == all[..n])
  }

  lemma PrefixGrows<T>(clean: bool, done: seq<T>, all: seq<T>, n: nat, x: T)
    requires n < |all| && (clean ==> x == all[n]) && IsPrefix(clean, done, all, n)
    ensures IsPrefix(clean, done + [x], all, n + 1)
  {
  }

  lemma PrefixEnds<T>(clean: bool, done: seq<T>, all: seq<T>)
    requires IsPrefix(clean, done, all, |all|)
    ensures |done| == |all| && (clean ==> done == all) && all[..|all|] == all
  {
  }

  ghost predicate AreFramesOf(frames: seq<Rows>, windows: seq<seq<Observation>>, boundsOf: Key -> seq<real>) {
    |frames| == |windows| && forall i :: 0 <= i < |frames| ==> IsFrameOf(frames[i], windows[i], boundsOf)
  }

  lemma AreFramesNext(frames: seq<Rows>, windows: seq<seq<Observation>>, frame: Rows, window: seq<Observation>,
                      boundsOf: Key -> seq<real>)
    requires AreFramesOf(frames, windows, boundsOf) && IsFrameOf(frame, window, boundsOf)
    ensures AreFramesOf(frames + [frame], windows + [window], boundsOf)
  {
    hide IsFrameOf;
  }

  lemma FramesFit(frames: seq<Rows>, windows: seq<seq<Observation>>, boundsOf: Key -> seq<real>)
    requires AreFramesOf(frames, windows, boundsOf)
    ensures AllWindowsFit(windows)
  {
  }

  /** What the drop counter says after frames with the keys `sent`. */
  ghost predicate Arrived(rows: set<Key>, dropped: nat, sent: set<Key>, max: nat) {
    && rows <= sent && (dropped == 0 ==> rows == sent) && (dropped == 0 <==> Roomy(sent, max))
  }

  lemma ArrivedNext(before: set<Key>, after: set<Key>, dropped: nat, sent: set<Key>, frame: set<Key>, max: nat)
    requires Arrived(before, dropped, sent, max)
    requires after == before + frame * after
    requires frame - after == {} <==> Roomy(before + frame, max)
    ensures Arrived(after, dropped + |frame - after|, sent + frame, max)
  {
    if Roomy(sent + frame, max) { RoomyShrinks(sent, sent + frame, max); }
    hide Roomy;
    NoneLeft(frame, after);
  }

  lemma NoneLeft<T>(some: set<T>, all: set<T>)
    ensures some - all == {} ==> some * all == some
    ensures some - all == {} <==> |some - all| == 0
  {
    if some - all == {} {
      forall x | x in some ensures x in all { assert x !in some - all; }
    }
  }

  /** The minute after the frames with the numbers in `order`. */
  ghost predicate Served(rows: Rows, dropped: nat, frames: seq<Rows>, windows: seq<seq<Observation>>, order: seq<nat>,
                         boundsOf: Key -> seq<real>, max: nat)
  {
    && (dropped == 0 ==> Unsplit(rows, Picked(windows, order), boundsOf))
    && Arrived(rows.Keys, dropped, FrameKeys(frames, order), max)
  }

  /** One server minute ingests the frames of some windows in the given order. */
  method Serve(frames: seq<Rows>, arrival: seq<nat>, boundsOf: Key -> seq<real>, maxSeries: nat,
               ghost windows: seq<seq<Observation>>)
    returns (server: ServerWindow)
    requires AreFramesOf(frames, windows, boundsOf) && forall i :: i in arrival ==> i < |frames|
    requires forall k :: StrictlyIncreasing(boundsOf(k))
    ensures server.Valid() && fresh(server)
    ensures server.cardinalityDropped == 0 ==> Unsplit(server.rows, Picked(windows, arrival), boundsOf)
    ensures server.cardinalityDropped == 0 <==> Roomy(FrameKeys(frames, arrival), maxSeries)
  {
    server := new ServerWindow(boundsOf, maxSeries);
    NoneServed(frames, windows, boundsOf, maxSeries);
    hide *;
    assert arrival[..0] == [];
    for i := 0 to |arrival|
      invariant fresh(server) && server.Valid() && server.boundsOf == boundsOf && server.maxSeries == maxSeries
      invariant Served(server.rows, server.cardinalityDropped, frames, windows, arrival[..i], boundsOf, maxSeries)
    {
      assert arrival[i] in arrival;
      ServeOne(server, frames, arrival[i], windows, arrival[..i]);
      TakeOneMore(arrival, i);
    }
    assert arrival[..|arrival|] == arrival;
    ServedSays(server.rows, server.cardinalityDropped, frames, windows, arrival, boundsOf, maxSeries);
  }

  lemma TakeOneMore<T>(s: seq<T>, i: nat)
    requires i < |s|
    ensures s[..i + 1] == s[..i] + [s[i]]
  {
  }

  lemma NoneServed(frames: seq<Rows>, windows: seq<seq<Observation>>, boundsOf: Key -> seq<real>, max: nat)
    ensures Served(map[], 0, frames, windows, [], boundsOf, max)
  {
    NothingYet(boundsOf);
    NoneArrived(max);
    hide Unsplit, Arrived;
    var none: Rows := map[];
    assert none.Keys == {};
  }

  lemma ServedSays(rows: Rows, dropped: nat, frames: seq<Rows>, windows: seq<seq<Observation>>, order: seq<nat>,
                   boundsOf: Key -> seq<real>, max: nat)
    requires Served(rows, dropped, frames, windows, order, boundsOf, max)
    ensures dropped == 0 ==> Unsplit(rows, Picked(windows, order), boundsOf)
    ensures dropped == 0 <==> Roomy(FrameKeys(frames, order), max)
  {
    hide Unsplit, Roomy;
  }

  lemma NoneArrived(max: nat)
    ensures Arrived({}, 0, {}, max)
  {
    forall c ensures KeysWith({}, c) == {} { }
  }

  method ServeOne(server: ServerWindow, frames: seq<Rows>, i: nat, ghost windows: seq<seq<Observation>>,
                  ghost order: seq<nat>)
    requires server.Valid() && AreFramesOf(frames, windows, server.boundsOf) && i < |frames|
    requires Served(server.rows, server.cardinalityDropped, frames, windows, order, server.boundsOf, server.maxSeries)
    modifies server
    ensures server.Valid()
    ensures Served(server.rows, server.cardinalityDropped, frames, windows, order + [i], server.boundsOf,
                   server.maxSeries)
  {
    ghost var before, dropped, window := server.rows, server.cardinalityDropped, windows[i];
    ghost var seen, sent := Picked(windows, order), FrameKeys(frames, order);
    assert IsFrameOf(frames[i], window, server.boundsOf);
    FrameKeysNext(frames, order, i);
    PickedAppend(windows, order, i);
    server.IngestFrame(frames[i]);
    MergedKeys(before, server.rows, frames[i], server.boundsOf);
    hide Proper, StrictlyIncreasing, Capped, IsFrameOf, Unsplit, IsMerged, Arrived, KeysWith, Roomy, CapOf, Picked,
      FrameKeys;
    ArrivedNext(before.Keys, server.rows.Keys, dropped, sent, frames[i].Keys, server.maxSeries);
    if server.cardinalityDropped == 0 {
      IngestedNext(before, server.rows, frames[i], seen, window, server.boundsOf);
    }
  }

  lemma MergedKeys(before: Rows, after: Rows, frame: Rows, boundsOf: Key -> seq<real>)
    requires IsMerged(before, after, frame, frame.Keys * after.Keys, boundsOf)
    ensures after.Keys == before.Keys + frame.Keys * after.Keys
    ensures frame.Keys - after.Keys == {} ==> frame.Keys * after.Keys == frame.Keys
  {
    NoneLeft(frame.Keys, after.Keys);
  }

  /**
   Any split of one stream into windows, any arrival order of their frames: when neither side drops a series,
   every counter, histogram and distinct of the minute is that of a single unsplit series. That is so exactly
   when the client has room for every series the stream asks for or observes and the server for every series it
   is sent, and so whenever both have room for every series of the stream.
   */
  method Minute(stream: seq<seq<Use>>, arrival: seq<nat>, boundsOf: Key -> seq<real>, maxSeriesPerMetric: nat,
                maxSeries: nat)
    returns (server: ServerWindow, complete: bool)
    requires AllWindowsFit(WindowsOf(stream)) && forall k :: StrictlyIncreasing(boundsOf(k))
    requires multiset(arrival) == multiset(Numbers(|stream|))
    ensures server.Valid()
    ensures complete ==> ReportsAll(server.rows, Picked(WindowsOf(stream), Numbers(|stream|)), boundsOf)
    ensures complete ==> Unsplit(server.rows, Picked(WindowsOf(stream), Numbers(|stream|)), boundsOf)
    ensures complete <==>
      Roomy(StreamKeys(stream), maxSeriesPerMetric) && Roomy(SentKeys(stream, boundsOf), maxSeries)
    ensures Roomy(StreamKeys(stream), maxSeriesPerMetric) && Roomy(StreamKeys(stream), maxSeries) ==> complete
  {
    var frames;
    ghost var recorded;
    frames, complete, recorded := Client(stream, boundsOf, maxSeriesPerMetric);
    ArrivalInRange(arrival, |stream|);
    hide IsFrameOf, Unsplit, AllWindowsFit, Roomy, StrictlyIncreasing, StreamKeys, FrameKeys, Picked, Observed;
    server := Serve(frames, arrival, boundsOf, maxSeries, recorded);
    if complete { FramesSend(frames, stream, arrival, boundsOf); }
    SentInStream(stream, boundsOf, maxSeries);
    complete := complete && server.cardinalityDropped == 0;
    if complete {
      UnsplitInOrder(server.rows, recorded, arrival, boundsOf);
      PickedFit(recorded, Numbers(|recorded|));
      UnsplitReports(server.rows, Picked(recorded, Numbers(|recorded|)), boundsOf);
    }
  }

  lemma SentInStream(stream: seq<seq<Use>>, boundsOf: Key -> seq<real>, max: nat)
    requires AllWindowsFit(WindowsOf(stream))
    ensures Roomy(StreamKeys(stream), max) ==> Roomy(SentKeys(stream, boundsOf), max)
  {
    if Roomy(StreamKeys(stream), max) { RoomyShrinks(SentKeys(stream, boundsOf), StreamKeys(stream), max); }
  }

  lemma ArrivalInRange(arrival: seq<nat>, n: nat)
    requires multiset(arrival) == multiset(Numbers(n))
    ensures forall i: nat :: i in arrival <==> i < n
  {
    forall i: nat ensures i in arrival <==> i < n {
      assert i in arrival <==> i in multiset(Numbers(n));
      assert i < n ==> Numbers(n)[i] == i;
    }
  }

  lemma NothingYet(boundsOf: Key -> seq<real>)
    ensures Unsplit(map[], [], boundsOf)
  {
  }

  lemma UnsplitInOrder(rows: Rows, windows: seq<seq<Observation>>, arrival: seq<nat>, boundsOf: Key -> seq<real>)
    requires AllWindowsFit(windows) && multiset(arrival) == multiset(Numbers(|windows|))
    requires Unsplit(rows, Picked(windows, arrival), boundsOf)
    ensures Unsplit(rows, Picked(windows, Numbers(|windows|)), boundsOf)
  {
    PickedFit(windows, Numbers(|windows|));
    forall k ensures Reading(rows, k, boundsOf) == SummaryOf(Picked(windows, Numbers(|windows|)), k, boundsOf) {
      AnyOrder(windows, arrival, Numbers(|windows|), k, boundsOf);
    }
  }
}
