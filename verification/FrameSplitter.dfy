/**
 Splitting one logical frame into physical frames of bounded size. A row is its JSON text, a character
 stands for one byte of UTF-8, and `show` prints a number.
 */
module FrameSplitter {
  import opened Wrappers
  import opened Sequences
  import Delivery

  type Row = string

  datatype Kind = Counters | Gauges | Histograms | Distincts | Events | Logs

  /** The order in which the kinds are written out. */
  const KINDS: seq<Kind> := [Counters, Gauges, Histograms, Distincts, Events, Logs]

  datatype Frame = Frame(number: nat, start: int, end: int,
                         counters: seq<Row>, gauges: seq<Row>, histograms: seq<Row>, distincts: Option<seq<Row>>,
                         events: seq<Row>, logs: seq<Row>)

  function EmptyFrame(number: nat, start: int, end: int): Frame {
    Frame(number, start, end, [], [], [], None, [], [])
  }

  function RowsOf(f: Frame, k: Kind): seq<Row> {
    match k
    case Counters => f.counters
    case Gauges => f.gauges
    case Histograms => f.histograms
    case Distincts => if f.distincts.Some? then f.distincts.value else []
    case Events => f.events
    case Logs => f.logs
  }

  function Push(f: Frame, k: Kind, row: Row): Frame {
    match k
    case Counters => f.(counters := f.counters + [row])
    case Gauges => f.(gauges := f.gauges + [row])
    case Histograms => f.(histograms := f.histograms + [row])
    case Distincts => f.(distincts := Some(RowsOf(f, Distincts) + [row]))
    case Events => f.(events := f.events + [row])
    case Logs => f.(logs := f.logs + [row])
  }

  function RowCount(f: Frame): nat {
    |f.counters| + |f.gauges| + |f.histograms| + |RowsOf(f, Distincts)| + |f.events| + |f.logs|
  }

  lemma PushOne(f: Frame, k: Kind, row: Row)
    ensures RowCount(Push(f, k, row)) == RowCount(f) + 1
    ensures forall j :: RowsOf(Push(f, k, row), j) == RowsOf(f, j) + (if j == k then [row] else [])
  {
  }

  // JSON text

  function Join(rows: seq<Row>): string {
    if rows == [] then "" else if |rows| == 1 then rows[0] else Join(rows[..|rows| - 1]) + "," + rows[|rows| - 1]
  }

  function List(rows: seq<Row>): string { "[" + Join(rows) + "]" }

  function Property(name: string, value: string): string { "\"" + name + "\":" + value }

  function MetricsText(f: Frame): string {
    "{" + Property("counters", List(f.counters)) + "," + Property("gauges", List(f.gauges)) + "," +
    Property("histograms", List(f.histograms)) +
    (if f.distincts.Some? then "," + Property("distincts", List(f.distincts.value)) else "") + "}"
  }

  /** JSON.stringify of a frame. */
  function FrameText(show: int -> string, f: Frame): string {
    "{" + Property("seq", show(f.number)) + "," + Property("from", show(f.start)) + "," + Property("to", show(f.end))
      + "," +
    Property("metrics", MetricsText(f)) + "," + Property("events", List(f.events)) + "," +
    Property("logs", List(f.logs)) + "}"
  }

  const FRAME_ROWS_DROPPED := "wardx.internal.frame_rows_dropped"

  /** The counter row that reports the dropped rows. */
  function DropRow(show: int -> string, n: nat): Row {
    "[\"" + FRAME_ROWS_DROPPED + "\",null," + show(n) + "]"
  }

  /** No number prints longer than a double does. */
  ghost predicate ShortNumbers(show: int -> string) {
    forall n :: |show(n)| <= 25
  }

  /** The bytes that a row adds to a frame: the distinct rows bring their own property. */
  function AddedBytes(f: Frame, k: Kind, rowBytes: nat): nat {
    rowBytes + (if RowsOf(f, k) != [] then 1 else 0)
      + (if k == Distincts && f.distincts.None? then |",\"distincts\":[]"| else 0)
  }

  lemma JoinLength(rows: seq<Row>, row: Row)
    ensures |List(rows + [row])| == |List(rows)| + |row| + (if rows != [] then 1 else 0)
  {
    assert (rows + [row])[..|rows|] == rows;
  }

  lemma PropertyLength(name: string, value: string)
    ensures |Property(name, value)| == |name| + 3 + |value|
  {
  }

  lemma MetricsLength(f: Frame)
    ensures |MetricsText(f)| == 37 + |List(f.counters)| + |List(f.gauges)| + |List(f.histograms)|
      + (if f.distincts.Some? then 13 + |List(f.distincts.value)| else 0)
  {
    PropertyLength("counters", List(f.counters));
    PropertyLength("gauges", List(f.gauges));
    PropertyLength("histograms", List(f.histograms));
    if f.distincts.Some? { PropertyLength("distincts", List(f.distincts.value)); }
    hide List, Property;
  }

  lemma TextLength(show: int -> string, f: Frame)
    ensures |FrameText(show, f)| == 51 + |show(f.number)| + |show(f.start)| + |show(f.end)|
      + |MetricsText(f)| + |List(f.events)| + |List(f.logs)|
  {
    PropertyLength("seq", show(f.number));
    PropertyLength("from", show(f.start));
    PropertyLength("to", show(f.end));
    PropertyLength("metrics", MetricsText(f));
    PropertyLength("events", List(f.events));
    PropertyLength("logs", List(f.logs));
    hide List, Property, MetricsText;
  }

  lemma MetricsPushLength(f: Frame, k: Kind, row: Row)
    requires k !in {Events, Logs}
    ensures |MetricsText(Push(f, k, row))| == |MetricsText(f)| + AddedBytes(f, k, |row|)
  {
    MetricsLength(f);
    MetricsLength(Push(f, k, row));
    JoinLength(RowsOf(f, k), row);
    assert |List([])| == 2;
    hide MetricsText, List;
  }

  /** The incremental account is exact: adding a row lengthens the text by AddedBytes. */
  lemma PushLength(show: int -> string, f: Frame, k: Kind, row: Row)
    ensures |FrameText(show, Push(f, k, row))| == |FrameText(show, f)| + AddedBytes(f, k, |row|)
  {
    TextLength(show, f);
    TextLength(show, Push(f, k, row));
    hide FrameText, List;
    if k in {Events, Logs} {
      JoinLength(RowsOf(f, k), row);
      assert MetricsText(Push(f, k, row)) == MetricsText(f);
    } else {
      MetricsPushLength(f, k, row);
      hide MetricsText, AddedBytes;
    }
  }

  lemma EmptyLength(show: int -> string, number: nat, start: int, end: int)
    requires ShortNumbers(show)
    ensures |FrameText(show, EmptyFrame(number, start, end))| <= 173
  {
    TextLength(show, EmptyFrame(number, start, end));
    MetricsLength(EmptyFrame(number, start, end));
    assert |List([])| == 2;
    hide FrameText, MetricsText, List;
  }

  lemma DropRowLength(show: int -> string, n: nat)
    requires ShortNumbers(show)
    ensures |DropRow(show, n)| <= 68
  {
    assert |FRAME_ROWS_DROPPED| == 33;
  }

  // The rows of a sequence of frames

  function RowsIn(frames: seq<Frame>, k: Kind): seq<Row> {
    if frames == [] then [] else RowsIn(frames[..|frames| - 1], k) + RowsOf(frames[|frames| - 1], k)
  }

  lemma RowsInAppend(frames: seq<Frame>, f: Frame, k: Kind)
    ensures RowsIn(frames + [f], k) == RowsIn(frames, k) + RowsOf(f, k)
  {
    assert (frames + [f])[..|frames|] == frames;
  }

  /** The rows of a kind in the finished frames and in the current one, in order. */
  function RowsIncluding(frames: seq<Frame>, f: Frame, k: Kind): seq<Row> {
    RowsIn(frames, k) + RowsOf(f, k)
  }

  lemma PlacedFinish(frames: seq<Frame>, f: Frame, number: nat, start: int, end: int)
    ensures forall k :: RowsIncluding(frames + [f], EmptyFrame(number, start, end), k) == RowsIncluding(frames, f, k)
  {
    forall k ensures RowsIncluding(frames + [f], EmptyFrame(number, start, end), k) == RowsIncluding(frames, f, k) {
      RowsInAppend(frames, f, k);
      assert RowsOf(EmptyFrame(number, start, end), k) == [];
      hide RowsIn, RowsOf;
    }
  }

  /** `placed` once a row of kind k has been added. */
  function WithRow(placed: seq<Row>, k: Kind, row: Row, j: Kind): seq<Row> {
    if j == k then placed + [row] else placed
  }

  lemma PlacedPush(frames: seq<Frame>, f: Frame, k: Kind, row: Row)
    ensures forall j :: RowsIncluding(frames, Push(f, k, row), j) == WithRow(RowsIncluding(frames, f, j), k, row, j)
  {
    PushOne(f, k, row);
    hide RowsIn, RowsOf, Push;
    forall j ensures RowsIncluding(frames, Push(f, k, row), j) == WithRow(RowsIncluding(frames, f, j), k, row, j) {
      Reassociate(RowsIn(frames, j), RowsOf(f, j), if j == k then [row] else []);
    }
  }

  /** A frame that may be sent: numbered, within both limits, and printed as `json`. */
  ghost predicate Fits(show: int -> string, f: Frame, json: string, number: nat, start: int, end: int, maxBytes: nat,
                       maxRows: nat)
  {
    && f.number == number && f.start == start && f.end == end
    && json == FrameText(show, f) && |json| <= maxBytes
    && RowCount(f) <= maxRows
    && (f.distincts.Some? ==> f.distincts.value != [])
  }

  /** Finished frames: consecutive numbers, each within the limits. */
  ghost predicate Finished(show: int -> string, frames: seq<Frame>, jsons: seq<string>, first: nat, start: int,
                           end: int,
                           maxBytes: nat, maxRows: nat) {
    && |jsons| == |frames|
    && (forall i :: 0 <= i < |frames| ==> Fits(show, frames[i], jsons[i], first + i, start, end, maxBytes, maxRows))
  }

  ghost predicate NoneEmpty(frames: seq<Frame>) {
    forall i :: 0 <= i < |frames| ==> RowCount(frames[i]) > 0
  }

  lemma NoneEmptyAppend(frames: seq<Frame>, f: Frame)
    requires NoneEmpty(frames) && RowCount(f) > 0
    ensures NoneEmpty(frames + [f])
  {
    hide RowCount;
  }

  lemma FinishedAppend(show: int -> string, frames: seq<Frame>, jsons: seq<string>, first: nat, start: int, end: int,
                       maxBytes: nat, maxRows: nat, f: Frame, json: string)
    requires Finished(show, frames, jsons, first, start, end, maxBytes, maxRows)
    requires Fits(show, f, json, first + |frames|, start, end, maxBytes, maxRows)
    ensures Finished(show, frames + [f], jsons + [json], first, start, end, maxBytes, maxRows)
  {
    hide Fits, RowCount;
  }

  lemma FitsLength(show: int -> string, f: Frame, number: nat, start: int, end: int, maxBytes: nat, maxRows: nat)
    requires Fits(show, f, FrameText(show, f), number, start, end, maxBytes, maxRows)
    ensures |FrameText(show, f)| <= maxBytes
  {
  }

  lemma EmptyFits(show: int -> string, number: nat, start: int, end: int, maxBytes: nat, maxRows: nat)
    requires ShortNumbers(show) && maxBytes >= 1024
    ensures var f := EmptyFrame(number, start, end); Fits(show, f, FrameText(show, f), number, start, end, maxBytes,
                                                          maxRows)
    ensures RowCount(EmptyFrame(number, start, end)) == 0
    ensures forall k :: RowsOf(EmptyFrame(number, start, end), k) == []
  {
    EmptyLength(show, number, start, end);
    hide FrameText;
  }

  /** A frame without rows is the empty frame. */
  lemma NoRows(show: int -> string, f: Frame, number: nat, start: int, end: int, maxBytes: nat, maxRows: nat)
    requires Fits(show, f, FrameText(show, f), number, start, end, maxBytes, maxRows) && RowCount(f) == 0
    ensures f == EmptyFrame(number, start, end)
  {
    hide FrameText;
  }

  lemma PushFits(show: int -> string, f: Frame, number: nat, start: int, end: int, maxBytes: nat, maxRows: nat,
                 k: Kind, row: Row)
    requires Fits(show, f, FrameText(show, f), number, start, end, maxBytes, maxRows)
    requires |FrameText(show, Push(f, k, row))| <= maxBytes && RowCount(f) < maxRows
    ensures var g := Push(f, k, row); Fits(show, g, FrameText(show, g), number, start, end, maxBytes, maxRows)
  {
    PushOne(f, k, row);
    hide FrameText, RowCount;
  }

  /** The row is too long for a frame of its own with that number. */
  ghost predicate TooLong(show: int -> string, number: nat, start: int, end: int, maxBytes: nat, k: Kind, row: Row) {
    |FrameText(show, Push(EmptyFrame(number, start, end), k, row))| > maxBytes
  }

  /** There is room for one more row in the frame. */
  predicate HasRoom(show: int -> string, f: Frame, maxBytes: nat, maxRows: nat, k: Kind, row: Row) {
    |FrameText(show, Push(f, k, row))| <= maxBytes && RowCount(f) < maxRows
  }

  /**
   A frame is closed only for a row that it has no room for: the next frame begins with that row, unless it is too
   long for any frame.
   */
  ghost predicate ClosedFor(show: int -> string, f: Frame, next: Frame, maxBytes: nat, maxRows: nat) {
    exists k, row: Row ::
      && !HasRoom(show, f, maxBytes, maxRows, k, row)
      && ((RowsOf(next, k) != [] && RowsOf(next, k)[0] == row)
          || TooLong(show, next.number, next.start, next.end, maxBytes, k, row))
  }

  ghost predicate WellFilled(show: int -> string, frames: seq<Frame>, maxBytes: nat, maxRows: nat) {
    forall i :: 0 <= i < |frames| - 1 ==> ClosedFor(show, frames[i], frames[i + 1], maxBytes, maxRows)
  }

  lemma MoreInLast(show: int -> string, frames: seq<Frame>, f: Frame, maxBytes: nat, maxRows: nat, k: Kind, row: Row)
    requires WellFilled(show, frames + [f], maxBytes, maxRows)
    ensures WellFilled(show, frames + [Push(f, k, row)], maxBytes, maxRows)
  {
    hide HasRoom, TooLong, FrameText;
    var before, after, n := frames + [f], frames + [Push(f, k, row)], |frames|;
    forall i | 0 <= i < |after| - 1 ensures ClosedFor(show, after[i], after[i + 1], maxBytes, maxRows) {
      assert ClosedFor(show, before[i], before[i + 1], maxBytes, maxRows);
      if i == n - 1 { ClosedStill(show, frames[i], f, maxBytes, maxRows, k, row); }
    }
  }

  lemma ClosedStill(show: int -> string, f: Frame, next: Frame, maxBytes: nat, maxRows: nat, k: Kind, row: Row)
    requires ClosedFor(show, f, next, maxBytes, maxRows)
    ensures ClosedFor(show, f, Push(next, k, row), maxBytes, maxRows)
  {
    hide HasRoom, TooLong, FrameText;
    PushOne(next, k, row);
    var j, r: Row :| !HasRoom(show, f, maxBytes, maxRows, j, r)
      && ((RowsOf(next, j) != [] && RowsOf(next, j)[0] == r)
          || TooLong(show, next.number, next.start, next.end, maxBytes, j, r));
  }

  lemma FillNext(show: int -> string, frames: seq<Frame>, f: Frame, next: Frame, maxBytes: nat, maxRows: nat)
    requires WellFilled(show, frames + [f], maxBytes, maxRows) && ClosedFor(show, f, next, maxBytes, maxRows)
    ensures WellFilled(show, frames + [f] + [next], maxBytes, maxRows)
  {
    hide ClosedFor;
    var before, after := frames + [f], frames + [f] + [next];
    forall i | 0 <= i < |after| - 1 ensures ClosedFor(show, after[i], after[i + 1], maxBytes, maxRows) {
      assert i < |frames| ==> before[i] == after[i] && before[i + 1] == after[i + 1];
    }
  }

  /** A row without room closes the frame: it starts the next one, or is too long for it. */
  lemma ClosedByRow(show: int -> string, f: Frame, number: nat, start: int, end: int, maxBytes: nat, maxRows: nat,
                    k: Kind, row: Row, added: bool)
    requires !HasRoom(show, f, maxBytes, maxRows, k, row)
    requires !added ==> TooLong(show, number, start, end, maxBytes, k, row)
    ensures var empty := EmptyFrame(number, start, end);
      ClosedFor(show, f, if added then Push(empty, k, row) else empty, maxBytes, maxRows)
  {
    hide HasRoom, TooLong, FrameText;
    PushOne(EmptyFrame(number, start, end), k, row);
    assert RowsOf(EmptyFrame(number, start, end), k) == [];
  }

  lemma FewerFilled(show: int -> string, frames: seq<Frame>, f: Frame, maxBytes: nat, maxRows: nat)
    requires WellFilled(show, frames + [f], maxBytes, maxRows)
    ensures WellFilled(show, frames, maxBytes, maxRows)
  {
    hide ClosedFor;
    forall i | 0 <= i < |frames| - 1 ensures ClosedFor(show, frames[i], frames[i + 1], maxBytes, maxRows) {
      assert (frames + [f])[i] == frames[i] && (frames + [f])[i + 1] == frames[i + 1];
    }
  }

  /** `after` is `before` followed by the rows kept, and the others were counted. */
  ghost predicate IsKept(before: seq<Row>, after: seq<Row>, rows: seq<Row>, keep: seq<bool>, dropped: nat) {
    && |keep| == |rows|
    && after == before + Select(rows, keep)
    && dropped == |rows| - |Select(rows, keep)|
  }

  lemma KeptNext(before: seq<Row>, placed: seq<Row>, rows: seq<Row>, keep: seq<bool>, dropped: nat, i: nat, added: bool)
    requires i < |rows| && IsKept(before, placed, rows[..i], keep, dropped)
    ensures IsKept(before, if added then placed + [rows[i]] else placed, rows[..i + 1], keep + [added],
                   if added then dropped else dropped + 1)
  {
    assert rows[..i + 1] == rows[..i] + [rows[i]];
    assert placed + [] == placed;
    SelectAppend(rows[..i], keep, rows[i], added);
    Reassociate(before, Select(rows[..i], keep), if added then [rows[i]] else []);
    hide Select;
  }

  /** A dropped row is too long for a frame of its own under one of the numbers in use. */
  ghost predicate NeverFits(show: int -> string, first: nat, start: int, end: int, maxBytes: nat, k: Kind, row: Row,
                            last: nat)
  {
    exists n: nat :: first <= n <= last && TooLong(show, n, start, end, maxBytes, k, row)
  }

  ghost predicate OnlyTooLong(show: int -> string, first: nat, start: int, end: int, maxBytes: nat, k: Kind,
                              rows: seq<Row>, keep: seq<bool>, last: nat) {
    && |keep| == |rows|
    && forall i :: 0 <= i < |rows| && !keep[i] ==> NeverFits(show, first, start, end, maxBytes, k, rows[i], last)
  }

  lemma NeverFitsLater(show: int -> string, first: nat, start: int, end: int, maxBytes: nat, k: Kind, row: Row,
                       last: nat, later: nat)
    requires NeverFits(show, first, start, end, maxBytes, k, row, last) && last <= later
    ensures NeverFits(show, first, start, end, maxBytes, k, row, later)
  {
    hide TooLong;
  }

  lemma OnlyTooLongLater(show: int -> string, first: nat, start: int, end: int, maxBytes: nat, k: Kind,
                         rows: seq<Row>, keep: seq<bool>, last: nat, later: nat)
    requires OnlyTooLong(show, first, start, end, maxBytes, k, rows, keep, last) && last <= later
    ensures OnlyTooLong(show, first, start, end, maxBytes, k, rows, keep, later)
  {
    hide NeverFits;
    forall i | 0 <= i < |rows| && !keep[i] ensures NeverFits(show, first, start, end, maxBytes, k, rows[i], later) {
      NeverFitsLater(show, first, start, end, maxBytes, k, rows[i], last, later);
    }
  }

  lemma OnlyTooLongNext(show: int -> string, first: nat, start: int, end: int, maxBytes: nat, k: Kind,
                        rows: seq<Row>, keep: seq<bool>, last: nat, later: nat, i: nat, added: bool)
    requires i < |rows| && OnlyTooLong(show, first, start, end, maxBytes, k, rows[..i], keep, last)
    requires first <= last <= later
    requires !added ==> TooLong(show, later, start, end, maxBytes, k, rows[i])
    ensures OnlyTooLong(show, first, start, end, maxBytes, k, rows[..i + 1], keep + [added], later)
  {
    OnlyTooLongLater(show, first, start, end, maxBytes, k, rows[..i], keep, last, later);
    assert !added ==> NeverFits(show, first, start, end, maxBytes, k, rows[i], later);
    assert rows[..i + 1] == rows[..i] + [rows[i]];
    hide NeverFits, TooLong;
  }

  /** The first i rows of a kind have been placed or dropped, those dropped for their length only. */
  ghost predicate RowsAdded(show: int -> string, first: nat, start: int, end: int, maxBytes: nat, k: Kind,
                            rows: seq<Row>, i: nat, before: seq<Row>, placed: seq<Row>, keep: seq<bool>, dropped: nat,
                            last: nat)
  {
    && i <= |rows| && first <= last
    && IsKept(before, placed, rows[..i], keep, dropped)
    && OnlyTooLong(show, first, start, end, maxBytes, k, rows[..i], keep, last)
  }

  lemma NoRowsAdded(show: int -> string, first: nat, start: int, end: int, maxBytes: nat, k: Kind, rows: seq<Row>,
                    placed: seq<Row>, last: nat)
    requires first <= last
    ensures RowsAdded(show, first, start, end, maxBytes, k, rows, 0, placed, placed, [], 0, last)
  {
    assert rows[..0] == [] && placed + [] == placed;
  }

  lemma RowsAddedNext(show: int -> string, first: nat, start: int, end: int, maxBytes: nat, k: Kind, rows: seq<Row>,
                      i: nat, before: seq<Row>, placed: seq<Row>, keep: seq<bool>, dropped: nat, last: nat,
                      later: nat, added: bool)
    requires RowsAdded(show, first, start, end, maxBytes, k, rows, i, before, placed, keep, dropped, last)
    requires i < |rows| && last <= later && (!added ==> TooLong(show, later, start, end, maxBytes, k, rows[i]))
    ensures RowsAdded(show, first, start, end, maxBytes, k, rows, i + 1, before,
                      if added then placed + [rows[i]] else placed, keep + [added],
                      if added then dropped else dropped + 1, later)
  {
    KeptNext(before, placed, rows, keep, dropped, i, added);
    OnlyTooLongNext(show, first, start, end, maxBytes, k, rows, keep, last, later, i, added);
    hide IsKept, OnlyTooLong, TooLong;
  }

  lemma AllRowsAdded(show: int -> string, first: nat, start: int, end: int, maxBytes: nat, k: Kind, rows: seq<Row>,
                     before: seq<Row>, placed: seq<Row>, keep: seq<bool>, dropped: nat, last: nat)
    requires RowsAdded(show, first, start, end, maxBytes, k, rows, |rows|, before, placed, keep, dropped, last)
    ensures IsKept(before, placed, rows, keep, dropped)
    ensures OnlyTooLong(show, first, start, end, maxBytes, k, rows, keep, last)
  {
    assert rows[..|rows|] == rows;
    hide IsKept, OnlyTooLong;
  }

  class Splitter {
    const show: int -> string
    const first: nat
    const start: int
    const end: int
    const maxBytes: nat
    const maxRows: nat
    var frames: seq<Frame>
    var jsons: seq<string>
    var current: Frame
    var currentBytes: nat

    ghost predicate Valid()
      reads this
    {
      && ShortNumbers(show) && maxBytes >= 1024 && maxRows >= 1
      && Finished(show, frames, jsons, first, start, end, maxBytes, maxRows)
      && Fits(show, current, FrameText(show, current), first + |frames|, start, end, maxBytes, maxRows)
      && currentBytes == |FrameText(show, current)|
    }

    /** The rows of a kind that have been placed. */
    ghost function Placed(k: Kind): seq<Row>
      reads this
    {
      RowsIncluding(frames, current, k)
    }

    /** The frames so far were closed only for want of room. */
    ghost predicate Filled()
      reads this
    {
      WellFilled(show, frames + [current], maxBytes, maxRows)
    }

    constructor (show: int -> string, first: nat, start: int, end: int, maxBytes: nat, maxRows: nat)
      requires ShortNumbers(show) && maxBytes >= 1024 && maxRows >= 1
      ensures Filled()
      ensures Valid() && frames == [] && forall k :: Placed(k) == []
      ensures this.show == show && this.first == first && this.start == start && this.end == end
      ensures this.maxBytes == maxBytes && this.maxRows == maxRows
    {
      this.show, this.first, this.start, this.end := show, first, start, end;
      this.maxBytes, this.maxRows := maxBytes, maxRows;
      frames, jsons, current := [], [], EmptyFrame(first, start, end);
      currentBytes := |FrameText(show, EmptyFrame(first, start, end))|;
      EmptyFits(show, first, start, end, maxBytes, maxRows);
      hide FrameText, Fits, EmptyFrame;
    }

    /** finishCurrent; `oversized` stands for its error, which cannot happen. */
    method FinishCurrent() returns (oversized: bool)
      requires Valid()
      modifies this
      ensures Valid() && !oversized
      ensures frames == old(frames) + [old(current)] && current == EmptyFrame(first + |frames|, start, end)
    {
      FitsLength(show, current, first + |frames|, start, end, maxBytes, maxRows);
      hide FrameText, Fits, Finished, RowsOf, RowCount, EmptyFrame, ShortNumbers, RowsIncluding;
      var json := FrameText(show, current);
      oversized := |json| > maxBytes;
      if !oversized {
        FinishedAppend(show, frames, jsons, first, start, end, maxBytes, maxRows, current, json);
        frames, jsons := frames + [current], jsons + [json];
        EmptyFits(show, first + |frames|, start, end, maxBytes, maxRows);
        current := EmptyFrame(first + |frames|, start, end);
        currentBytes := |FrameText(show, current)|;
      }
    }

    method TryAddRow(k: Kind, row: Row) returns (added: bool)
      requires Valid()
      modifies this`current, this`currentBytes
      ensures Valid()
      ensures added <==> HasRoom(show, old(current), maxBytes, maxRows, k, row)
      ensures current == if added then Push(old(current), k, row) else old(current)
    {
      hide FrameText, RowCount, Push, AddedBytes, Finished, ShortNumbers, RowsOf, RowsIncluding, Fits, WithRow;
      var addedBytes := AddedBytes(current, k, |row|);
      PushLength(show, current, k, row);
      added := !(currentBytes + addedBytes > maxBytes || RowCount(current) >= maxRows);
      if added {
        PushFits(show, current, first + |frames|, start, end, maxBytes, maxRows, k, row);
        current := Push(current, k, row);
        currentBytes := currentBytes + addedBytes;
      }
    }

    /** addRow: into the current frame, else into a new one; false means that the row is too long for any frame. */
    method AddRow(k: Kind, row: Row) returns (added: bool)
      requires Valid() && Filled()
      modifies this
      ensures Valid() && Filled()
      ensures |old(frames)| <= |frames|
      ensures NoneEmpty(old(frames)) ==> NoneEmpty(frames)
      ensures forall j :: Placed(j) == if added then WithRow(old(Placed(j)), k, row, j) else old(Placed(j))
      ensures !added ==>
        current == EmptyFrame(first + |frames|, start, end)
          && TooLong(show, first + |frames|, start, end, maxBytes, k, row)
    {
      hide NoneEmpty, FrameText, Push, RowsOf, EmptyFrame, WithRow, Fits, Finished, ShortNumbers, RowsIncluding,
        AddedBytes, RowCount, WellFilled, ClosedFor;
      PlacedPush(frames, current, k, row);
      MoreInLast(show, frames, current, maxBytes, maxRows, k, row);
      added := TryAddRow(k, row);
      if !added && RowCount(current) == 0 {
        NoRows(show, current, first + |frames|, start, end, maxBytes, maxRows);
      }
      if !added && RowCount(current) > 0 {
        PlacedFinish(frames, current, first + |frames| + 1, start, end);
        if NoneEmpty(frames) { NoneEmptyAppend(frames, current); }
        ghost var before, closed := frames, current;
        var oversized := FinishCurrent();
        PlacedPush(frames, current, k, row);
        EmptyFits(show, first + |frames|, start, end, maxBytes, maxRows);
        added := TryAddRow(k, row);
        ClosedByRow(show, closed, first + |frames|, start, end, maxBytes, maxRows, k, row, added);
        FillNext(show, before, closed, current, maxBytes, maxRows);
      }
    }

    /** The rows of one kind, one at a time; `keep` says which were placed. */
    method AddRows(k: Kind, rows: seq<Row>) returns (dropped: nat, ghost keep: seq<bool>)
      requires Valid() && Filled()
      modifies this
      ensures Valid() && Filled()
      ensures |old(frames)| <= |frames|
      ensures NoneEmpty(old(frames)) ==> NoneEmpty(frames)
      ensures IsKept(old(Placed(k)), Placed(k), rows, keep, dropped)
      ensures forall j :: j != k ==> Placed(j) == old(Placed(j))
      ensures OnlyTooLong(show, first, start, end, maxBytes, k, rows, keep, first + |frames|)
    {
      hide FrameText, Push, RowsOf, EmptyFrame, Fits, Finished, ShortNumbers, RowsIncluding, RowCount, NoneEmpty,
        IsKept, OnlyTooLong, TooLong, NeverFits, RowsAdded, WellFilled;
      dropped, keep := 0, [];
      NoRowsAdded(show, first, start, end, maxBytes, k, rows, Placed(k), first + |frames|);
      for i := 0 to |rows|
        invariant Valid() && Filled()
        invariant |old(frames)| <= |frames|
        invariant NoneEmpty(old(frames)) ==> NoneEmpty(frames)
        invariant forall j :: j != k ==> Placed(j) == old(Placed(j))
        invariant RowsAdded(show, first, start, end, maxBytes, k, rows, i, old(Placed(k)), Placed(k), keep, dropped,
                            first + |frames|)
      {
        ghost var placed, last := Placed(k), first + |frames|;
        var added := AddRow(k, rows[i]);
        RowsAddedNext(show, first, start, end, maxBytes, k, rows, i, old(Placed(k)), placed, keep, dropped, last,
                      first + |frames|, added);
        if !added { dropped := dropped + 1; }
        keep := keep + [added];
      }
      AllRowsAdded(show, first, start, end, maxBytes, k, rows, old(Placed(k)), Placed(k), keep, dropped,
                   first + |frames|);
    }
  }

  datatype SplitResult = SplitResult(frames: seq<Frame>, jsons: seq<string>, dropped: map<Kind, nat>)

  function Position(k: Kind): (i: nat)
    ensures i < |KINDS| && KINDS[i] == k
  {
    match k
    case Counters => 0
    case Gauges => 1
    case Histograms => 2
    case Distincts => 3
    case Events => 4
    case Logs => 5
  }

  lemma Positions(i: nat)
    requires i < |KINDS|
    ensures Position(KINDS[i]) == i
  {
  }

  function Count(dropped: map<Kind, nat>, k: Kind): nat { if k in dropped then dropped[k] else 0 }

  /** Object.values(dropped).reduce(...) */
  function Total(dropped: map<Kind, nat>): nat {
    Count(dropped, Counters) + Count(dropped, Gauges) + Count(dropped, Histograms) +
    Count(dropped, Distincts) + Count(dropped, Events) + Count(dropped, Logs)
  }

  function Flags(keep: map<Kind, seq<bool>>, k: Kind): seq<bool> { if k in keep then keep[k] else [] }

  function Extra(show: int -> string, total: nat, k: Kind): seq<Row> {
    if k == Counters && total > 0 then [DropRow(show, total)] else []
  }

  /** The frames hold exactly the rows kept of one kind, then the drop counter if there were drops. */
  ghost predicate Conserves(show: int -> string, input: Frame, r: SplitResult, k: Kind, keep: seq<bool>) {
    && |keep| == |RowsOf(input, k)|
    && RowsIn(r.frames, k) == Select(RowsOf(input, k), keep) + Extra(show, Total(r.dropped), k)
    && Count(r.dropped, k) == |RowsOf(input, k)| - |Select(RowsOf(input, k), keep)|
  }

  /**
   What splitting promises: every physical frame is within the limits and consecutively numbered, no frame
   but an only one is empty, none is closed while there is room for the next row, the rows of each kind are kept in
   order, and kept plus dropped is the input.
   */
  ghost predicate IsSplit(show: int -> string, input: Frame, maxBytes: nat, maxRows: nat, r: SplitResult,
                          keep: map<Kind, seq<bool>>)
  {
    && r.frames != []
    && Finished(show, r.frames, r.jsons, input.number, input.start, input.end, maxBytes, maxRows)
    && (NoneEmpty(r.frames) || |r.frames| == 1) && WellFilled(show, r.frames, maxBytes, maxRows)
    && (forall k :: Conserves(show, input, r, k, Flags(keep, k)))
    && (forall k :: OnlyTooLong(show, input.number, input.start, input.end, maxBytes, k,
                                RowsOf(input, k), Flags(keep, k), input.number + |r.frames|))
  }

  lemma DropRowFits(show: int -> string, number: nat, start: int, end: int, maxBytes: nat, n: nat)
    requires ShortNumbers(show) && maxBytes >= 1024
    ensures !TooLong(show, number, start, end, maxBytes, Counters, DropRow(show, n))
  {
    EmptyLength(show, number, start, end);
    DropRowLength(show, n);
    PushLength(show, EmptyFrame(number, start, end), Counters, DropRow(show, n));
    hide FrameText, DropRow, ShortNumbers;
  }

  /** The kinds before position m have been placed, the others not yet. */
  ghost predicate KindState(input: Frame, m: nat, k: Kind, placed: seq<Row>, keep: seq<bool>, dropped: nat) {
    if Position(k) < m then IsKept([], placed, RowsOf(input, k), keep, dropped) else placed == []
  }

  ghost predicate KindDrops(show: int -> string, input: Frame, maxBytes: nat, m: nat, k: Kind, keep: seq<bool>,
                            last: nat)
  {
    Position(k) < m ==>
      OnlyTooLong(show, input.number, input.start, input.end, maxBytes, k, RowsOf(input, k), keep, last)
  }

  lemma KindStateNext(input: Frame, m: nat, j: Kind, placed: seq<Row>, placed': seq<Row>,
                      keep: map<Kind, seq<bool>>, dropped: map<Kind, nat>, k: Kind, flags: seq<bool>, n: nat)
    requires m < |KINDS| && k == KINDS[m] && KindState(input, m, j, placed, Flags(keep, j), Count(dropped, j))
    requires j != k ==> placed' == placed
    requires j == k ==> IsKept(placed, placed', RowsOf(input, j), flags, n)
    ensures KindState(input, m + 1, j, placed', Flags(keep[k := flags], j), Count(dropped[k := n], j))
  {
    Positions(m);
    hide IsKept, RowsOf;
  }

  lemma KindDropsNext(show: int -> string, input: Frame, maxBytes: nat, m: nat, j: Kind,
                      keep: map<Kind, seq<bool>>, last: nat, k: Kind, flags: seq<bool>, later: nat)
    requires m < |KINDS| && k == KINDS[m] && KindDrops(show, input, maxBytes, m, j, Flags(keep, j), last)
    requires last <= later
    requires OnlyTooLong(show, input.number, input.start, input.end, maxBytes, k, RowsOf(input, k), flags, later)
    ensures KindDrops(show, input, maxBytes, m + 1, j, Flags(keep[k := flags], j), later)
  {
    Positions(m);
    if Position(j) < m {
      OnlyTooLongLater(show, input.number, input.start, input.end, maxBytes, j, RowsOf(input, j), Flags(keep, j),
                       last, later);
    }
    hide OnlyTooLong, RowsOf;
  }

  lemma NoFrames()
    ensures NoneEmpty([])
  {
  }

  lemma KindStart(show: int -> string, input: Frame, maxBytes: nat, k: Kind, keep: seq<bool>, dropped: nat, last: nat)
    ensures KindState(input, 0, k, [], keep, dropped) && KindDrops(show, input, maxBytes, 0, k, keep, last)
  {
  }

  lemma KindPending(input: Frame, m: nat, placed: seq<Row>, keep: seq<bool>, dropped: nat)
    requires m < |KINDS| && KindState(input, m, KINDS[m], placed, keep, dropped)
    ensures placed == []
  {
    Positions(m);
    hide IsKept;
  }

  /** The kinds one after the other into a fresh splitter. */
  method AddKinds(s: Splitter, input: Frame) returns (dropped: map<Kind, nat>, ghost keep: map<Kind, seq<bool>>)
    requires s.Valid() && s.Filled() && s.frames == [] && forall k :: s.Placed(k) == []
    requires s.first == input.number && s.start == input.start && s.end == input.end
    modifies s
    ensures s.Valid() && s.Filled() && NoneEmpty(s.frames)
    ensures forall k :: KindState(input, |KINDS|, k, s.Placed(k), Flags(keep, k), Count(dropped, k))
    ensures forall k :: KindDrops(s.show, input, s.maxBytes, |KINDS|, k, Flags(keep, k), s.first + |s.frames|)
  {
    hide *;
    NoFrames();
    dropped, keep := map[], map[];
    forall k ensures KindState(input, 0, k, s.Placed(k), Flags(keep, k), Count(dropped, k)) {
      KindStart(s.show, input, s.maxBytes, k, Flags(keep, k), Count(dropped, k), s.first + |s.frames|);
    }
    forall k ensures KindDrops(s.show, input, s.maxBytes, 0, k, Flags(keep, k), s.first + |s.frames|) {
      KindStart(s.show, input, s.maxBytes, k, Flags(keep, k), Count(dropped, k), s.first + |s.frames|);
    }
    for m := 0 to |KINDS|
      invariant s.Valid() && s.Filled() && NoneEmpty(s.frames)
      invariant forall k :: KindState(input, m, k, s.Placed(k), Flags(keep, k), Count(dropped, k))
      invariant forall k :: KindDrops(s.show, input, s.maxBytes, m, k, Flags(keep, k), s.first + |s.frames|)
    {
      label before:
      var k := KINDS[m];
      ghost var keep0, dropped0, last := keep, dropped, s.first + |s.frames|;
      KindPending(input, m, s.Placed(k), Flags(keep, k), Count(dropped, k));
      var n, flags := s.AddRows(k, RowsOf(input, k));
      dropped, keep := dropped[k := n], keep[k := flags];
      forall j ensures KindState(input, m + 1, j, s.Placed(j), Flags(keep, j), Count(dropped, j)) {
        KindStateNext(input, m, j, old@before(s.Placed(j)), s.Placed(j), keep0, dropped0, k, flags, n);
      }
      forall j ensures KindDrops(s.show, input, s.maxBytes, m + 1, j, Flags(keep, j), s.first + |s.frames|) {
        KindDropsNext(s.show, input, s.maxBytes, m, j, keep0, last, k, flags, s.first + |s.frames|);
      }
    }
  }

  lemma NothingElse(frames: seq<Frame>, f: Frame, k: Kind)
    requires RowCount(f) == 0
    ensures RowsIn(frames, k) == RowsIncluding(frames, f, k)
  {
    assert RowsOf(f, k) == [];
    hide RowsOf;
  }

  lemma FinishedRows(frames: seq<Frame>, f: Frame, k: Kind)
    ensures RowsIn(frames + [f], k) == RowsIncluding(frames, f, k)
  {
    RowsInAppend(frames, f, k);
  }

  lemma OnlyOne(frames: seq<Frame>, f: Frame)
    requires NoneEmpty(frames) && (frames == [] || RowCount(f) > 0)
    ensures NoneEmpty(frames + [f]) || |frames + [f]| == 1
  {
    if frames != [] { NoneEmptyAppend(frames, f); }
  }

  lemma DropRowPlaced(show: int -> string, total: nat, before: seq<Row>, after: seq<Row>, k: Kind)
    requires after == if total > 0 then WithRow(before, Counters, DropRow(show, total), k) else before
    ensures after == before + Extra(show, total, k)
  {
    hide DropRow;
  }

  /** The drop metric, when there were drops, and the last frame. */
  method Close(s: Splitter, total: nat) returns (oversized: bool, placed: bool)
    requires s.Valid() && s.Filled() && NoneEmpty(s.frames)
    modifies s
    ensures !oversized && placed
    ensures WellFilled(s.show, s.frames, s.maxBytes, s.maxRows)
    ensures s.Valid() && s.frames != [] && |old(s.frames)| <= |s.frames| && (NoneEmpty(s.frames) || |s.frames| == 1)
    ensures forall k :: RowsIn(s.frames, k) == old(s.Placed(k)) + Extra(s.show, total, k)
  {
    hide FrameText, RowsOf, EmptyFrame, WithRow, Fits, Finished, ShortNumbers, RowsIncluding, RowCount, NoneEmpty,
      RowsIn, Extra, DropRow, TooLong, WellFilled;
    oversized, placed := false, true;
    if total > 0 {
      placed := s.AddRow(Counters, DropRow(s.show, total));
      DropRowFits(s.show, s.first + |s.frames|, s.start, s.end, s.maxBytes, total);
    }
    FewerFilled(s.show, s.frames, s.current, s.maxBytes, s.maxRows);
    label counted:
    forall k ensures s.Placed(k) == old(s.Placed(k)) + Extra(s.show, total, k) {
      DropRowPlaced(s.show, total, old(s.Placed(k)), s.Placed(k), k);
    }
    if s.frames == [] || RowCount(s.current) > 0 {
      OnlyOne(s.frames, s.current);
      forall k ensures RowsIn(s.frames + [s.current], k) == s.Placed(k) { FinishedRows(s.frames, s.current, k); }
      oversized := s.FinishCurrent();
    } else {
      forall k ensures RowsIn(s.frames, k) == s.Placed(k) { NothingElse(s.frames, s.current, k); }
    }
  }

  datatype SplitError = FrameBytesTooSmall | FrameRowsTooSmall | OversizedFrame | NoRoomForDropMetric

  lemma AllKept(show: int -> string, input: Frame, r: SplitResult, k: Kind, keep: seq<bool>, placed: seq<Row>)
    requires KindState(input, |KINDS|, k, placed, keep, Count(r.dropped, k))
    requires RowsIn(r.frames, k) == placed + Extra(show, Total(r.dropped), k)
    ensures Conserves(show, input, r, k, keep)
  {
    hide RowsIn, RowsOf, Total, Count;
  }

  lemma AllDrops(show: int -> string, input: Frame, maxBytes: nat, k: Kind, keep: seq<bool>, last: nat, later: nat)
    requires KindDrops(show, input, maxBytes, |KINDS|, k, keep, last) && last <= later
    ensures OnlyTooLong(show, input.number, input.start, input.end, maxBytes, k, RowsOf(input, k), keep, later)
  {
    hide OnlyTooLong, RowsOf;
    OnlyTooLongLater(show, input.number, input.start, input.end, maxBytes, k, RowsOf(input, k), keep, last, later);
  }

  lemma AllTogether(show: int -> string, input: Frame, maxBytes: nat, maxRows: nat, r: SplitResult,
                    keep: map<Kind, seq<bool>>)
    requires r.frames != []
    requires Finished(show, r.frames, r.jsons, input.number, input.start, input.end, maxBytes, maxRows)
    requires (NoneEmpty(r.frames) || |r.frames| == 1) && WellFilled(show, r.frames, maxBytes, maxRows)
    requires forall k :: Conserves(show, input, r, k, Flags(keep, k))
    requires forall k :: OnlyTooLong(show, input.number, input.start, input.end, maxBytes, k,
                                     RowsOf(input, k), Flags(keep, k), input.number + |r.frames|)
    ensures IsSplit(show, input, maxBytes, maxRows, r, keep)
  {
    hide Finished, NoneEmpty, Conserves, OnlyTooLong, RowsOf, Flags, WellFilled;
  }

  /** splitToMaxBytes; the last two errors, which stand for its internal checks, never happen. */
  method SplitToMaxBytes(show: int -> string, input: Frame, maxBytes: nat, maxRows: nat)
    returns (result: Result<SplitResult, SplitError>, ghost keep: map<Kind, seq<bool>>)
    requires ShortNumbers(show)
    ensures match result
      case Err(e) => e == if maxBytes < 1024 then FrameBytesTooSmall else FrameRowsTooSmall
      case Ok(r) => IsSplit(show, input, maxBytes, maxRows, r, keep)
    ensures result.Ok? <==> maxBytes >= 1024 && maxRows >= 1
  {
    hide FrameText, RowsOf, EmptyFrame, Fits, Finished, ShortNumbers, RowsIncluding, RowCount, NoneEmpty, RowsIn,
      Extra, DropRow, TooLong;
    hide Conserves, OnlyTooLong, KindState, KindDrops, IsSplit, Total, Flags, Count, WellFilled;
    keep := map[];
    if maxBytes < 1024 { return Err(FrameBytesTooSmall), keep; }
    if maxRows < 1 { return Err(FrameRowsTooSmall), keep; }
    var s := new Splitter(show, input.number, input.start, input.end, maxBytes, maxRows);
    NoFrames();
    var dropped;
    dropped, keep := AddKinds(s, input);
    label counted:
    ghost var last := s.first + |s.frames|;
    var oversized, placed := Close(s, Total(dropped));
    var r := SplitResult(s.frames, s.jsons, dropped);
    forall k ensures Conserves(show, input, r, k, Flags(keep, k)) {
      AllKept(show, input, r, k, Flags(keep, k), old@counted(s.Placed(k)));
    }
    forall k ensures OnlyTooLong(show, input.number, input.start, input.end, maxBytes, k,
                                 RowsOf(input, k), Flags(keep, k), input.number + |r.frames|) {
      AllDrops(show, input, maxBytes, k, Flags(keep, k), last, input.number + |r.frames|);
    }
    AllTogether(show, input, maxBytes, maxRows, r, keep);
    result := if oversized then Err(OversizedFrame) else if !placed then Err(NoRoomForDropMetric) else Ok(r);
  }

  // What delivery assumes of the splitter

  /** The same frames with the names of their events instead of their rows. */
  function Named(frames: seq<Frame>, ids: seq<Delivery.EventId>): (named: seq<Delivery.Frame>)
    requires |ids| == |RowsIn(frames, Events)|
    ensures |named| == |frames|
  {
    if frames == [] then [] else
      var last := |frames| - 1;
      var before := |RowsIn(frames[..last], Events)|;
      Named(frames[..last], ids[..before]) + [Delivery.Frame(frames[last].number, ids[before..])]
  }

  lemma {:induction false} NamedEvents(frames: seq<Frame>, ids: seq<Delivery.EventId>)
    requires |ids| == |RowsIn(frames, Events)|
    ensures Delivery.EventsOf(Named(frames, ids)) == ids
  {
    if frames != [] {
      var last := |frames| - 1;
      var before := |RowsIn(frames[..last], Events)|;
      NamedEvents(frames[..last], ids[..before]);
      var f := Delivery.Frame(frames[last].number, ids[before..]);
      Delivery.EventsOfConcat(Named(frames[..last], ids[..before]), [f]);
      assert Delivery.EventsOf([f]) == f.events;
      assert ids == ids[..before] + ids[before..];
    }
  }

  lemma {:induction false} NamedNumbers(frames: seq<Frame>, ids: seq<Delivery.EventId>, i: nat)
    requires |ids| == |RowsIn(frames, Events)| && i < |frames|
    ensures Named(frames, ids)[i].number == frames[i].number
  {
    var last := |frames| - 1;
    if i < last {
      var before := |RowsIn(frames[..last], Events)|;
      NamedNumbers(frames[..last], ids[..before], i);
    }
  }

  lemma {:induction false} SelectSameLength<A, B>(a: seq<A>, b: seq<B>, keep: seq<bool>)
    requires |a| == |b| == |keep|
    ensures |Select(a, keep)| == |Select(b, keep)|
  {
    if a != [] { SelectSameLength(a[1..], b[1..], keep[1..]); }
  }

  /**
   Every split is one that the delivery model accepts: its frames carry the kept events in order, the rest is
   counted.
   */
  lemma SplitDelivers(show: int -> string, input: Frame, maxBytes: nat, maxRows: nat, r: SplitResult,
                      keep: map<Kind, seq<bool>>, ids: seq<Delivery.EventId>)
    requires IsSplit(show, input, maxBytes, maxRows, r, keep) && |ids| == |input.events|
    ensures |Flags(keep, Events)| == |ids| && |RowsIn(r.frames, Events)| == |Select(ids, Flags(keep, Events))|
    ensures Delivery.IsSplitOf(Delivery.Batch(Named(r.frames, Select(ids, Flags(keep, Events))),
                                              Count(r.dropped, Events)),
                               input.number, ids, Flags(keep, Events))
  {
    var flags := Flags(keep, Events);
    assert Conserves(show, input, r, Events, flags);
    SelectSameLength(input.events, ids, flags);
    var kept := Select(ids, flags);
    NamedEvents(r.frames, kept);
    var named := Named(r.frames, kept);
    forall i | 0 <= i < |named| ensures named[i].number == input.number + i {
      NamedNumbers(r.frames, kept, i);
      assert Fits(show, r.frames[i], r.jsons[i], input.number + i, input.start, input.end, maxBytes, maxRows);
    }
  }
}
