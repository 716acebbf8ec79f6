/**
 The Swift client's retained counters and distincts: pending values, at most one open flight, and a file that
 every change tries to rewrite. Writes may fail, acknowledgements may get lost, and the process may crash.
 */
module RetainedMetrics {
  import opened Wrappers
  import Sequences
  import opened MetricWindows

  datatype Key = Key(kind: Kind, name: string, dims: string)

  type Rows = map<Key, Summary>

  datatype File = File(pending: Rows, flight: Option<Rows>)

  /** The process and the file on disk. */
  datatype Device = Device(pending: Rows, flight: Option<Rows>, series: set<Key>, dirty: bool, file: Option<File>)

  /** What rows say about a series; nothing for a series they do not have. */
  function At(rows: Rows, k: Key): (s: Summary)
    ensures Fits(s, k.kind, [])
  {
    if k in rows && Fits(rows[k], k.kind, []) then rows[k] else Empty(k.kind, [])
  }

  function Sum(a: Summary, b: Summary, k: Key): (s: Summary)
    ensures Fits(s, k.kind, [])
  {
    if Fits(a, k.kind, []) && Fits(b, k.kind, []) then Merge(a, b, k.kind, []) else Empty(k.kind, [])
  }

  /** The rows of `a` with those of `b` added. */
  function Add(a: Rows, b: Rows): (r: Rows)
    ensures r.Keys == a.Keys + b.Keys
  {
    map k | k in a.Keys + b.Keys :: if k in b then Sum(At(a, k), At(b, k), k) else a[k]
  }

  lemma SumNothing(a: Summary, k: Key)
    requires Fits(a, k.kind, [])
    ensures Sum(a, Empty(k.kind, []), k) == a && Sum(Empty(k.kind, []), a, k) == a
  {
    MergeEmpty(a, k.kind, []);
  }

  lemma AddAt(a: Rows, b: Rows, k: Key)
    ensures At(Add(a, b), k) == Sum(At(a, k), At(b, k), k)
  {
    SumNothing(At(a, k), k);
    hide Sum;
  }

  /** The series that a snapshot writes out. */
  function Active(rows: Rows): (r: Rows)
    ensures r.Keys <= rows.Keys && forall k: Key :: At(r, k) == At(rows, k)
  {
    map k | k in rows && rows[k] != Empty(k.kind, []) :: rows[k]
  }

  function Opened(flight: Option<Rows>): Rows { if flight.Some? then flight.value else map[] }

  /** All the series of the file together are within the cap. */
  ghost predicate FileOk(file: Option<File>, maxSeries: nat) {
    file.Some? ==> |file.value.pending.Keys + Opened(file.value.flight).Keys| <= maxSeries
  }

  ghost predicate DeviceOk(d: Device, maxSeries: nat) {
    && d.pending.Keys + Opened(d.flight).Keys <= d.series && |d.series| <= maxSeries
    && FileOk(d.file, maxSeries)
  }

  // What each operation does; `writes` says whether writing the file succeeds.

  function Save(d: Device, writes: bool): Device {
    if writes then d.(dirty := false, file := Some(File(Active(d.pending), d.flight))) else d.(dirty := true)
  }

  function Record(d: Device, k: Key, p: Payload): Device
    requires Suits(p, k.kind)
  {
    d.(pending := d.pending[k := Sum(At(d.pending, k), Single(p, k.kind, []), k)], dirty := true)
  }

  /** A flight can begin when none is open and something is pending. */
  predicate CanBegin(d: Device) { d.flight.None? && Active(d.pending) != map[] }

  /** The pending values have moved into the flight. */
  function Departed(d: Device): Device { d.(flight := Some(Active(d.pending)), pending := map[]) }

  function BeginFlight(d: Device, writes: bool): Device {
    if CanBegin(d) then Save(Departed(d), writes) else d
  }

  function CommitFlight(d: Device, writes: bool): Device { Save(d.(flight := None), writes) }

  /** The flight is pending again. */
  function Returned(d: Device): Device { d.(pending := Add(d.pending, Opened(d.flight)), flight := None) }

  function AbortFlight(d: Device, writes: bool): Device { Save(Returned(d), writes) }

  /** A new process on the file that the old one left: an open flight is pending again. */
  function Loaded(file: File): Device {
    var rows := Add(Add(map[], file.pending), Opened(file.flight));
    Device(rows, None, rows.Keys, false, Some(file))
  }

  function Restart(file: Option<File>, writes: bool): Device {
    if file.None? then Device(map[], None, {}, false, None) else Save(Loaded(file.value), writes)
  }

  // The object

  class Retained {
    const maxSeries: nat
    var pending: Rows
    var flight: Option<Rows>
    var series: set<Key>
    var dirty: bool
    /** The file at the object's path. */
    var file: Option<File>

    ghost function State(): Device
      reads this
    {
      Device(pending, flight, series, dirty, file)
    }

    /** init and load; caps have not shrunk since the file was written, so every row is admitted. */
    constructor (maxSeries: nat, file: Option<File>, writes: bool)
      requires FileOk(file, maxSeries)
      ensures this.maxSeries == maxSeries
      ensures State() == Restart(file, writes) && DeviceOk(State(), maxSeries)
    {
      this.maxSeries := maxSeries;
      pending, flight, series, dirty, this.file := map[], None, {}, false, file;
      new;
      Load(writes);
    }

    /** load, in a process that has recorded nothing yet. */
    method Load(writes: bool)
      requires FileOk(file, maxSeries) && State() == Device(map[], None, {}, false, file)
      modifies this`pending, this`series, this`dirty, this`file
      ensures State() == Restart(old(file), writes) && DeviceOk(State(), maxSeries)
    {
      hide Active, Add, At;
      if file.None? { return; }
      var waiting, open := file.value.pending, Opened(file.value.flight);
      LoadFits(file.value, maxSeries);
      RestoreRows(waiting);
      RestoreRows(open);
      SaveOk(State(), writes, maxSeries);
      SaveState(writes);
    }

    /** admit: false means that the cap on retained series is reached. */
    method Admit(k: Key) returns (admitted: bool)
      modifies this`series
      ensures admitted <==> k in old(series) || |old(series)| < maxSeries
      ensures series == if admitted then old(series) + {k} else old(series)
      ensures |old(series)| <= maxSeries ==> |series| <= maxSeries
    {
      if k in series {
        assert series + {k} == series;
        return true;
      }
      if |series| >= maxSeries { return false; }
      series := series + {k};
      return true;
    }

    /** restore: nothing is dropped when all the series together are within the cap. */
    method RestoreRows(rows: Rows)
      requires |series + rows.Keys| <= maxSeries
      modifies this`pending, this`series
      ensures pending == Add(old(pending), rows) && series == old(series) + rows.Keys
    {
      hide *;
      var todo := rows.Keys;
      ghost var start, first, done: set<Key> := pending, series, {};
      NothingRestored(start, first, rows);
      while todo != {}
        invariant Restoring(start, first, pending, series, rows, todo, done)
        decreases |todo|
      {
        var k :| k in todo;
        RestoreOne(start, first, pending, series, rows, todo, done, k, maxSeries);
        var admitted := Admit(k);
        if admitted { pending := pending[k := Sum(At(pending, k), At(rows, k), k)]; }
        todo, done := todo - {k}, done + {k};
      }
      AllRestored(start, first, pending, series, rows, done);
    }

    method SaveState(writes: bool)
      modifies this`dirty, this`file
      ensures State() == Save(old(State()), writes)
    {
      dirty := false;
      if writes { file := Some(File(Active(pending), flight)); } else { dirty := true; }
    }

    /** counter or distinct: a handle to record with, unless the cap is reached. */
    method Handle(k: Key) returns (found: bool)
      requires DeviceOk(State(), maxSeries)
      modifies this`series
      ensures DeviceOk(State(), maxSeries) && State() == old(State()).(series := series)
      ensures found <==> k in old(series) || |old(series)| < maxSeries
      ensures series == if found then old(series) + {k} else old(series)
    {
      found := Admit(k);
    }

    method RecordValue(k: Key, p: Payload)
      requires DeviceOk(State(), maxSeries) && k in series && Suits(p, k.kind)
      modifies this`pending, this`dirty
      ensures DeviceOk(State(), maxSeries) && State() == Record(old(State()), k, p)
    {
      hide Sum, Single;
      pending, dirty := pending[k := Sum(At(pending, k), Single(p, k.kind, []), k)], true;
    }

    method SaveIfDirty(writes: bool)
      requires DeviceOk(State(), maxSeries)
      modifies this`dirty, this`file
      ensures DeviceOk(State(), maxSeries)
      ensures State() == if old(dirty) then Save(old(State()), writes) else old(State())
    {
      SaveOk(State(), writes, maxSeries);
      if dirty { SaveState(writes); }
    }

    method Begin(writes: bool) returns (snapshot: Option<Rows>)
      requires DeviceOk(State(), maxSeries)
      modifies this`pending, this`flight, this`dirty, this`file
      ensures DeviceOk(State(), maxSeries) && State() == BeginFlight(old(State()), writes)
      ensures snapshot == if CanBegin(old(State())) then flight else None
    {
      if flight.Some? || Active(pending) == map[] { return None; }
      SaveOk(Departed(State()), writes, maxSeries);
      flight, pending := Some(Active(pending)), map[];
      SaveState(writes);
      return flight;
    }

    method Commit(writes: bool)
      requires DeviceOk(State(), maxSeries) && flight.Some?
      modifies this`flight, this`dirty, this`file
      ensures DeviceOk(State(), maxSeries) && State() == CommitFlight(old(State()), writes)
    {
      SaveOk(State().(flight := None), writes, maxSeries);
      flight := None;
      SaveState(writes);
    }

    method Abort(writes: bool)
      requires DeviceOk(State(), maxSeries) && flight.Some?
      modifies this`pending, this`series, this`flight, this`dirty, this`file
      ensures DeviceOk(State(), maxSeries) && State() == AbortFlight(old(State()), writes)
    {
      var open := flight.value;
      assert series + open.Keys == series;
      hide Add;
      RestoreRows(open);
      flight := None;
      SaveOk(State(), writes, maxSeries);
      SaveState(writes);
    }
  }

  lemma LoadFits(file: File, maxSeries: nat)
    requires FileOk(Some(file), maxSeries)
    ensures var a, b := file.pending.Keys, Opened(file.flight).Keys;
      |{} + a| <= maxSeries && |{} + a + b| <= maxSeries && {} + a + b == Loaded(file).series
  {
    var a, b := file.pending.Keys, Opened(file.flight).Keys;
    Sequences.SubsetSize(a, a + b);
    assert {} + a == a;
  }

  lemma SaveOk(d: Device, writes: bool, maxSeries: nat)
    requires DeviceOk(d, maxSeries)
    ensures DeviceOk(Save(d, writes), maxSeries)
  {
    Sequences.SubsetSize(Active(d.pending).Keys + Opened(d.flight).Keys, d.series);
    hide Active;
  }

  lemma MoveOne(first: set<Key>, todo: set<Key>, done: set<Key>, all: set<Key>, k: Key)
    requires todo + done == all && todo !! done && k in todo
    ensures (todo - {k}) + (done + {k}) == all && (todo - {k}) !! (done + {k}) && k !in done && k in all
    ensures first + done <= first + all && first + (done + {k}) == first + done + {k} && k in first + all
  {
  }

  lemma RoomFor(series: set<Key>, all: set<Key>, k: Key)
    requires series <= all && k in all
    ensures k in series || |series| < |all|
  {
    if k !in series { Sequences.SubsetSize(series + {k}, all); }
  }

  /** The rows with keys in `done` have been restored on top of `start`. */
  ghost predicate IsRestored(start: Rows, pending: Rows, rows: Rows, done: set<Key>) {
    && done <= rows.Keys
    && pending.Keys == start.Keys + done
    && forall k :: k in pending ==> pending[k] == if k in done then Sum(At(start, k), At(rows, k), k) else start[k]
  }

  /** Restoring has come to the rows in `done`, and all of these have been admitted. */
  ghost predicate Restoring(start: Rows, first: set<Key>, pending: Rows, series: set<Key>, rows: Rows, todo: set<Key>,
                            done: set<Key>)
  {
    && todo + done == rows.Keys && todo !! done
    && series == first + done && IsRestored(start, pending, rows, done)
  }

  lemma NothingRestored(start: Rows, first: set<Key>, rows: Rows)
    ensures Restoring(start, first, start, first, rows, rows.Keys, {})
  {
  }

  lemma SameAt(a: Rows, b: Rows, k: Key)
    requires (k in a <==> k in b) && (k in a ==> a[k] == b[k])
    ensures At(a, k) == At(b, k)
  {
  }

  lemma RestoreRow(start: Rows, pending: Rows, rows: Rows, done: set<Key>, k: Key)
    requires IsRestored(start, pending, rows, done) && k in rows && k !in done
    ensures IsRestored(start, pending[k := Sum(At(pending, k), At(rows, k), k)], rows, done + {k})
  {
    hide Sum, At;
    SameAt(start, pending, k);
  }

  /** There is room for the next row, and merging it restores one more. */
  lemma RestoreOne(start: Rows, first: set<Key>, pending: Rows, series: set<Key>, rows: Rows, todo: set<Key>,
                   done: set<Key>, k: Key, max: nat)
    requires Restoring(start, first, pending, series, rows, todo, done) && k in todo && |first + rows.Keys| <= max
    ensures k in series || |series| < max
    ensures Restoring(start, first, pending[k := Sum(At(pending, k), At(rows, k), k)], series + {k}, rows, todo - {k},
                      done + {k})
  {
    hide IsRestored, Sum, At;
    MoveOne(first, todo, done, rows.Keys, k);
    RoomFor(series, first + rows.Keys, k);
    RestoreRow(start, pending, rows, done, k);
  }

  lemma AllRestored(start: Rows, first: set<Key>, pending: Rows, series: set<Key>, rows: Rows, done: set<Key>)
    requires Restoring(start, first, pending, series, rows, {}, done)
    ensures pending == Add(start, rows) && series == first + rows.Keys
  {
    hide Sum, At;
    assert done == rows.Keys;
    assert pending.Keys == Add(start, rows).Keys;
  }
}
