/** Runs of the retained metrics: what was recorded, saved, acknowledged and lost. */
module RetainedDelivery {
  import opened Wrappers
  import opened MetricWindows
  import opened RetainedMetrics

  datatype Action =
    /** A handle for a series, if the cap allows. */
    | Handled(key: Key)
    | Recorded(key: Key, payload: Payload)
    | Saved(writes: bool)
    | Begun(writes: bool)
    /**
     The flight is settled. The rows in `kept` reached the server; a row that does not fit a frame and a
     permanently rejected flight do not.
     */
    | Committed(kept: set<Key>, writes: bool)
    | Aborted(writes: bool)
    /** The process ends at any moment and a new one loads the file. */
    | Crashed(writes: bool)

  /**
   The books. `total` is all that was recorded and not forgotten by a crash, `saved` is `total` as of the last
   successful write. A committed flight is `acked`, or `lost` where the server never got it. What is both
   acknowledged and still in the file is `doubled`; what has been so and was loaded again is `repeated`.
   */
  datatype Books = Books(total: Rows, saved: Rows, acked: Rows, lost: Rows, doubled: Rows, repeated: Rows)

  datatype World = World(device: Device, books: Books)

  ghost predicate Possible(w: World, a: Action) {
    match a
    case Recorded(k, p) => k in w.device.series && Suits(p, k.kind)
    case Committed(_, _) => w.device.flight.Some?
    case Aborted(_) => w.device.flight.Some?
    case _ => true
  }

  function Only(rows: Rows, keys: set<Key>): Rows { map k | k in rows && k in keys :: rows[k] }

  function Settle(b: Books, flight: Rows, kept: set<Key>): Books {
    b.(acked := Add(b.acked, Only(flight, kept)), lost := Add(b.lost, Only(flight, flight.Keys - kept)),
       doubled := Add(b.doubled, flight))
  }

  function Written(b: Books, writes: bool): Books {
    if writes then b.(saved := b.total, doubled := b.repeated) else b
  }

  /** What a crash leaves of the books: only what was saved, and what the file holds twice is repeated. */
  function Forgotten(b: Books): Books { b.(total := b.saved, repeated := b.doubled) }

  /** The file is rewritten, or not. */
  function WriteBoth(w: World, writes: bool): World { World(Save(w.device, writes), Written(w.books, writes)) }

  function Step(w: World, a: Action, max: nat): World
    requires Possible(w, a)
  {
    var d, b := w.device, w.books;
    match a
    case Handled(k) => World(d.(series := if k in d.series || |d.series| < max then d.series + {k} else d.series), b)
    case Recorded(k, p) => World(Record(d, k, p), b.(total := Add(b.total, map[k := Single(p, k.kind, [])])))
    case Saved(writes) => if d.dirty then WriteBoth(w, writes) else w
    case Begun(writes) => if CanBegin(d) then WriteBoth(World(Departed(d), b), writes) else w
    case Committed(kept, writes) => WriteBoth(World(d.(flight := None), Settle(b, Opened(d.flight), kept)), writes)
    case Aborted(writes) => WriteBoth(World(Returned(d), b), writes)
    case Crashed(writes) =>
      if d.file.Some? then WriteBoth(World(Loaded(d.file.value), Forgotten(b)), writes)
      else World(Device(map[], None, {}, false, None), Forgotten(b))
  }

  const START := World(Device(map[], None, {}, false, None), Books(map[], map[], map[], map[], map[], map[]))

  // The balance of every series

  function InMemory(d: Device, k: Key): (s: Summary)
    ensures Fits(s, k.kind, [])
  {
    Sum(At(d.pending, k), At(Opened(d.flight), k), k)
  }

  function InFile(file: Option<File>, k: Key): (s: Summary)
    ensures Fits(s, k.kind, [])
  {
    if file.None? then Empty(k.kind, [])
    else Sum(At(file.value.pending, k), At(Opened(file.value.flight), k), k)
  }

  /** Settled and held together are the recorded amount plus what is counted twice. */
  ghost predicate Balanced(acked: Summary, lost: Summary, held: Summary, recorded: Summary, twice: Summary, k: Key) {
    Sum(Sum(acked, lost, k), held, k) == Sum(recorded, twice, k)
  }

  ghost predicate MemoryBalanced(b: Books, held: Summary, k: Key) {
    Balanced(At(b.acked, k), At(b.lost, k), held, At(b.total, k), At(b.repeated, k), k)
  }

  ghost predicate FileBalanced(b: Books, held: Summary, k: Key) {
    Balanced(At(b.acked, k), At(b.lost, k), held, At(b.saved, k), At(b.doubled, k), k)
  }

  ghost predicate BothBalanced(w: World, k: Key) {
    && MemoryBalanced(w.books, InMemory(w.device, k), k)
    && FileBalanced(w.books, InFile(w.device.file, k), k)
  }

  // Algebra

  lemma SumCommutes(a: Summary, b: Summary, k: Key)
    requires Fits(a, k.kind, []) && Fits(b, k.kind, [])
    ensures Sum(a, b, k) == Sum(b, a, k)
  {
    MergeCommutes(a, b, k.kind, []);
  }

  lemma SumAssociates(a: Summary, b: Summary, c: Summary, k: Key)
    requires Fits(a, k.kind, []) && Fits(b, k.kind, []) && Fits(c, k.kind, [])
    ensures Sum(Sum(a, b, k), c, k) == Sum(a, Sum(b, c, k), k)
  {
    MergeAssociates(a, b, c, k.kind, []);
  }

  /** Recording adds to what is held and to what is recorded. */
  lemma BalanceRecord(acked: Summary, lost: Summary, held: Summary, recorded: Summary, twice: Summary, k: Key,
                      x: Summary)
    requires Fits(recorded, k.kind, []) && Fits(twice, k.kind, []) && Fits(held, k.kind, []) && Fits(x, k.kind, [])
    requires Balanced(acked, lost, held, recorded, twice, k)
    ensures Balanced(acked, lost, Sum(held, x, k), Sum(recorded, x, k), twice, k)
  {
    var settled := Sum(acked, lost, k);
    hide Sum, Fits;
    SumAssociates(settled, held, x, k);
    SumAssociates(recorded, twice, x, k);
    SumAssociates(recorded, x, twice, k);
    SumCommutes(twice, x, k);
  }

  /** A flight that is settled moves from what is held to acknowledged or lost. */
  lemma BalanceSettle(acked: Summary, lost: Summary, pending: Summary, kept: Summary, dropped: Summary, flight: Summary,
                      recorded: Summary, twice: Summary, k: Key)
    requires Fits(pending, k.kind, []) && Fits(kept, k.kind, []) && Fits(dropped, k.kind, [])
    requires Fits(flight, k.kind, [])
    requires Fits(acked, k.kind, []) && Fits(lost, k.kind, [])
    requires flight == Sum(kept, dropped, k)
    requires Balanced(acked, lost, Sum(pending, flight, k), recorded, twice, k)
    ensures Balanced(Sum(acked, kept, k), Sum(lost, dropped, k), pending, recorded, twice, k)
  {
    Regroup(acked, lost, kept, dropped, k);
    var settled := Sum(acked, lost, k);
    hide Sum, Fits;
    SumCommutes(pending, flight, k);
    SumAssociates(settled, flight, pending, k);
  }

  /** While the file still has the settled flight, it counts twice. */
  lemma BalanceDouble(acked: Summary, lost: Summary, held: Summary, kept: Summary, dropped: Summary, flight: Summary,
                      recorded: Summary, twice: Summary, k: Key)
    requires Fits(kept, k.kind, []) && Fits(dropped, k.kind, []) && Fits(flight, k.kind, [])
    requires Fits(acked, k.kind, []) && Fits(lost, k.kind, []) && Fits(held, k.kind, [])
    requires Fits(recorded, k.kind, []) && Fits(twice, k.kind, [])
    requires flight == Sum(kept, dropped, k)
    requires Balanced(acked, lost, held, recorded, twice, k)
    ensures Balanced(Sum(acked, kept, k), Sum(lost, dropped, k), held, recorded, Sum(twice, flight, k), k)
  {
    Regroup(acked, lost, kept, dropped, k);
    var settled := Sum(acked, lost, k);
    hide Sum, Fits;
    SumAssociates(settled, flight, held, k);
    SumCommutes(flight, held, k);
    SumAssociates(settled, held, flight, k);
    SumAssociates(recorded, twice, flight, k);
  }

  lemma Regroup(a: Summary, b: Summary, c: Summary, d: Summary, k: Key)
    requires Fits(a, k.kind, []) && Fits(b, k.kind, []) && Fits(c, k.kind, []) && Fits(d, k.kind, [])
    ensures Sum(Sum(a, c, k), Sum(b, d, k), k) == Sum(Sum(a, b, k), Sum(c, d, k), k)
  {
    hide Sum, Fits;
    SumAssociates(a, c, Sum(b, d, k), k);
    SumAssociates(c, b, d, k);
    SumCommutes(c, b, k);
    SumAssociates(b, c, d, k);
    SumAssociates(a, b, Sum(c, d, k), k);
  }

  // One action, one series

  lemma SavedInFile(d: Device, k: Key)
    ensures InFile(Save(d, true).file, k) == InMemory(d, k)
    ensures InMemory(Save(d, true), k) == InMemory(d, k) && InMemory(Save(d, false), k) == InMemory(d, k)
    ensures Save(d, false).file == d.file
  {
    hide Sum, Active, At;
  }

  lemma RecordInMemory(d: Device, k0: Key, p: Payload, k: Key)
    requires Suits(p, k0.kind)
    ensures InMemory(Record(d, k0, p), k) == Sum(InMemory(d, k), At(map[k0 := Single(p, k0.kind, [])], k), k)
  {
    var row := map[k0 := Single(p, k0.kind, [])];
    RecordAt(d, k0, p, k);
    hide *;
    MoveLast(At(d.pending, k), At(row, k), At(Opened(d.flight), k), k);
    InMemoryIs(Record(d, k0, p), k);
    InMemoryIs(d, k);
    RecordKeepsFlight(d, k0, p);
  }

  lemma InMemoryIs(d: Device, k: Key)
    ensures InMemory(d, k) == Sum(At(d.pending, k), At(Opened(d.flight), k), k)
  {
  }

  lemma RecordKeepsFlight(d: Device, k0: Key, p: Payload)
    requires Suits(p, k0.kind)
    ensures Record(d, k0, p).flight == d.flight && Record(d, k0, p).file == d.file
    ensures Record(d, k0, p).series == d.series
    ensures Record(d, k0, p).pending.Keys == d.pending.Keys + {k0}
  {
  }

  lemma RecordAt(d: Device, k0: Key, p: Payload, k: Key)
    requires Suits(p, k0.kind)
    ensures At(Record(d, k0, p).pending, k) == Sum(At(d.pending, k), At(map[k0 := Single(p, k0.kind, [])], k), k)
  {
    hide Sum, Single, Empty;
    var row := map[k0 := Single(p, k0.kind, [])];
    if k != k0 {
      SumNothing(At(d.pending, k), k);
      assert At(row, k) == Empty(k.kind, []);
    } else {
      assert At(row, k) == Single(p, k0.kind, []);
    }
  }

  lemma MoveLast(a: Summary, x: Summary, f: Summary, k: Key)
    requires Fits(a, k.kind, []) && Fits(x, k.kind, []) && Fits(f, k.kind, [])
    ensures Sum(Sum(a, x, k), f, k) == Sum(Sum(a, f, k), x, k)
  {
    hide Sum, Fits;
    SumAssociates(a, x, f, k);
    SumCommutes(x, f, k);
    SumAssociates(a, f, x, k);
  }

  lemma DepartedInMemory(d: Device, k: Key)
    requires d.flight.None?
    ensures InMemory(Departed(d), k) == InMemory(d, k)
  {
    SumCommutes(At(d.pending, k), Empty(k.kind, []), k);
    hide Sum, Active;
  }

  lemma NothingAt(k: Key)
    ensures At(map[], k) == Empty(k.kind, [])
  {
  }

  lemma ReturnedInMemory(d: Device, k: Key)
    ensures InMemory(Returned(d), k) == InMemory(d, k)
  {
    hide Sum, Add, At;
    AddAt(d.pending, Opened(d.flight), k);
    SumNothing(InMemory(d, k), k);
    NothingAt(k);
  }

  lemma LoadedInMemory(file: File, k: Key)
    ensures InMemory(Loaded(file), k) == InFile(Some(file), k)
  {
    AddAt(map[], file.pending, k);
    AddAt(Add(map[], file.pending), Opened(file.flight), k);
    SumNothing(At(file.pending, k), k);
    SumNothing(InFile(Some(file), k), k);
    hide Sum, Add;
  }

  lemma SplitFlight(flight: Rows, kept: set<Key>, k: Key)
    ensures At(flight, k) == Sum(At(Only(flight, kept), k), At(Only(flight, flight.Keys - kept), k), k)
  {
    SumNothing(At(flight, k), k);
    hide Sum;
  }

  lemma SettleAt(b: Books, flight: Rows, kept: set<Key>, k: Key)
    ensures var s := Settle(b, flight, kept);
      && s.total == b.total && s.saved == b.saved && s.repeated == b.repeated
      && At(s.acked, k) == Sum(At(b.acked, k), At(Only(flight, kept), k), k)
      && At(s.lost, k) == Sum(At(b.lost, k), At(Only(flight, flight.Keys - kept), k), k)
      && At(s.doubled, k) == Sum(At(b.doubled, k), At(flight, k), k)
  {
    AddAt(b.acked, Only(flight, kept), k);
    AddAt(b.lost, Only(flight, flight.Keys - kept), k);
    AddAt(b.doubled, flight, k);
    hide Add, Sum, Only, At;
  }

  // Every action keeps the balance

  /** A write that succeeds copies the balance of the memory to the file; one that fails changes nothing. */
  lemma WriteBalances(w: World, writes: bool, k: Key)
    requires BothBalanced(w, k)
    ensures BothBalanced(WriteBoth(w, writes), k)
  {
    SavedInFile(w.device, k);
    hide Balanced, InMemory, InFile, Save, At;
  }

  /** The world after an amount has been recorded. */
  function AfterRecord(w: World, k0: Key, p: Payload): World
    requires Suits(p, k0.kind)
  {
    World(Record(w.device, k0, p), w.books.(total := Add(w.books.total, map[k0 := Single(p, k0.kind, [])])))
  }

  lemma RecordBalances(w: World, k0: Key, p: Payload, k: Key)
    requires Suits(p, k0.kind) && BothBalanced(w, k)
    ensures BothBalanced(AfterRecord(w, k0, p), k)
  {
    hide Sum, Single, InMemory, InFile, Record, Add, At, Suits, Active, Fits, Empty, Balanced;
    var x, b := map[k0 := Single(p, k0.kind, [])], w.books;
    RecordInMemory(w.device, k0, p, k);
    RecordKeepsFlight(w.device, k0, p);
    AddAt(b.total, x, k);
    assert MemoryBalanced(b, InMemory(w.device, k), k);
    BalanceRecord(At(b.acked, k), At(b.lost, k), InMemory(w.device, k), At(b.total, k), At(b.repeated, k), k, At(x, k));
  }

  lemma BeginBalances(w: World, k: Key)
    requires w.device.flight.None? && BothBalanced(w, k)
    ensures BothBalanced(World(Departed(w.device), w.books), k)
  {
    DepartedInMemory(w.device, k);
    hide Balanced, InMemory, InFile, At;
  }

  lemma AbortBalances(w: World, k: Key)
    requires BothBalanced(w, k)
    ensures BothBalanced(World(Returned(w.device), w.books), k)
  {
    ReturnedInMemory(w.device, k);
    hide Balanced, InMemory, InFile, At, Add;
  }

  /** The world once the flight is settled, before the file is rewritten. */
  function AfterSettle(w: World, kept: set<Key>): World {
    World(w.device.(flight := None), Settle(w.books, Opened(w.device.flight), kept))
  }

  lemma CommitBalancesMemory(w: World, kept: set<Key>, k: Key)
    requires MemoryBalanced(w.books, InMemory(w.device, k), k)
    ensures var v := AfterSettle(w, kept); MemoryBalanced(v.books, InMemory(v.device, k), k)
  {
    var d, b, f := w.device, w.books, Opened(w.device.flight);
    SettleAt(b, f, kept, k);
    SplitFlight(f, kept, k);
    PendingOnly(d, k);
    InMemoryIs(d, k);
    hide Sum, Balanced, Settle, Only, InMemory, At;
    var y, z := At(Only(f, kept), k), At(Only(f, f.Keys - kept), k);
    BalanceSettle(At(b.acked, k), At(b.lost, k), At(d.pending, k), y, z, At(f, k), At(b.total, k),
                  At(b.repeated, k), k);
  }

  lemma CommitBalancesFile(w: World, kept: set<Key>, k: Key)
    requires FileBalanced(w.books, InFile(w.device.file, k), k)
    ensures var v := AfterSettle(w, kept); FileBalanced(v.books, InFile(v.device.file, k), k)
  {
    var d, b, f := w.device, w.books, Opened(w.device.flight);
    SettleAt(b, f, kept, k);
    SplitFlight(f, kept, k);
    hide Sum, Balanced, Settle, Only, InFile, At;
    var y, z := At(Only(f, kept), k), At(Only(f, f.Keys - kept), k);
    BalanceDouble(At(b.acked, k), At(b.lost, k), InFile(d.file, k), y, z, At(f, k), At(b.saved, k),
                  At(b.doubled, k), k);
  }

  lemma PendingOnly(d: Device, k: Key)
    ensures InMemory(d.(flight := None), k) == At(d.pending, k)
  {
    SumNothing(At(d.pending, k), k);
    hide Sum;
  }

  lemma CommitBalances(w: World, kept: set<Key>, k: Key)
    requires BothBalanced(w, k)
    ensures BothBalanced(AfterSettle(w, kept), k)
  {
    CommitBalancesMemory(w, kept, k);
    CommitBalancesFile(w, kept, k);
    hide MemoryBalanced, FileBalanced, AfterSettle, InMemory, InFile;
  }

  lemma ReloadBalances(w: World, file: File, k: Key)
    requires BothBalanced(w, k) && w.device.file == Some(file)
    ensures BothBalanced(World(Loaded(file), Forgotten(w.books)), k)
  {
    LoadedInMemory(file, k);
    assert Loaded(file).file == Some(file);
    hide Balanced, InMemory, InFile, At, Loaded;
  }

  const BLANK := Device(map[], None, {}, false, None)

  lemma BlankBalances(w: World, k: Key)
    requires BothBalanced(w, k) && w.device.file.None?
    ensures BothBalanced(World(BLANK, Forgotten(w.books)), k)
  {
    SumNothing(Empty(k.kind, []), k);
    assert InMemory(BLANK, k) == InFile(None, k);
    hide Balanced, InMemory, InFile, At;
  }

  lemma HandleBalances(w: World, series: set<Key>, k: Key)
    requires BothBalanced(w, k)
    ensures BothBalanced(World(w.device.(series := series), w.books), k)
  {
    hide Balanced, At;
  }

  /** Every action keeps the balance of every series. */
  lemma StepBalances(w: World, a: Action, max: nat, k: Key)
    requires Possible(w, a) && BothBalanced(w, k)
    ensures BothBalanced(Step(w, a, max), k)
  {
    hide BothBalanced, WriteBoth, Departed, Returned, Loaded, Forgotten, Settle, Record, Add, Single;
    var d, b := w.device, w.books;
    match a
    case Handled(k0) => HandleBalances(w, Step(w, a, max).device.series, k);
    case Recorded(k0, p) => RecordBalances(w, k0, p, k);
    case Saved(writes) => WriteBalances(w, writes, k);
    case Begun(writes) =>
      if CanBegin(d) {
        BeginBalances(w, k);
        WriteBalances(World(Departed(d), b), writes, k);
      }
    case Committed(kept, writes) =>
      CommitBalances(w, kept, k);
      WriteBalances(AfterSettle(w, kept), writes, k);
    case Aborted(writes) =>
      AbortBalances(w, k);
      WriteBalances(World(Returned(d), b), writes, k);
    case Crashed(writes) =>
      if d.file.Some? {
        ReloadBalances(w, d.file.value, k);
        WriteBalances(World(Loaded(d.file.value), Forgotten(b)), writes, k);
      } else {
        BlankBalances(w, k);
      }
  }

  /** Every action keeps the series, and those of the file, within the cap: a restore never drops one. */
  lemma HandledFits(d: Device, k: Key, max: nat)
    requires DeviceOk(d, max)
    ensures DeviceOk(d.(series := if k in d.series || |d.series| < max then d.series + {k} else d.series), max)
  {
    if k in d.series { assert d.series + {k} == d.series; }
  }

  lemma RecordedFits(d: Device, k: Key, p: Payload, max: nat)
    requires DeviceOk(d, max) && k in d.series && Suits(p, k.kind)
    ensures DeviceOk(Record(d, k, p), max)
  {
    RecordKeepsFlight(d, k, p);
    hide Record;
  }

  lemma MovedFits(d: Device, max: nat)
    requires DeviceOk(d, max)
    ensures DeviceOk(Departed(d), max) || !CanBegin(d)
    ensures DeviceOk(d.(flight := None), max) && DeviceOk(Returned(d), max)
  {
    hide Sum;
  }

  lemma LoadedFits(file: File, max: nat)
    requires FileOk(Some(file), max)
    ensures DeviceOk(Loaded(file), max)
  {
    LoadFits(file, max);
    hide Sum, Add;
  }

  lemma StepFits(w: World, a: Action, max: nat)
    requires Possible(w, a) && DeviceOk(w.device, max)
    ensures DeviceOk(Step(w, a, max).device, max)
  {
    FileFits(w.device, max);
    hide Sum, Add, Single, Active, Settle, Save, DeviceOk, FileOk, Record, Departed, Returned, Loaded, CanBegin;
    var d := w.device;
    match a
    case Handled(k) => HandledFits(d, k, max);
    case Recorded(k, p) => RecordedFits(d, k, p, max);
    case Saved(writes) => SaveOk(d, writes, max);
    case Begun(writes) =>
      MovedFits(d, max);
      if CanBegin(d) { SaveOk(Departed(d), writes, max); }
    case Committed(kept, writes) =>
      MovedFits(d, max);
      SaveOk(d.(flight := None), writes, max);
    case Aborted(writes) =>
      MovedFits(d, max);
      SaveOk(Returned(d), writes, max);
    case Crashed(writes) =>
      if d.file.Some? {
        LoadedFits(d.file.value, max);
        SaveOk(Loaded(d.file.value), writes, max);
      } else {
        EmptyFits(max);
      }
  }

  lemma EmptyFits(max: nat)
    ensures DeviceOk(Device(map[], None, {}, false, None), max)
  {
  }

  lemma FileFits(d: Device, max: nat)
    requires DeviceOk(d, max)
    ensures FileOk(d.file, max)
  {
  }

  // Runs

  ghost predicate IsRun(run: seq<World>, actions: seq<Action>, max: nat) {
    && |run| == |actions| + 1 && run[0] == START
    && forall i :: 0 <= i < |actions| ==> Possible(run[i], actions[i]) && run[i + 1] == Step(run[i], actions[i], max)
  }

  lemma {:induction false} RunBalances(run: seq<World>, actions: seq<Action>, max: nat, i: nat, k: Key)
    requires IsRun(run, actions, max) && i < |run|
    ensures BothBalanced(run[i], k)
  {
    if i == 0 {
      SumNothing(Empty(k.kind, []), k);
    } else {
      RunBalances(run, actions, max, i - 1, k);
      hide BothBalanced, Step;
      StepBalances(run[i - 1], actions[i - 1], max, k);
    }
  }

  /** In every run all the series, and those of the file, stay within the cap. */
  lemma {:induction false} RunFits(run: seq<World>, actions: seq<Action>, max: nat, i: nat)
    requires IsRun(run, actions, max) && i < |run|
    ensures DeviceOk(run[i].device, max)
  {
    if i > 0 {
      RunFits(run, actions, max, i - 1);
      hide DeviceOk, Step;
      StepFits(run[i - 1], actions[i - 1], max);
    }
  }

  // The object behind the device

  /** One action on the object: the operation of that name, or a new object on the file that the old one left. */
  method Perform(r: Retained, a: Action, ghost w: World) returns (next: Retained)
    requires w.device == r.State() && DeviceOk(w.device, r.maxSeries) && Possible(w, a)
    modifies r
    ensures next == r || fresh(next)
    ensures next.maxSeries == r.maxSeries && DeviceOk(next.State(), r.maxSeries)
    ensures next.State() == Step(w, a, r.maxSeries).device
  {
    hide Sum, Add, Active, Settle, DeviceOk, FileOk;
    next := r;
    match a
    case Handled(k) => var found := r.Handle(k);
    case Recorded(k, p) => r.RecordValue(k, p);
    case Saved(writes) => r.SaveIfDirty(writes);
    case Begun(writes) => var snapshot := r.Begin(writes);
    case Committed(_, writes) => r.Commit(writes);
    case Aborted(writes) => r.Abort(writes);
    case Crashed(writes) =>
      FileFits(w.device, r.maxSeries);
      next := new Retained(r.maxSeries, r.file, writes);
  }

  /** In every run the device is what the object is after the same actions, crashes included. */
  method Execute(actions: seq<Action>, max: nat, ghost run: seq<World>) returns (r: Retained)
    requires IsRun(run, actions, max)
    ensures r.maxSeries == max && r.State() == run[|actions|].device
  {
    hide Step, DeviceOk, Restart;
    StartFits(max);
    r := new Retained(max, None, true);
    for i := 0 to |actions|
      invariant fresh(r) && r.maxSeries == max && r.State() == run[i].device
    {
      RunFits(run, actions, max, i);
      r := Perform(r, actions[i], run[i]);
    }
  }

  lemma StartFits(max: nat)
    ensures FileOk(None, max) && Restart(None, true) == START.device
  {
  }

  /** The first summary says at least as much as the second. */
  predicate AtLeast(a: Summary, b: Summary, k: Key)
    requires Fits(a, k.kind, []) && Fits(b, k.kind, [])
  {
    match k.kind
    case Counter => a.value >= b.value
    case Histogram => a.count >= b.count
    case Distinct => forall i :: 0 <= i < REGISTER_COUNT ==> a.ranks[i] >= b.ranks[i]
  }

  /** What is saved is acknowledged, lost, or still in the file; what the file has doubled comes on top. */
  lemma SavedIsAccountedFor(run: seq<World>, actions: seq<Action>, max: nat, i: nat, k: Key)
    requires IsRun(run, actions, max) && i < |run|
    ensures var b, d := run[i].books, run[i].device;
      Sum(Sum(At(b.acked, k), At(b.lost, k), k), InFile(d.file, k), k) == Sum(At(b.saved, k), At(b.doubled, k), k)
  {
    RunBalances(run, actions, max, i, k);
  }

  /**
   Without lost rows, acknowledged and in the file never fall below saved: for a distinct always, for a counter
   exactly when what is doubled is not negative.
   */
  lemma SavedIsAckedOrInFile(run: seq<World>, actions: seq<Action>, max: nat, i: nat, k: Key)
    requires IsRun(run, actions, max) && i < |run|
    requires At(run[i].books.lost, k) == Empty(k.kind, [])
    ensures var b, d := run[i].books, run[i].device;
      var covered := Sum(At(b.acked, k), InFile(d.file, k), k);
      && (k.kind == Distinct ==> AtLeast(covered, At(b.saved, k), k))
      && (k.kind == Counter ==> (AtLeast(covered, At(b.saved, k), k) <==> At(b.doubled, k).value >= 0.0))
      && (At(b.doubled, k) == Empty(k.kind, []) ==> covered == At(b.saved, k))
  {
    SavedIsAccountedFor(run, actions, max, i, k);
    SumNothing(At(run[i].books.acked, k), k);
    SumNothing(At(run[i].books.saved, k), k);
    Covers(At(run[i].books.saved, k), At(run[i].books.doubled, k), k);
    hide Sum, At, InFile, AtLeast;
  }

  lemma Covers(a: Summary, b: Summary, k: Key)
    requires Fits(a, k.kind, []) && Fits(b, k.kind, [])
    ensures k.kind == Distinct ==> AtLeast(Sum(a, b, k), a, k)
    ensures k.kind == Counter ==> (AtLeast(Sum(a, b, k), a, k) <==> b.value >= 0.0)
  {
  }

  // Amounts that are never negative

  ghost predicate NoNegatives(rows: Rows) {
    forall k :: k in rows && rows[k].Total? ==> rows[k].value >= 0.0
  }

  ghost predicate NonNegative(w: World) {
    && NoNegatives(w.device.pending) && NoNegatives(Opened(w.device.flight))
    && (w.device.file.Some? ==>
       NoNegatives(w.device.file.value.pending) && NoNegatives(Opened(w.device.file.value.flight)))
    && NoNegatives(w.books.doubled) && NoNegatives(w.books.repeated)
  }

  predicate Grows(a: Action) { a.Recorded? && a.payload.Amount? ==> a.payload.n >= 0.0 }

  lemma AddNonNegative(a: Rows, b: Rows)
    requires NoNegatives(a) && NoNegatives(b)
    ensures NoNegatives(Add(a, b))
  {
    forall k | k in Add(a, b) && Add(a, b)[k].Total? ensures Add(a, b)[k].value >= 0.0 {
      if k in b { SumNonNegative(At(a, k), At(b, k), k); }
    }
  }

  lemma SumNonNegative(a: Summary, b: Summary, k: Key)
    requires a.Total? ==> a.value >= 0.0
    requires b.Total? ==> b.value >= 0.0
    ensures Sum(a, b, k).Total? ==> Sum(a, b, k).value >= 0.0
  {
  }

  lemma WriteStaysNonNegative(w: World, writes: bool)
    requires NonNegative(w)
    ensures NonNegative(WriteBoth(w, writes))
  {
  }

  lemma StepStaysNonNegative(w: World, a: Action, max: nat)
    requires NonNegative(w) && Possible(w, a) && Grows(a)
    ensures NonNegative(Step(w, a, max))
  {
    var d, b := w.device, w.books;
    match a
    case Handled(k) =>
    case Recorded(k, p) =>
      SumNonNegative(At(d.pending, k), Single(p, k.kind, []), k);
    case Saved(writes) => WriteStaysNonNegative(w, writes);
    case Begun(writes) =>
      WriteStaysNonNegative(if CanBegin(d) then World(Departed(d), b) else w, writes);
    case Committed(kept, writes) =>
      AddNonNegative(b.doubled, Opened(d.flight));
      hide Add, Save;
      WriteStaysNonNegative(AfterSettle(w, kept), writes);
    case Aborted(writes) =>
      AddNonNegative(d.pending, Opened(d.flight));
      hide Add, Save;
      WriteStaysNonNegative(World(Returned(d), b), writes);
    case Crashed(writes) =>
      if d.file.Some? {
        AddNonNegative(map[], d.file.value.pending);
        AddNonNegative(Add(map[], d.file.value.pending), Opened(d.file.value.flight));
        hide Add, Save;
        WriteStaysNonNegative(World(Loaded(d.file.value), Forgotten(b)), writes);
      }
  }

  lemma {:induction false} RunStaysNonNegative(run: seq<World>, actions: seq<Action>, max: nat, i: nat)
    requires IsRun(run, actions, max) && i < |run| && forall j :: 0 <= j < i ==> Grows(actions[j])
    ensures NonNegative(run[i])
  {
    if i > 0 {
      RunStaysNonNegative(run, actions, max, i - 1);
      hide NonNegative, Step;
      StepStaysNonNegative(run[i - 1], actions[i - 1], max);
    }
  }

  /**
   Every row of a flight that is settled has reached the server: each fits a frame, and nothing is rejected for
   good.
   */
  ghost predicate Delivers(w: World, a: Action) { a.Committed? ==> Opened(w.device.flight).Keys <= a.kept }

  lemma StepLosesNothing(w: World, a: Action, max: nat)
    requires Possible(w, a) && Delivers(w, a) && w.books.lost == map[]
    ensures Step(w, a, max).books.lost == map[]
  {
    match a
    case Committed(kept, _) =>
      assert Only(Opened(w.device.flight), Opened(w.device.flight).Keys - kept) == map[];
    case _ =>
  }

  lemma {:induction false} RunLosesNothing(run: seq<World>, actions: seq<Action>, max: nat, i: nat)
    requires IsRun(run, actions, max) && i < |run| && forall j :: 0 <= j < i ==> Delivers(run[j], actions[j])
    ensures run[i].books.lost == map[]
  {
    if i > 0 {
      RunLosesNothing(run, actions, max, i - 1);
      StepLosesNothing(run[i - 1], actions[i - 1], max);
      hide Step;
    }
  }

  /**
   In every run whose counters only grow and whose settled flights reached the server, what was last saved is
   covered by what the server acknowledged and what is on disk, for counters and for distincts.
   */
  lemma NothingSavedIsForgotten(run: seq<World>, actions: seq<Action>, max: nat, i: nat, k: Key)
    requires IsRun(run, actions, max) && i < |run| && k.kind != Histogram
    requires forall j :: 0 <= j < i ==> Grows(actions[j]) && Delivers(run[j], actions[j])
    ensures AtLeast(Sum(At(run[i].books.acked, k), InFile(run[i].device.file, k), k), At(run[i].books.saved, k), k)
  {
    RunLosesNothing(run, actions, max, i);
    SavedIsAckedOrInFile(run, actions, max, i, k);
    RunStaysNonNegative(run, actions, max, i);
    assert k.kind == Counter ==> At(run[i].books.doubled, k).value >= 0.0;
  }

  /**
   Any negative amount can break the promise: recorded alone, saved and sent, and committed while the rewrite of
   the file fails, it is counted twice, and what is covered falls below what was saved.
   */
  lemma NegativeAmountsBreakThePromise(k: Key, n: real) returns (run: seq<World>, actions: seq<Action>)
    requires k.kind == Counter && n < 0.0
    ensures IsRun(run, actions, 1)
    ensures forall a :: a in actions && a.Recorded? ==> a == Recorded(k, Amount(n))
    ensures forall j :: 0 <= j < |actions| ==> Delivers(run[j], actions[j])
    ensures var w := run[|run| - 1];
      && At(w.books.lost, k) == Empty(k.kind, [])
      && !AtLeast(Sum(At(w.books.acked, k), InFile(w.device.file, k), k), At(w.books.saved, k), k)
  {
    hide *;
    actions := [Handled(k), Recorded(k, Amount(n)), Begun(true), Committed({k}, false)];
    var row := map[k := Total(n)];
    var w1 := OneHandled(k);
    OneRow(k, n);
    var w2 := OneRecorded(w1, k, n);
    var w3 := OneBegun(w2, row);
    var w4 := OneDoubled(w3, row, k);
    run := [START, w1, w2, w3, w4];
    FourSteps(w1, w2, w3, w4, actions);
    TwiceIsLess(k, n);
    DeliversAll(run, actions, row);
  }

  lemma OneHandled(k: Key) returns (next: World)
    ensures Possible(START, Handled(k)) && next == Step(START, Handled(k), 1)
    ensures next == World(Device(map[], None, {k}, false, None), START.books)
  {
    next := Step(START, Handled(k), 1);
  }

  lemma OneRow(k: Key, n: real)
    requires k.kind == Counter && n != 0.0
    ensures var row := map[k := Total(n)];
      Active(row) == row && At(row, k) == Total(n) && Fits(row[k], Counter, []) && row != map[] && row.Keys == {k}
  {
    assert k in map[k := Total(n)];
  }

  lemma DeliversAll(run: seq<World>, actions: seq<Action>, row: Rows)
    requires |run| == 5 && |actions| == 4 && run[3].device.flight == Some(row)
    requires !actions[0].Committed? && !actions[1].Committed? && !actions[2].Committed?
    requires actions[3].Committed? && row.Keys <= actions[3].kept
    ensures forall j :: 0 <= j < |actions| ==> Delivers(run[j], actions[j])
  {
  }

  lemma FourSteps(w1: World, w2: World, w3: World, w4: World, actions: seq<Action>)
    requires |actions| == 4
    requires Possible(START, actions[0]) && w1 == Step(START, actions[0], 1)
    requires Possible(w1, actions[1]) && w2 == Step(w1, actions[1], 1)
    requires Possible(w2, actions[2]) && w3 == Step(w2, actions[2], 1)
    requires Possible(w3, actions[3]) && w4 == Step(w3, actions[3], 1)
    ensures IsRun([START, w1, w2, w3, w4], actions, 1)
  {
    hide Step, Possible;
  }

  lemma TwiceIsLess(k: Key, n: real)
    requires k.kind == Counter && n < 0.0
    ensures Empty(k.kind, []) == Total(0.0) && !AtLeast(Sum(Total(n), Total(n), k), Total(n), k)
  {
  }

  lemma OneRecorded(w: World, k: Key, n: real) returns (next: World)
    requires k.kind == Counter && w == World(Device(map[], None, {k}, false, None), START.books)
    ensures Possible(w, Recorded(k, Amount(n))) && next == Step(w, Recorded(k, Amount(n)), 1)
    ensures next.device == Device(map[k := Total(n)], None, {k}, true, None)
    ensures next.books.total == map[k := Total(n)] && next.books.acked == next.books.lost == map[]
  {
    next := Step(w, Recorded(k, Amount(n)), 1);
    assert next.device.pending == map[k := Total(n)];
    assert next.books.total == map[k := Total(n)];
  }

  lemma OneBegun(w: World, row: Rows) returns (next: World)
    requires w.device.flight.None? && w.device.pending == row == Active(row) && row != map[]
    ensures Possible(w, Begun(true)) && next == Step(w, Begun(true), 1)
    ensures next.device.flight == Some(row) && next.device.pending == map[]
    ensures next.device.file == Some(File(map[], Some(row)))
    ensures next.books.saved == w.books.total
    ensures next.books.acked == w.books.acked && next.books.lost == w.books.lost
  {
    next := Step(w, Begun(true), 1);
    assert Active(map[]) == map[];
  }

  lemma OneDoubled(w: World, row: Rows, k: Key) returns (next: World)
    requires k.kind == Counter && k in row && row.Keys == {k} && Fits(row[k], Counter, [])
    requires w.device.flight == Some(row) && w.device.file == Some(File(map[], Some(row)))
    requires w.books.acked == w.books.lost == map[]
    ensures Possible(w, Committed({k}, false)) && next == Step(w, Committed({k}, false), 1)
    ensures At(next.books.acked, k) == row[k] && At(next.books.lost, k) == Empty(Counter, [])
    ensures next.books.saved == w.books.saved && InFile(next.device.file, k) == row[k]
  {
    next := Step(w, Committed({k}, false), 1);
    assert Only(row, row.Keys - {k}) == map[];
  }

  /** A flight that reaches the server again changes no register. */
  lemma RedeliveryChangesNoRegister(server: Summary, flight: Summary, k: Key)
    requires k.kind == Distinct && Fits(server, Distinct, []) && Fits(flight, Distinct, [])
    ensures Sum(Sum(server, flight, k), flight, k) == Sum(server, flight, k)
  {
    MergeRepeats(server, flight, []);
  }
}
