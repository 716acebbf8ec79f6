/**
 The Swift resolver: an unordered dictionary, and beside it a queue with a moving head whose entries may be
 stale. It behaves like the insertion-ordered map of the JavaScript client.
 */
module SwiftResolver {
  import opened Wrappers
  import opened Sequences
  import opened AssignmentState
  import ExperimentResolver

  datatype Slot = Slot(order: nat, assignments: Assignments)

  datatype Entry = Entry(subject: Subject, order: nat)

  type Slots = map<Subject, Slot>

  predicate IsLive(e: Entry, slots: Slots) { e.subject in slots && slots[e.subject].order == e.order }

  /** The subjects of the live entries, in queue order. */
  function Live(queue: seq<Entry>, slots: Slots): seq<Subject> {
    if queue == [] then []
    else (if IsLive(queue[0], slots) then [queue[0].subject] else []) + Live(queue[1..], slots)
  }

  function Known(slots: Slots): map<Subject, Assignments> { map x | x in slots :: slots[x].assignments }

  /** Queue entries are numbered in increasing order below `next`. */
  ghost predicate Numbered(queue: seq<Entry>, next: nat) {
    && (forall i :: 0 <= i < |queue| ==> queue[i].order < next)
    && (forall i, j :: 0 <= i < j < |queue| ==> queue[i].order < queue[j].order)
  }

  /** Every subject has its entry in the queue. */
  ghost predicate Queued(queue: seq<Entry>, slots: Slots) {
    forall x :: x in slots ==> Entry(x, slots[x].order) in queue
  }

  lemma {:induction false} LiveIsKnown(queue: seq<Entry>, slots: Slots, x: Subject)
    ensures x in Live(queue, slots) <==> x in slots && Entry(x, slots[x].order) in queue
  {
    if queue != [] {
      LiveIsKnown(queue[1..], slots, x);
      assert queue == [queue[0]] + queue[1..];
      hide Live;
    }
  }

  lemma {:induction false} LiveDistinct(queue: seq<Entry>, slots: Slots, next: nat)
    requires Numbered(queue, next)
    ensures Distinct(Live(queue, slots))
  {
    if queue != [] {
      TailNumbered(queue, next);
      LiveDistinct(queue[1..], slots, next);
      if IsLive(queue[0], slots) { HeadIsOnce(queue, slots, next); }
      hide Numbered, IsLive;
    }
  }

  lemma TailNumbered(queue: seq<Entry>, next: nat)
    requires Numbered(queue, next) && queue != []
    ensures Numbered(queue[1..], next)
  {
  }

  lemma HeadIsOnce(queue: seq<Entry>, slots: Slots, next: nat)
    requires Numbered(queue, next) && queue != [] && IsLive(queue[0], slots)
    ensures queue[0] !in queue[1..] && queue[0].subject !in Live(queue[1..], slots)
  {
    LiveIsKnown(queue[1..], slots, queue[0].subject);
    assert queue[0] == Entry(queue[0].subject, slots[queue[0].subject].order);
    hide Live;
  }

  lemma {:induction false} SameLive(queue: seq<Entry>, a: Slots, b: Slots)
    requires forall i :: 0 <= i < |queue| ==> (IsLive(queue[i], a) <==> IsLive(queue[i], b))
    ensures Live(queue, a) == Live(queue, b)
  {
    if queue != [] {
      assert forall i :: 0 <= i < |queue[1..]| ==> queue[1..][i] == queue[i + 1];
      hide IsLive;
      SameLive(queue[1..], a, b);
    }
  }

  lemma {:induction false} LiveAppend(queue: seq<Entry>, e: Entry, slots: Slots)
    ensures Live(queue + [e], slots) == Live(queue, slots) + (if IsLive(e, slots) then [e.subject] else [])
  {
    hide IsLive;
    if queue == [] {
      assert queue + [e] == [e];
    } else {
      LiveAppend(queue[1..], e, slots);
      assert (queue + [e])[1..] == queue[1..] + [e];
    }
  }

  /** What the dictionary and the queue mean. */
  function Meaning(queue: seq<Entry>, slots: Slots): State { State(Live(queue, slots), Known(slots)) }

  ghost predicate Coherent(queue: seq<Entry>, slots: Slots, next: nat) {
    Numbered(queue, next) && Queued(queue, slots)
  }

  lemma CoherentIsWellFormed(queue: seq<Entry>, slots: Slots, next: nat)
    requires Coherent(queue, slots, next)
    ensures WellFormed(Meaning(queue, slots))
    ensures |Live(queue, slots)| == |slots|
  {
    LiveDistinct(queue, slots, next);
    forall x ensures x in Live(queue, slots) <==> x in slots { LiveIsKnown(queue, slots, x); }
    hide Live, Distinct;
    DistinctCount(Live(queue, slots), slots.Keys);
    assert Known(slots).Keys == slots.Keys;
  }

  lemma MeaningFacts(queue: seq<Entry>, slots: Slots, next: nat)
    requires Coherent(queue, slots, next)
    ensures var s := Meaning(queue, slots);
      && WellFormed(s) && |s.order| == |slots|
      && s.order == Live(queue, slots) && s.known == Known(slots) && s.known.Keys == slots.Keys
      && forall x :: x in slots ==> s.known[x] == slots[x].assignments
  {
    CoherentIsWellFormed(queue, slots, next);
    hide WellFormed, Live, Coherent;
  }

  lemma StillQueued(queue: seq<Entry>, slots: Slots)
    requires Meaning(queue, slots).order != []
    ensures queue != []
  {
  }

  lemma EvictUnfolds(s: State, max: nat)
    ensures Evict(s, max) == if s.order != [] && |s.order| >= max then Evict(RemoveOldest(s), max) else s
  {
  }

  lemma AddedIsKnown(s: State, max: nat, subject: Subject)
    ensures subject in AddSubject(s, max, subject).known
  {
    hide Evict;
  }

  /** A stale head can be skipped. */
  lemma SkipStale(queue: seq<Entry>, slots: Slots, next: nat)
    requires Coherent(queue, slots, next) && queue != [] && !IsLive(queue[0], slots)
    ensures Coherent(queue[1..], slots, next) && Meaning(queue[1..], slots) == Meaning(queue, slots)
  {
    assert queue == [queue[0]] + queue[1..];
  }

  lemma LiveWithoutHead(queue: seq<Entry>, slots: Slots, next: nat)
    requires Numbered(queue, next) && queue != [] && IsLive(queue[0], slots)
    ensures Live(queue[1..], slots - {queue[0].subject}) == Live(queue[1..], slots)
  {
    var head, rest := queue[0].subject, slots - {queue[0].subject};
    HeadIsOnce(queue, slots, next);
    forall i | 0 <= i < |queue[1..]| ensures IsLive(queue[1..][i], slots) <==> IsLive(queue[1..][i], rest) {
      assert queue[1..][i] in queue[1..];
      assert queue[1..][i] != queue[0];
    }
    hide Live, IsLive, Numbered;
    SameLive(queue[1..], slots, rest);
  }

  lemma QueuedWithoutHead(queue: seq<Entry>, slots: Slots)
    requires Queued(queue, slots) && queue != []
    ensures Queued(queue[1..], slots - {queue[0].subject})
  {
    assert queue == [queue[0]] + queue[1..];
  }

  lemma KnownWithout(slots: Slots, x: Subject)
    ensures Known(slots - {x}) == Known(slots) - {x}
  {
  }

  /** Evicting a live head removes the oldest subject. */
  lemma EvictHead(queue: seq<Entry>, slots: Slots, next: nat)
    requires Coherent(queue, slots, next) && queue != [] && IsLive(queue[0], slots)
    ensures var rest := slots - {queue[0].subject};
      && Coherent(queue[1..], rest, next)
      && Live(queue, slots) != []
      && Meaning(queue[1..], rest) == RemoveOldest(Meaning(queue, slots))
  {
    LiveHead(queue, slots);
    hide Live, Numbered, Queued, IsLive, Known;
    TailNumbered(queue, next);
    LiveWithoutHead(queue, slots, next);
    QueuedWithoutHead(queue, slots);
    KnownWithout(slots, queue[0].subject);
    DropFirst(queue[0].subject, Live(queue[1..], slots));
  }

  lemma LiveHead(queue: seq<Entry>, slots: Slots)
    requires queue != [] && IsLive(queue[0], slots)
    ensures Live(queue, slots) == [queue[0].subject] + Live(queue[1..], slots)
  {
  }

  lemma DropFirst<T>(x: T, s: seq<T>)
    ensures ([x] + s)[0] == x && ([x] + s)[1..] == s
  {
  }

  /** Queueing a new subject. */
  lemma AddEntry(queue: seq<Entry>, slots: Slots, next: nat, subject: Subject)
    requires Coherent(queue, slots, next) && subject !in slots
    ensures var added := slots[subject := Slot(next, map[])];
      && Coherent(queue + [Entry(subject, next)], added, next + 1)
      && Meaning(queue + [Entry(subject, next)], added) ==
         State(Live(queue, slots) + [subject], Known(slots)[subject := map[]])
  {
    var added := slots[subject := Slot(next, map[])];
    forall i | 0 <= i < |queue| ensures IsLive(queue[i], slots) <==> IsLive(queue[i], added) {
    }
    SameLive(queue, slots, added);
    LiveAppend(queue, Entry(subject, next), added);
    hide Live;
    assert Known(added) == Known(slots)[subject := map[]];
  }

  /** Changing the assignments of a subject leaves the queue as it is. */
  lemma ChangeAssignments(queue: seq<Entry>, slots: Slots, next: nat, subject: Subject, a: Assignments)
    requires Coherent(queue, slots, next) && subject in slots
    ensures var changed := slots[subject := Slot(slots[subject].order, a)];
      && Coherent(queue, changed, next)
      && Meaning(queue, changed) == State(Live(queue, slots), Known(slots)[subject := a])
  {
    var changed := slots[subject := Slot(slots[subject].order, a)];
    SameLive(queue, slots, changed);
    hide Live;
    assert Known(changed) == Known(slots)[subject := a];
  }

  // applySnapshot

  function KeptSlots(slots: Slots, active: map<Id, Experiment>): Slots {
    map x | x in slots && Kept(slots[x].assignments, active) != map[] ::
      Slot(slots[x].order, Kept(slots[x].assignments, active))
  }

  /** The entries that are live, as the snapshot leaves them in the queue. */
  function LiveEntries(queue: seq<Entry>, slots: Slots): seq<Entry> {
    if queue == [] then []
    else (if IsLive(queue[0], slots) then [queue[0]] else []) + LiveEntries(queue[1..], slots)
  }

  lemma LiveCons(e: Entry, rest: seq<Entry>, slots: Slots)
    ensures Live([e] + rest, slots) == (if IsLive(e, slots) then [e.subject] else []) + Live(rest, slots)
  {
    assert ([e] + rest)[1..] == rest;
  }

  lemma {:induction false} LiveEntriesLive(queue: seq<Entry>, slots: Slots)
    ensures Live(LiveEntries(queue, slots), slots) == Live(queue, slots)
  {
    if queue != [] {
      LiveEntriesLive(queue[1..], slots);
      var rest := LiveEntries(queue[1..], slots);
      LiveCons(queue[0], rest, slots);
      if IsLive(queue[0], slots) {
        assert LiveEntries(queue, slots) == [queue[0]] + rest;
      } else {
        assert LiveEntries(queue, slots) == rest && Live(queue, slots) == Live(queue[1..], slots);
      }
    }
  }

  lemma {:induction false} LiveEntriesAre(queue: seq<Entry>, slots: Slots)
    ensures forall e :: e in LiveEntries(queue, slots) <==> e in queue && IsLive(e, slots)
  {
    if queue != [] {
      LiveEntriesAre(queue[1..], slots);
      assert queue == [queue[0]] + queue[1..];
      hide IsLive;
    }
  }

  lemma {:induction false} LiveEntriesNumbered(queue: seq<Entry>, slots: Slots, next: nat)
    requires Numbered(queue, next)
    ensures Numbered(LiveEntries(queue, slots), next)
  {
    if queue != [] {
      TailNumbered(queue, next);
      LiveEntriesNumbered(queue[1..], slots, next);
      LiveEntriesAre(queue[1..], slots);
      NumberedCons(queue, LiveEntries(queue[1..], slots), next);
      hide IsLive, Numbered;
    }
  }

  lemma NumberedCons(queue: seq<Entry>, rest: seq<Entry>, next: nat)
    requires Numbered(queue, next) && queue != [] && Numbered(rest, next)
    requires forall e :: e in rest ==> e in queue[1..]
    ensures Numbered([queue[0]] + rest, next) && [] + rest == rest
  {
    forall i | 0 <= i < |rest| ensures queue[0].order < rest[i].order {
      assert rest[i] in rest;
    }
  }

  lemma {:induction false} LiveOfKept(queue: seq<Entry>, slots: Slots, active: map<Id, Experiment>, s: State)
    requires s.known == Known(slots)
    ensures Live(queue, KeptSlots(slots, active)) == Survivors(s, active, Live(queue, slots))
  {
    if queue != [] {
      LiveOfKept(queue[1..], slots, active, s);
      var x, rest := queue[0].subject, Live(queue[1..], slots);
      assert IsLive(queue[0], KeptSlots(slots, active)) <==> IsLive(queue[0], slots) && Survives(s, active, x);
      hide Survives, Kept, KeptSlots, IsLive, Known;
      if IsLive(queue[0], slots) {
        assert Live(queue, slots) == [x] + rest;
        assert ([x] + rest)[1..] == rest;
      } else {
        assert Live(queue, slots) == rest;
      }
    }
  }

  lemma KnownOfKept(queue: seq<Entry>, slots: Slots, experiments: seq<Experiment>)
    ensures Known(KeptSlots(slots, Active(experiments))) ==
      ApplySnapshot(Meaning(queue, slots), experiments).known
  {
    hide Live, Active, Survivors, Kept;
  }

  lemma KeptQueued(queue: seq<Entry>, slots: Slots, kept: Slots)
    requires Queued(queue, slots) && forall x :: x in kept ==> x in slots && kept[x].order == slots[x].order
    ensures Queued(LiveEntries(queue, kept), kept)
  {
    LiveEntriesAre(queue, kept);
    hide LiveEntries;
  }

  lemma KeptOrder(slots: Slots, active: map<Id, Experiment>)
    ensures var kept := KeptSlots(slots, active);
      forall x :: x in kept ==> x in slots && kept[x].order == slots[x].order
  {
    hide Kept;
  }

  lemma SnapshotMeaning(queue: seq<Entry>, slots: Slots, next: nat, experiments: seq<Experiment>)
    requires Coherent(queue, slots, next)
    ensures var kept := KeptSlots(slots, Active(experiments));
      && Coherent(LiveEntries(queue, kept), kept, next)
      && Meaning(LiveEntries(queue, kept), kept) == ApplySnapshot(Meaning(queue, slots), experiments)
  {
    var active := Active(experiments);
    var kept, s := KeptSlots(slots, active), Meaning(queue, slots);
    hide Live, LiveEntries, Numbered, Queued, Survivors, Active, KeptSlots, Known, IsLive;
    LiveOfKept(queue, slots, active, s);
    LiveEntriesLive(queue, kept);
    LiveEntriesNumbered(queue, kept, next);
    KeptOrder(slots, active);
    KeptQueued(queue, slots, kept);
    KnownOfKept(queue, slots, experiments);
  }

  /** What stands in the queue from `head` on means `start`. */
  ghost predicate HoldsFrom(order: seq<Entry>, head: nat, slots: Slots, next: nat, start: State) {
    head <= |order| && Coherent(order[head..], slots, next) && Meaning(order[head..], slots) == start
  }

  lemma HoldsFromNext(order: seq<Entry>, head: nat, slots: Slots, next: nat, start: State)
    requires HoldsFrom(order, head, slots, next, start) && start.order != []
    ensures head < |order|
    ensures IsLive(order[head], slots) ==>
      HoldsFrom(order, head + 1, slots - {order[head].subject}, next, RemoveOldest(start))
    ensures !IsLive(order[head], slots) ==> HoldsFrom(order, head + 1, slots, next, start)
  {
    StillQueued(order[head..], slots);
    SuffixStep(order, head);
    if IsLive(order[head], slots) {
      EvictHead(order[head..], slots, next);
    } else {
      SkipStale(order[head..], slots, next);
    }
    hide Coherent, Meaning, IsLive, RemoveOldest;
  }

  lemma SuffixStep(queue: seq<Entry>, head: nat)
    requires head < |queue|
    ensures queue[head..] != [] && queue[head..][0] == queue[head] && queue[head..][1..] == queue[head + 1..]
  {
  }

  /** When some but not all slots have been filtered. */
  ghost predicate Filtering(start: Slots, active: map<Id, Experiment>, todo: set<Subject>, slots: Slots) {
    && todo <= start.Keys
    && (forall x :: x in slots <==> x in start && (x in todo || x in KeptSlots(start, active)))
    && (forall x :: x in slots ==> slots[x] == if x in todo then start[x] else KeptSlots(start, active)[x])
  }

  lemma NothingFiltered(start: Slots, active: map<Id, Experiment>)
    ensures Filtering(start, active, start.Keys, start)
  {
    hide Kept;
  }

  lemma FilterOne(start: Slots, active: map<Id, Experiment>, todo: set<Subject>, slots: Slots, x: Subject)
    requires Filtering(start, active, todo, slots) && x in todo
    ensures x in slots && slots[x] == start[x]
    ensures var kept := Kept(slots[x].assignments, active);
      Filtering(start, active, todo - {x}, if kept == map[] then slots - {x}
        else slots[x := Slot(slots[x].order, kept)])
  {
    hide Kept;
  }

  lemma Filtered(start: Slots, active: map<Id, Experiment>, slots: Slots)
    requires Filtering(start, active, {}, slots)
    ensures slots == KeptSlots(start, active)
  {
    hide Kept;
    assert slots.Keys == KeptSlots(start, active).Keys;
  }

  class Resolver {
    const max: nat
    const hashSubject: string -> Subject
    var stateBySubject: Slots
    var order: seq<Entry>
    var orderHead: nat
    var nextOrder: nat
    var exposures: seq<Exposure>

    ghost predicate Valid()
      reads this
    {
      max > 0 && orderHead <= |order| && Coherent(order[orderHead..], stateBySubject, nextOrder)
    }

    ghost function Abs(): State
      reads this
      requires Valid()
    {
      Meaning(order[orderHead..], stateBySubject)
    }

    constructor (max: nat, hashSubject: string -> Subject)
      requires max > 0
      ensures Valid() && Abs() == EMPTY && exposures == [] && this.max == max && this.hashSubject == hashSubject
    {
      this.max, this.hashSubject := max, hashSubject;
      stateBySubject, order, orderHead, nextOrder, exposures := map[], [], 0, 0, [];
    }

    /** Skips stale entries, evicts the first live one, and now and then drops the part of the queue behind the head. */
    method EvictOldest()
      requires Valid() && stateBySubject != map[]
      modifies this`stateBySubject, this`order, this`orderHead
      ensures Valid() && old(Abs()).order != [] && Abs() == RemoveOldest(old(Abs()))
    {
      MeaningFacts(order[orderHead..], stateBySubject, nextOrder);
      ghost var start := Abs();
      assert HoldsFrom(order, orderHead, stateBySubject, nextOrder, start);
      SkipToLive(start);
      DropPrefix(RemoveOldest(start));
    }

    /** The loop over the queue: up to and including the first live entry. */
    method SkipToLive(ghost start: State)
      requires HoldsFrom(order, orderHead, stateBySubject, nextOrder, start) && start.order != []
      modifies this`stateBySubject, this`orderHead
      ensures HoldsFrom(order, orderHead, stateBySubject, nextOrder, RemoveOldest(start))
    {
      hide *;
      while orderHead < |order|
        invariant HoldsFrom(order, orderHead, stateBySubject, nextOrder, start)
      {
        var entry := order[orderHead];
        HoldsFromNext(order, orderHead, stateBySubject, nextOrder, start);
        var live := IsLive(entry, stateBySubject);
        orderHead := orderHead + 1;
        if live {
          stateBySubject := stateBySubject - {entry.subject};
          return;
        }
      }
      HoldsFromNext(order, orderHead, stateBySubject, nextOrder, start);
    }

    /** Now and then the part of the queue behind the head is dropped. */
    method DropPrefix(ghost now: State)
      requires HoldsFrom(order, orderHead, stateBySubject, nextOrder, now)
      modifies this`order, this`orderHead
      ensures HoldsFrom(order, orderHead, stateBySubject, nextOrder, now)
    {
      hide Coherent, Meaning;
      if orderHead > 1024 && orderHead * 2 > |order| {
        assert order[orderHead..][0..] == order[orderHead..];
        order, orderHead := order[orderHead..], 0;
      }
    }

    /** Evicts until there is room. */
    method MakeRoom()
      requires Valid()
      modifies this`stateBySubject, this`order, this`orderHead
      ensures Valid() && Abs() == Evict(old(Abs()), max)
    {
      hide Coherent, Meaning, Evict;
      ghost var start := Abs();
      MeaningFacts(order[orderHead..], stateBySubject, nextOrder);
      EvictUnfolds(Abs(), max);
      while |stateBySubject| >= max
        invariant Valid() && Evict(Abs(), max) == Evict(start, max)
        invariant |Abs().order| == |stateBySubject|
        decreases |stateBySubject|
      {
        EvictUnfolds(Abs(), max);
        EvictOldest();
        MeaningFacts(order[orderHead..], stateBySubject, nextOrder);
      }
      EvictUnfolds(Abs(), max);
    }

    /** The first half of recordAssignment. */
    method AddIfNew(subject: Subject)
      requires Valid()
      modifies this`stateBySubject, this`order, this`orderHead, this`nextOrder
      ensures Valid() && Abs() == AddSubject(old(Abs()), max, subject)
    {
      hide Coherent, Meaning, Evict, Live, Known, WellFormed;
      MeaningFacts(order[orderHead..], stateBySubject, nextOrder);
      if subject !in stateBySubject {
        EvictStaysWellFormed(Abs(), max);
        MakeRoom();
        MeaningFacts(order[orderHead..], stateBySubject, nextOrder);
        AddEntry(order[orderHead..], stateBySubject, nextOrder, subject);
        assert (order + [Entry(subject, nextOrder)])[orderHead..] == order[orderHead..] + [Entry(subject, nextOrder)];
        stateBySubject := stateBySubject[subject := Slot(nextOrder, map[])];
        order := order + [Entry(subject, nextOrder)];
        nextOrder := nextOrder + 1;
      }
    }

    method RecordAssignment(subjectId: string, e: Experiment, variant: string) returns (assignment: Assignment)
      requires Valid()
      modifies this`stateBySubject, this`order, this`orderHead, this`nextOrder
      ensures Valid() && Abs() == Record(old(Abs()), max, hashSubject(subjectId), e, variant)
      ensures e.id in AssignmentsOf(Abs(), hashSubject(subjectId))
      ensures assignment == AssignmentsOf(Abs(), hashSubject(subjectId))[e.id]
    {
      var subject := hashSubject(subjectId);
      hide Coherent, Meaning, AddSubject, WellFormed, Live, Known;
      AddedIsKnown(Abs(), max, subject);
      AddIfNew(subject);
      MeaningFacts(order[orderHead..], stateBySubject, nextOrder);
      var slot := stateBySubject[subject];
      var state := slot.assignments;
      if e.id !in state {
        state := state[e.id := NewAssignment(e, variant)];
      }
      ChangeAssignments(order[orderHead..], stateBySubject, nextOrder, subject, state);
      stateBySubject := stateBySubject[subject := Slot(slot.order, state)];
      assignment := state[e.id];
    }

    method ExposeAssignment(subjectId: string, id: Id)
      requires Valid() && id in AssignmentsOf(Abs(), hashSubject(subjectId))
      modifies this`stateBySubject, this`exposures
      ensures Valid() && Abs() == Expose(old(Abs()), hashSubject(subjectId), id)
      ensures exposures == old(exposures) + ExposureOf(old(Abs()), hashSubject(subjectId), id)
    {
      hide Coherent, Meaning;
      var subject := hashSubject(subjectId);
      MeaningFacts(order[orderHead..], stateBySubject, nextOrder);
      var slot := stateBySubject[subject];
      var assignment := slot.assignments[id];
      if assignment.exposed {
        assert slot.assignments[id := assignment.(exposed := true)] == slot.assignments;
        assert Abs().known[subject := slot.assignments] == Abs().known;
        assert exposures == exposures + [];
        return;
      }
      ChangeAssignments(order[orderHead..], stateBySubject, nextOrder, subject,
                        slot.assignments[id := assignment.(exposed := true)]);
      var exposed := slot.assignments[id := assignment.(exposed := true)];
      stateBySubject := stateBySubject[subject := Slot(slot.order, exposed)];
      exposures := exposures + [Exposure(id, assignment.variant, subject)];
    }

    method ResolveKey(key: string, subjectId: Option<string>, list: seq<Experiment>,
                      choose: (Experiment, string) -> Choice)
      returns (answer: Answer)
      requires Valid()
      modifies this
      ensures Valid()
      ensures subjectId.None? ==> Abs() == old(Abs()) && exposures == old(exposures) && answer == Remote
      ensures subjectId.Some? ==>
        var choices := ExperimentResolver.Choices(list, choose, subjectId.value);
        var (s, a, e) := Resolve(old(Abs()), max, hashSubject(subjectId.value), list, choices, key);
        Abs() == s && answer == a && exposures == old(exposures) + e
    {
      if subjectId.None? { return Remote; }
      hide Coherent, Meaning, Record, Expose;
      ghost var choices := ExperimentResolver.Choices(list, choose, subjectId.value);
      for i := 0 to |list|
        invariant Valid() && Abs() == old(Abs()) && exposures == old(exposures)
        invariant forall j :: 0 <= j < i ==> !choices[j].Fails? && !(choices[j].Picks? && key in choices[j].values)
      {
        ExperimentResolver.DecidingFrom(list, choices, key, i);
        var choice := choose(list[i], subjectId.value);
        if choice.Fails? { return Threw; }
        if choice.Picks? && key in choice.values {
          var assignment := RecordAssignment(subjectId.value, list[i], choice.variant);
          ExposeAssignment(subjectId.value, list[i].id);
          return Value(choice.values[key]);
        }
      }
      ExperimentResolver.DecidingFrom(list, choices, key, |list|);
      return Remote;
    }

    /** Filters the assignments of every subject, in whatever order the dictionary yields them. */
    method FilterAssignments(active: map<Id, Experiment>)
      modifies this`stateBySubject
      ensures stateBySubject == KeptSlots(old(stateBySubject), active)
    {
      hide Filtering, Kept, KeptSlots;
      ghost var start := stateBySubject;
      NothingFiltered(start, active);
      var todo := stateBySubject.Keys;
      while todo != {}
        invariant Filtering(start, active, todo, stateBySubject)
        decreases |todo|
      {
        var subject :| subject in todo;
        FilterOne(start, active, todo, stateBySubject, subject);
        var kept := Kept(stateBySubject[subject].assignments, active);
        if kept == map[] {
          stateBySubject := stateBySubject - {subject};
        } else {
          stateBySubject := stateBySubject[subject := Slot(stateBySubject[subject].order, kept)];
        }
        todo := todo - {subject};
      }
      Filtered(start, active, stateBySubject);
    }

    method ApplyExperiments(experiments: seq<Experiment>)
      requires Valid()
      modifies this`stateBySubject, this`order, this`orderHead
      ensures Valid() && Abs() == ApplySnapshot(old(Abs()), experiments)
    {
      hide Coherent, Meaning, Active, ApplySnapshot, KeptSlots, LiveEntries;
      var active := ExperimentResolver.ActiveFingerprints(experiments);
      SnapshotMeaning(order[orderHead..], stateBySubject, nextOrder, experiments);
      FilterAssignments(active);
      order := LiveEntries(order[orderHead..], stateBySubject);
      orderHead := 0;
      assert order[0..] == order;
    }
  }

  // The two clients side by side

  datatype Operation =
    | Lookup(key: string, subjectId: Option<string>, list: seq<Experiment>)
    | NewConfig(experiments: seq<Experiment>)

  /** What a run leaves: the assignments, the answers given and the exposures reported. */
  datatype Outcome = Outcome(state: State, answers: seq<Answer>, exposures: seq<Exposure>)

  function Perform(o: Outcome, operation: Operation, max: nat, hashSubject: string -> Subject,
                   choose: (Experiment, string) -> Choice): Outcome
  {
    match operation
    case NewConfig(experiments) => o.(state := ApplySnapshot(o.state, experiments))
    case Lookup(_, None, _) => o.(answers := o.answers + [Remote])
    case Lookup(key, Some(subjectId), list) =>
      var choices := ExperimentResolver.Choices(list, choose, subjectId);
      var (state, answer, exposed) := Resolve(o.state, max, hashSubject(subjectId), list, choices, key);
      Outcome(state, o.answers + [answer], o.exposures + exposed)
  }

  function Run(operations: seq<Operation>, max: nat, hashSubject: string -> Subject,
               choose: (Experiment, string) -> Choice): Outcome
  {
    if operations == [] then Outcome(EMPTY, [], [])
    else
      var n := |operations| - 1;
      Perform(Run(operations[..n], max, hashSubject, choose), operations[n], max, hashSubject, choose)
  }

  lemma RunNext(operations: seq<Operation>, i: nat, max: nat, hashSubject: string -> Subject,
                choose: (Experiment, string) -> Choice)
    requires i < |operations|
    ensures Run(operations[..i + 1], max, hashSubject, choose) ==
      Perform(Run(operations[..i], max, hashSubject, choose), operations[i], max, hashSubject, choose)
  {
    hide Perform;
    assert operations[..i + 1][..i] == operations[..i];
  }

  /**
   Any run of lookups and configurations, on both clients: each leaves what folding the operations on the
   insertion-ordered map leaves, the same answers and exposures included, and never more than `max` subjects.
   */
  method RunBoth(operations: seq<Operation>, max: nat, hashSubject: string -> Subject,
                 choose: (Experiment, string) -> Choice)
    returns (js: ExperimentResolver.Resolver, swift: Resolver, jsAnswers: seq<Answer>, swiftAnswers: seq<Answer>)
    requires max > 0
    ensures Outcome(js.Abs(), jsAnswers, js.exposures) == Run(operations, max, hashSubject, choose)
    ensures swift.Valid()
    ensures Outcome(swift.Abs(), swiftAnswers, swift.exposures) == Run(operations, max, hashSubject, choose)
    ensures |js.order| == |swift.stateBySubject| <= max
  {
    js := new ExperimentResolver.Resolver(max, hashSubject);
    swift := new Resolver(max, hashSubject);
    jsAnswers, swiftAnswers := [], [];
    Empty();
    hide WellFormed, Run, Perform, Coherent, Meaning;
    ghost var run := Outcome(EMPTY, [], []);
    RunNone(max, hashSubject, choose);
    assert operations[..0] == [];
    for i := 0 to |operations|
      invariant fresh(js) && fresh(swift) && swift.Valid() && swift.max == js.max == max
      invariant swift.hashSubject == js.hashSubject == hashSubject
      invariant WellFormed(js.Abs()) && |js.order| <= max
      invariant run == Run(operations[..i], max, hashSubject, choose)
      invariant Outcome(js.Abs(), jsAnswers, js.exposures) == run
      invariant Outcome(swift.Abs(), swiftAnswers, swift.exposures) == run
    {
      RunNext(operations, i, max, hashSubject, choose);
      jsAnswers, swiftAnswers := StepBoth(js, swift, operations[i], choose, jsAnswers, swiftAnswers);
      run := Perform(run, operations[i], max, hashSubject, choose);
    }
    assert operations[..|operations|] == operations;
    MeaningFacts(swift.order[swift.orderHead..], swift.stateBySubject, swift.nextOrder);
  }

  lemma RunNone(max: nat, hashSubject: string -> Subject, choose: (Experiment, string) -> Choice)
    ensures Run([], max, hashSubject, choose) == Outcome(EMPTY, [], [])
  {
  }

  /** One operation on both clients. */
  method StepBoth(js: ExperimentResolver.Resolver, swift: Resolver, operation: Operation,
                  choose: (Experiment, string) -> Choice, jsAnswers: seq<Answer>, swiftAnswers: seq<Answer>)
    returns (jsNow: seq<Answer>, swiftNow: seq<Answer>)
    requires swift.Valid() && swift.max == js.max && swift.hashSubject == js.hashSubject
    requires WellFormed(js.Abs()) && |js.order| <= js.max && js.max > 0
    requires Outcome(js.Abs(), jsAnswers, js.exposures) == Outcome(swift.Abs(), swiftAnswers, swift.exposures)
    modifies js, swift
    ensures swift.Valid() && WellFormed(js.Abs()) && |js.order| <= js.max
    ensures var was := old(Outcome(js.Abs(), jsAnswers, js.exposures));
      && Outcome(js.Abs(), jsNow, js.exposures) == Perform(was, operation, js.max, js.hashSubject, choose)
      && Outcome(swift.Abs(), swiftNow, swift.exposures) == Perform(was, operation, js.max, js.hashSubject, choose)
  {
    hide WellFormed, ApplySnapshot, Resolve, Coherent, Meaning;
    jsNow, swiftNow := jsAnswers, swiftAnswers;
    match operation
    case NewConfig(experiments) =>
      SnapshotStaysBounded(js.Abs(), experiments);
      js.ApplyExperiments(experiments);
      swift.ApplyExperiments(experiments);
    case Lookup(key, subjectId, list) =>
      if subjectId.Some? {
        ResolveStaysBounded(js.Abs(), js.max, js.hashSubject(subjectId.value), list,
          ExperimentResolver.Choices(list, choose, subjectId.value), key);
      }
      var a := js.ResolveKey(key, subjectId, list, choose);
      var b := swift.ResolveKey(key, subjectId, list, choose);
      jsNow, swiftNow := jsNow + [a], swiftNow + [b];
  }

  lemma Empty()
    ensures WellFormed(EMPTY)
  {
  }
}
