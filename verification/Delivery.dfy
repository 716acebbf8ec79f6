/**
 The part of the Node engine that owns an event between `event()` and the wire: the bounded event buffer,
 the frame sequence number, the bounded list of pending frames and the count of delivery losses.
 Events are named by the order in which they were recorded.
 */
module Delivery {
  import opened Sequences

  type EventId = nat

  /** A physical frame, as far as delivery is concerned. */
  datatype Frame = Frame(number: nat, events: seq<EventId>)

  /** What the frame splitter returns: the frames, and how many events did not fit in any frame. */
  datatype Batch = Batch(frames: seq<Frame>, droppedEvents: nat)

  datatype Limits = Limits(maxEvents: nat, maxPending: nat)

  /** The engine's delivery state. `losses` is the counter that flush() compares. */
  datatype Core = Core(buffer: seq<EventId>, number: nat, pending: seq<Frame>, losses: nat, aligned: bool)

  function EventsOf(frames: seq<Frame>): seq<EventId> {
    if frames == [] then [] else frames[0].events + EventsOf(frames[1..])
  }

  lemma {:induction false} EventsOfConcat(a: seq<Frame>, b: seq<Frame>)
    ensures EventsOf(a + b) == EventsOf(a) + EventsOf(b)
  {
    if a == [] {
      assert a + b == b;
    } else {
      EventsOfConcat(a[1..], b);
      assert (a + b)[1..] == a[1..] + b && (a + b)[0] == a[0];
      Reassociate(a[0].events, EventsOf(a[1..]), EventsOf(b));
    }
  }

  lemma EventsOfSplit(frames: seq<Frame>, k: nat)
    requires k <= |frames|
    ensures EventsOf(frames) == EventsOf(frames[..k]) + EventsOf(frames[k..])
  {
    EventsOfConcat(frames[..k], frames[k..]);
    assert frames[..k] + frames[k..] == frames;
  }

  /** Frames numbered first, first + 1, first + 2, and so on. */
  ghost predicate Consecutive(frames: seq<Frame>, first: nat) {
    forall i :: 0 <= i < |frames| ==> frames[i].number == first + i
  }

  /** What every run of the splitter returns for the captured events: see FrameSplitter. */
  ghost predicate IsSplitOf(batch: Batch, first: nat, events: seq<EventId>, keep: seq<bool>) {
    && |keep| == |events|
    && batch.frames != []
    && Consecutive(batch.frames, first)
    && EventsOf(batch.frames) == Select(events, keep)
    && batch.droppedEvents == |events| - |Select(events, keep)|
  }

  function Max(a: int, b: int): int { if a < b then b else a }

  function Min(a: int, b: int): int { if a < b then a else b }

  // What each engine call does, as a function of the state.

  function Event(core: Core, limits: Limits, id: EventId): Core {
    if |core.buffer| >= limits.maxEvents then core.(losses := core.losses + 1)
    else core.(buffer := core.buffer + [id])
  }

  /** How many of the oldest frames have to go when a batch arrives. */
  function Overflow(core: Core, limits: Limits, batch: Batch): nat {
    Max(0, |core.pending| + |batch.frames| - limits.maxPending)
  }

  function AcceptFrameBatch(core: Core, limits: Limits, batch: Batch): Core
    requires batch.frames != []
  {
    var overflow := Overflow(core, limits, batch);
    core.(number := batch.frames[|batch.frames| - 1].number,
          pending := (core.pending + batch.frames)[overflow..],
          losses := core.losses + overflow + batch.droppedEvents)
  }

  function RecordSyncResult(core: Core, ok: bool, frames: nat): Core {
    if ok then core else core.(losses := core.losses + frames)
  }

  function RecordSyncError(core: Core): Core {
    core.(losses := core.losses + 1)
  }

  /** The oldest frames are gone and the new ones up to position i have been appended. */
  ghost predicate Appended(pending: seq<Frame>, before: seq<Frame>, frames: seq<Frame>, overflow: nat, i: nat) {
    && overflow <= |before| + |frames| && Max(0, overflow - |before|) <= i <= |frames|
    && pending == before[Min(overflow, |before|)..] + frames[Max(0, overflow - |before|)..i]
  }

  lemma NoneAppended(before: seq<Frame>, frames: seq<Frame>, overflow: nat)
    requires overflow <= |before| + |frames|
    ensures Appended(before[Min(overflow, |before|)..], before, frames, overflow, Max(0, overflow - |before|))
  {
  }

  lemma AppendedNext(pending: seq<Frame>, before: seq<Frame>, frames: seq<Frame>, overflow: nat, i: nat)
    requires Appended(pending, before, frames, overflow, i) && i < |frames|
    ensures Appended(pending + [frames[i]], before, frames, overflow, i + 1)
  {
    var from := Max(0, overflow - |before|);
    assert frames[from..i + 1] == frames[from..i] + [frames[i]];
  }

  lemma AllAppended(pending: seq<Frame>, before: seq<Frame>, frames: seq<Frame>, overflow: nat)
    requires Appended(pending, before, frames, overflow, |frames|)
    ensures pending == (before + frames)[overflow..] && |pending| == |before| + |frames| - overflow
  {
  }

  /** The engine object itself. */
  class WardxCore {
    const limits: Limits
    var buf: seq<EventId>
    var number: nat
    var pendingFrames: seq<Frame>
    var deliveryLosses: nat
    var clockAligned: bool

    ghost function State(): Core
      reads this
    {
      Core(buf, number, pendingFrames, deliveryLosses, clockAligned)
    }

    constructor (limits: Limits)
      ensures State() == Core([], 0, [], 0, false) && this.limits == limits
    {
      this.limits := limits;
      buf, number, pendingFrames, deliveryLosses, clockAligned := [], 0, [], 0, false;
    }

    method RecordEvent(id: EventId) returns (dropped: bool)
      modifies this
      ensures State() == Event(old(State()), limits, id)
      ensures dropped <==> |old(buf)| >= limits.maxEvents
    {
      dropped := |buf| >= limits.maxEvents;
      if dropped {
        deliveryLosses := deliveryLosses + 1;
      } else {
        buf := buf + [id];
      }
    }

    /** Empties the buffer into the frame that will be split next. */
    method CaptureFrame() returns (first: nat, events: seq<EventId>)
      modifies this
      ensures State() == old(State()).(buffer := [])
      ensures first == number + 1 && events == old(buf)
    {
      first, events := number + 1, buf;
      buf := [];
    }

    /** Appends a batch to the bounded list of pending frames; false stands for the out-of-sequence error. */
    method Accept(batch: Batch) returns (ok: bool)
      requires batch.frames != []
      requires limits.maxPending >= 1
      modifies this
      ensures ok <==> batch.frames[0].number == old(number) + 1
      ensures State() == if ok then AcceptFrameBatch(old(State()), limits, batch) else old(State())
      ensures ok ==> |pendingFrames| == Min(|old(pendingFrames)| + |batch.frames|, limits.maxPending)
      ensures ok ==>
        deliveryLosses - old(deliveryLosses)
        == |old(pendingFrames)| + |batch.frames| - |pendingFrames| + batch.droppedEvents
    {
      if batch.frames[0].number != number + 1 {
        return false;
      }
      hide Appended, Min;
      ghost var before := pendingFrames;
      number := batch.frames[|batch.frames| - 1].number;
      var capacity := limits.maxPending;
      var overflow := Max(0, |pendingFrames| + |batch.frames| - capacity);
      NoneAppended(before, batch.frames, overflow);
      if overflow > 0 {
        pendingFrames := pendingFrames[Min(overflow, |pendingFrames|)..];
        deliveryLosses := deliveryLosses + overflow;
      }
      deliveryLosses := deliveryLosses + batch.droppedEvents;
      var i: nat := Max(0, |batch.frames| - capacity);
      while i < |batch.frames|
        invariant i <= |batch.frames| && Appended(pendingFrames, before, batch.frames, overflow, i)
        invariant number == batch.frames[|batch.frames| - 1].number && buf == old(buf)
        invariant clockAligned == old(clockAligned)
        invariant deliveryLosses == old(deliveryLosses) + overflow + batch.droppedEvents
      {
        AppendedNext(pendingFrames, before, batch.frames, overflow, i);
        pendingFrames := pendingFrames + [batch.frames[i]];
        i := i + 1;
      }
      AllAppended(pendingFrames, before, batch.frames, overflow);
      ok := true;
    }

    method TakePendingFrames() returns (frames: seq<Frame>)
      modifies this
      ensures State() == old(State()).(pending := []) && frames == old(pendingFrames)
    {
      frames := pendingFrames;
      pendingFrames := [];
    }

    method RecordResult(ok: bool, frames: nat)
      modifies this
      ensures State() == RecordSyncResult(old(State()), ok, frames)
    {
      if !ok {
        deliveryLosses := deliveryLosses + frames;
      }
    }

    method RecordError()
      modifies this
      ensures State() == RecordSyncError(old(State()))
    {
      deliveryLosses := deliveryLosses + 1;
    }
  }
}
