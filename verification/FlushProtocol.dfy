/**
 The flush and sync protocol of the Node client as a transition system. Every step is the code that runs
 between two awaits of WardxNode or WardxCore; the network, the timers and the scheduler are the choice of
 the next step and of its outcome. The fields from `lossesAt` on are history: no step reads them.
 */
module FlushProtocol {
  import opened Wrappers
  import opened Sequences
  import opened Delivery

  /** A sync that was put on the sync chain. */
  datatype Job = Job(id: nat, flush: bool, bootstrap: bool)

  datatype Phase =
    | AwaitSnapshot(ticket: nat)                            // awaiting the snapshot chain up to this ticket
    | Posting(batch: seq<Frame>, start: nat, end: nat)      // the envelope batch[start..end] is on the wire
    | Sent(ok: bool)                                        // one _sendPending call has its result

  /** The sync that is running. `cut` and `mark` are history: events recorded and losses counted at its start. */
  datatype Sync = Sync(job: Job, alignedAtStart: bool, second: bool, phase: Phase, cut: nat, mark: nat) {
    predicate Forced() { job.flush || job.bootstrap }

    predicate SendsEmpty() { !second && (!alignedAtStart || Forced()) }
  }

  datatype Snapshot = Idle | Splitting(ticket: nat, first: nat, events: seq<EventId>)

  /** The sync a flush() or shutdown() call waits for; events recorded and losses counted when it was made. */
  datatype Promise = Promise(job: nat, upTo: nat, baseline: nat)

  /** A flush() call: it vouches for the events since <= e < upTo, and compares the losses with `losses`. */
  datatype Flush = Flush(promise: nat, since: nat, upTo: nat, losses: nat, outcome: Option<bool>)

  datatype Node = Node(
    limits: Limits,
    core: Core,
    waiting: seq<Job>, queuedSync: Option<nat>, lastJob: nat, running: Option<Sync>, results: map<nat, bool>,
    queuedSnapshot: Option<nat>, lastTicket: nat, doneTickets: nat, snapshot: Snapshot,
    stopped: bool, shutdown: Option<nat>,
    flushLosses: nat, lastFlushAt: nat, flushes: seq<Flush>, promises: seq<Promise>,
    lossesAt: seq<nat>, acked: set<EventId>, lost: set<EventId>,
    posted: seq<nat>, ackedFrames: set<nat>, lostFrames: set<nat>, otherLosses: nat)
  {
    /** Number of event() calls so far. */
    function Recorded(): nat { |lossesAt| }
  }

  /** A response may align the clock and still be refused, when what it configures is invalid. */
  datatype PostOutcome = Accepted(aligns: bool) | Rejected(aligns: bool)

  /**
   A sync hook of the tracer that throws: after a response that was taken or not, perhaps once more while the
   failure is reported (`escapes`), and then out of the sync. `again` says that the failure was recorded before.
   */
  datatype TraceFault = TraceFault(delivered: bool, aligns: bool, again: bool, escapes: bool)

  datatype Action =
    | RecordEvent
    | TickSync
    | TickSnapshot
    | CallFlush
    | CallShutdown
    | StartSync
    | StartSnapshot(readFails: bool, otherActivity: bool)
    | FinishSnapshot(batch: Batch, keep: seq<bool>)
    | FailSnapshot
    | Resume(end: nat)
    | FinishPost(outcome: PostOutcome, nextEnd: nat)
    | SyncTraceThrows(fault: TraceFault)
    | FrameTraceThrows
    | AfterSend
    | ResolveFlush(index: nat)

  function Initial(limits: Limits): Node {
    Node(limits, Core([], 0, [], 0, false),
         [Job(1, false, true)], Some(1), 1, None, map[],
         None, 0, 0, Idle,
         false, None,
         0, 0, [], [],
         [], {}, {}, [], {}, {}, 0)
  }

  // The two coalescing queues

  predicate Coalesces(s: Node) {
    && s.queuedSync.Some?
    && exists i :: 0 <= i < |s.waiting| && s.waiting[i].id == s.queuedSync.value && !s.waiting[i].bootstrap
  }

  /** _enqueueSync: the returned promise is always that of job `lastJob`. */
  function EnqueueSync(s: Node, flush: bool): Node {
    if Coalesces(s) then
      s.(waiting := seq(|s.waiting|, i requires 0 <= i < |s.waiting| =>
           if s.waiting[i].id == s.queuedSync.value then s.waiting[i].(flush := s.waiting[i].flush || flush)
             else s.waiting[i]))
    else
      s.(waiting := s.waiting + [Job(s.lastJob + 1, flush, false)],
         queuedSync := Some(s.lastJob + 1),
         lastJob := s.lastJob + 1)
  }

  /** _enqueueSnapshot: the returned promise is always that of ticket `lastTicket`. */
  function EnqueueSnapshot(s: Node): Node {
    if s.queuedSnapshot.Some? then s
    else s.(queuedSnapshot := Some(s.lastTicket + 1), lastTicket := s.lastTicket + 1)
  }

  // The steps

  function DoRecordEvent(s: Node): Node {
    var id := s.Recorded();
    var core := Event(s.core, s.limits, id);
    var dropped := core.losses > s.core.losses;
    s.(core := core,
       lossesAt := s.lossesAt + [s.core.losses],
       lost := if dropped then s.lost + {id} else s.lost,
       otherLosses := s.otherLosses + if dropped then 1 else 0)
  }

  function DoCallFlush(s: Node): Node {
    var t := if s.shutdown.Some? then s else
      var q := EnqueueSync(s, true);
      q.(promises := q.promises + [Promise(q.lastJob, s.Recorded(), s.core.losses)]);
    var promise := if s.shutdown.Some? then s.shutdown.value else |s.promises|;
    var upTo := if promise < |t.promises| then t.promises[promise].upTo else 0;
    t.(flushLosses := s.core.losses,
       lastFlushAt := s.Recorded(),
       flushes := s.flushes + [Flush(promise, s.lastFlushAt, upTo, s.flushLosses, None)])
  }

  function DoCallShutdown(s: Node): Node {
    if s.shutdown.Some? then s else
      var q := EnqueueSync(s.(stopped := true), true);
      q.(shutdown := Some(|s.promises|),
         promises := s.promises + [Promise(q.lastJob, s.Recorded(), s.core.losses)])
  }

  function Finish(s: Node, ok: bool): Node
    requires s.running.Some?
  {
    s.(running := None, results := s.results[s.running.value.job.id := ok])
  }

  /** The head of _sendPending: forced syncs take their own snapshot, ticks wait for those already asked for. */
  function BeginSend(s: Node, sync: Sync): Node {
    var t := if sync.Forced() then EnqueueSnapshot(s) else s;
    t.(running := Some(sync.(phase := AwaitSnapshot(t.lastTicket))))
  }

  function DoStartSync(s: Node): Node
    requires s.waiting != []
  {
    var job := s.waiting[0];
    var t := s.(waiting := s.waiting[1..], queuedSync := if s.queuedSync == Some(job.id) then None else s.queuedSync);
    var sync := Sync(job, s.core.aligned, false, Sent(true), s.Recorded(), s.core.losses);
    if s.stopped && !job.flush then t.(results := t.results[job.id := true])
    else BeginSend(t, sync)
  }

  function DoStartSnapshot(s: Node, readFails: bool, otherActivity: bool): Node {
    var ticket := s.doneTickets + 1;
    var t := s.(queuedSnapshot := if s.queuedSnapshot == Some(ticket) then None else s.queuedSnapshot);
    if readFails then
      t.(core := RecordSyncError(s.core), otherLosses := s.otherLosses + 1, doneTickets := ticket)
    else if !s.core.aligned || (s.core.buffer == [] && !otherActivity) then
      t.(doneTickets := ticket)
    else
      t.(core := s.core.(buffer := []), snapshot := Splitting(ticket, s.core.number + 1, s.core.buffer))
  }

  function Ids(events: seq<EventId>): set<EventId> { set e | e in events }

  function Numbers(frames: seq<Frame>): set<nat> { set f | f in frames :: f.number }

  function NumbersInOrder(frames: seq<Frame>): seq<nat> {
    seq<nat>(|frames|, i requires 0 <= i < |frames| => frames[i].number)
  }

  /** The splitter finished: the frames are accepted, or the out-of-sequence error is counted. */
  function DoFinishSnapshot(s: Node, batch: Batch, keep: seq<bool>): Node
    requires s.snapshot.Splitting? && batch.frames != [] && |keep| == |s.snapshot.events|
  {
    if s.snapshot.first != s.core.number + 1 then DoFailSnapshot(s) else
      var overflow := Overflow(s.core, s.limits, batch);
      var gone := (s.core.pending + batch.frames)[..overflow];
      s.(core := AcceptFrameBatch(s.core, s.limits, batch), snapshot := Idle, doneTickets := s.snapshot.ticket,
         lost := s.lost + (Ids(s.snapshot.events) - Ids(Select(s.snapshot.events, keep))) + Ids(EventsOf(gone)),
         lostFrames := s.lostFrames + Numbers(gone),
         otherLosses := s.otherLosses + batch.droppedEvents)
  }

  /** The splitter threw: the captured events are gone. */
  function DoFailSnapshot(s: Node): Node
    requires s.snapshot.Splitting?
  {
    s.(core := RecordSyncError(s.core), snapshot := Idle, doneTickets := s.snapshot.ticket,
       lost := s.lost + Ids(s.snapshot.events), otherLosses := s.otherLosses + 1)
  }

  /** _envelopeEnd takes at least one frame when there is one: see EnvelopePacking. */
  predicate IsEnvelope(frames: seq<Frame>, start: nat, end: nat) {
    if start < |frames| then start < end <= |frames| else end == start == |frames|
  }

  function DoPost(s: Node, batch: seq<Frame>, start: nat, end: nat): Node
    requires s.running.Some? && start <= end <= |batch|
  {
    s.(running := Some(s.running.value.(phase := Posting(batch, start, end))),
       posted := s.posted + NumbersInOrder(batch[start..end]))
  }

  function DoResume(s: Node, end: nat): Node
    requires s.running.Some? && end <= |s.core.pending|
  {
    var t := s.(core := s.core.(pending := []));
    if !s.running.value.SendsEmpty() && s.core.pending == []
    then t.(running := Some(s.running.value.(phase := Sent(true))))
    else DoPost(t, s.core.pending, 0, end)
  }

  function DoFinishPost(s: Node, outcome: PostOutcome, nextEnd: nat): Node
    requires s.running.Some? && s.running.value.phase.Posting?
    requires var p := s.running.value.phase; p.start <= p.end <= |p.batch| && p.end <= nextEnd <= |p.batch|
  {
    var Posting(batch, start, end) := s.running.value.phase;
    if outcome.Rejected? then
      var core := RecordSyncResult(s.core, false, |batch| - start);
      s.(core := core.(aligned := core.aligned || outcome.aligns),
         running := Some(s.running.value.(phase := Sent(false))),
         lost := s.lost + Ids(EventsOf(batch[start..])), lostFrames := s.lostFrames + Numbers(batch[start..]))
    else
      var core := RecordSyncResult(s.core, true, end - start);
      var t := s.(core := core.(aligned := core.aligned || outcome.aligns),
                  acked := s.acked + Ids(EventsOf(batch[start..end])),
                  ackedFrames := s.ackedFrames + Numbers(batch[start..end]));
      if end < |batch| then DoPost(t, batch, end, nextEnd)
      else t.(running := Some(s.running.value.(phase := Sent(true))))
  }

  /**
   The hook throws while an envelope is settled: all frames from its start on are counted as failed, even those
   the server took, and an escaping error counts once more and ends the sync.
   */
  function DoSyncTraceThrows(s: Node, fault: TraceFault): Node
    requires s.running.Some? && s.running.value.phase.Posting?
    requires var p := s.running.value.phase; p.start <= p.end <= |p.batch|
  {
    var Posting(batch, start, end) := s.running.value.phase;
    var settled := if fault.delivered then end else start;
    var failed := if fault.again then 2 * (|batch| - start) else |batch| - start;
    var errors := if fault.escapes then 1 else 0;
    var t := s.(core := s.core.(losses := s.core.losses + failed + errors, aligned := s.core.aligned || fault.aligns),
                running := Some(s.running.value.(phase := Sent(false))),
                acked := s.acked + Ids(EventsOf(batch[start..settled])),
                ackedFrames := s.ackedFrames + Numbers(batch[start..settled]),
                lost := s.lost + Ids(EventsOf(batch[settled..])),
                lostFrames := s.lostFrames + Numbers(batch[settled..]),
                otherLosses := s.otherLosses + failed + errors - (|batch| - settled));
    if fault.escapes then Finish(t, false) else t
  }

  /** A frame hook that throws ends an accepted snapshot with one more error. */
  function DoFrameTraceThrows(s: Node): Node {
    s.(core := RecordSyncError(s.core), otherLosses := s.otherLosses + 1)
  }

  /** The rest of _syncOnceInner after a _sendPending call. */
  function DoAfterSend(s: Node): Node
    requires s.running.Some? && s.running.value.phase.Sent?
  {
    var sync := s.running.value;
    if !sync.phase.ok then Finish(s, false)
    else if sync.second || sync.alignedAtStart || !sync.Forced() then Finish(s, true)
    else if !s.core.aligned then Finish(s, false)
    else BeginSend(s, sync.(second := true))
  }

  function DoResolveFlush(s: Node, index: nat): Node
    requires index < |s.flushes| && s.flushes[index].promise < |s.promises|
    requires s.promises[s.flushes[index].promise].job in s.results
  {
    var flush := s.flushes[index];
    var delivered := s.results[s.promises[flush.promise].job];
    s.(flushes := s.flushes[index := flush.(outcome := Some(delivered && s.core.losses == flush.losses))])
  }

  ghost predicate Enabled(s: Node, a: Action) {
    match a
    case RecordEvent => true
    case TickSync => true
    case TickSnapshot => true
    case CallFlush => true
    case CallShutdown => true
    case StartSync => s.running.None? && s.waiting != []
    case StartSnapshot(_, _) => s.snapshot.Idle? && s.doneTickets < s.lastTicket
    case FinishSnapshot(batch, keep) =>
      s.snapshot.Splitting? && IsSplitOf(batch, s.snapshot.first, s.snapshot.events, keep)
    case FailSnapshot => s.snapshot.Splitting?
    case Resume(end) =>
      && s.running.Some? && s.running.value.phase.AwaitSnapshot?
      && s.running.value.phase.ticket <= s.doneTickets
      && IsEnvelope(s.core.pending, 0, end)
    case FinishPost(outcome, nextEnd) =>
      && s.running.Some? && s.running.value.phase.Posting?
      && var p := s.running.value.phase;
         p.start <= p.end <= |p.batch| && IsEnvelope(p.batch, p.end, nextEnd)
    case SyncTraceThrows(fault) =>
      && s.running.Some? && s.running.value.phase.Posting?
      && (var p := s.running.value.phase; p.start <= p.end <= |p.batch|)
      && (fault.again ==> !fault.delivered) && (fault.delivered || fault.again || fault.escapes)
    case FrameTraceThrows => true
    case AfterSend => s.running.Some? && s.running.value.phase.Sent?
    case ResolveFlush(index) =>
      && index < |s.flushes| && s.flushes[index].outcome.None?
      && s.flushes[index].promise < |s.promises|
      && s.promises[s.flushes[index].promise].job in s.results
  }

  function Step(s: Node, a: Action): Node
    requires Enabled(s, a)
  {
    match a
    case RecordEvent => DoRecordEvent(s)
    case TickSync => EnqueueSync(s, false)
    case TickSnapshot => EnqueueSnapshot(s)
    case CallFlush => DoCallFlush(s)
    case CallShutdown => DoCallShutdown(s)
    case StartSync => DoStartSync(s)
    case StartSnapshot(readFails, otherActivity) => DoStartSnapshot(s, readFails, otherActivity)
    case FinishSnapshot(batch, keep) => DoFinishSnapshot(s, batch, keep)
    case FailSnapshot => DoFailSnapshot(s)
    case Resume(end) => DoResume(s, end)
    case FinishPost(outcome, nextEnd) => DoFinishPost(s, outcome, nextEnd)
    case SyncTraceThrows(fault) => DoSyncTraceThrows(s, fault)
    case FrameTraceThrows => DoFrameTraceThrows(s)
    case AfterSend => DoAfterSend(s)
    case ResolveFlush(index) => DoResolveFlush(s, index)
  }

  /** A run of the client: any steps, in any order, each enabled when it is taken. */
  ghost predicate IsRun(limits: Limits, states: seq<Node>, actions: seq<Action>) {
    && |states| == |actions| + 1
    && states[0] == Initial(limits)
    && forall i :: 0 <= i < |actions| ==> Enabled(states[i], actions[i]) && states[i + 1] == Step(states[i], actions[i])
  }
}
