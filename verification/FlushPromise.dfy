/** The queues of the flush protocol, what a running sync has already taken, and the promise of flush(). */
module FlushPromise {
  import opened Wrappers
  import opened Sequences
  import opened Delivery
  import opened FlushProtocol
  import opened FlushSafety

  function RunningJob(s: Node): Option<nat> {
    if s.running.Some? then Some(s.running.value.job.id) else None
  }

  /** The sync chain holds jobs 1, 2, ... in order; only the bootstrap sync can wait besides the coalesced one. */
  ghost predicate QueueShape(waiting: seq<Job>, queued: Option<nat>, last: nat, running: Option<nat>,
                             results: map<nat, bool>)
  {
    && |waiting| <= last
    && (forall i :: 0 <= i < |waiting| ==> waiting[i].id == last - |waiting| + 1 + i)
    && (forall i :: 0 <= i < |waiting| && waiting[i].bootstrap ==> waiting[i].id == 1)
    && queued == (if waiting == [] then None else Some(last))
    && |waiting| <= 2 && (|waiting| == 2 ==> waiting[0].bootstrap)
    && (running.Some? ==> |waiting| < last && running.value == last - |waiting|)
    && (forall id :: id in results <==> 1 <= id <= last - |waiting| - (if running.Some? then 1 else 0))
  }

  ghost predicate QueueInOrder(s: Node) {
    QueueShape(s.waiting, s.queuedSync, s.lastJob, RunningJob(s), s.results)
  }

  function AwaitedTicket(s: Node): nat {
    if s.running.Some? && s.running.value.phase.AwaitSnapshot? then s.running.value.phase.ticket else 0
  }

  /** At most one snapshot is being taken and at most one more is asked for. */
  ghost predicate SnapshotShape(snapshot: Snapshot, done: nat, last: nat, queued: Option<nat>, awaited: nat) {
    var begun := done + if snapshot.Splitting? then 1 else 0;
    && begun <= last <= begun + 1
    && queued == (if last > begun then Some(last) else None)
    && (snapshot.Splitting? ==> snapshot.ticket == done + 1)
    && awaited <= last
  }

  ghost predicate SnapshotsInOrder(s: Node) {
    && SnapshotShape(s.snapshot, s.doneTickets, s.lastTicket, s.queuedSnapshot, AwaitedTicket(s))
    && (s.snapshot.Splitting? ==> s.core.aligned && s.snapshot.first == s.core.number + 1)
  }

  ghost predicate NoneBefore(events: seq<EventId>, cut: nat) { forall e :: e in events ==> e >= cut }

  /** Nothing recorded before `cut` is anywhere before the batch that is being sent. */
  ghost predicate Taken(s: Node, cut: nat) {
    NoneBefore(EventsOf(s.core.pending), cut) && NoneBefore(BeingSplit(s), cut) && NoneBefore(s.core.buffer, cut)
  }

  /** The sync is past the events recorded before it started, as far as it has got. */
  ghost predicate Progress(s: Node, sync: Sync) {
    match sync.phase
    case AwaitSnapshot(ticket) =>
      && (ticket <= s.doneTickets || (s.snapshot.Splitting? && s.snapshot.ticket == ticket) ==>
         NoneBefore(s.core.buffer, sync.cut))
      && (ticket <= s.doneTickets ==> NoneBefore(BeingSplit(s), sync.cut))
    case Posting(_, _, _) => Taken(s, sync.cut)
    case Sent(ok) => ok ==> Taken(s, sync.cut)
  }

  ghost predicate SyncCovers(s: Node) {
    s.running.Some? ==>
      var sync := s.running.value;
      && sync.cut <= s.Recorded() && sync.mark <= s.core.losses
      && (sync.alignedAtStart || sync.second ==> s.core.aligned)
      && (sync.second ==> sync.Forced())
      && (sync.Forced() && (sync.alignedAtStart || sync.second) && s.core.losses == sync.mark ==> Progress(s, sync))
  }

  ghost predicate Covered(s: Node, upTo: nat) {
    forall e :: 0 <= e < upTo ==> e in s.acked || e in s.lost
  }

  /** A promise waits in a flushing sync, is served by the running one, or its sync has settled everything. */
  ghost predicate PromiseKept(s: Node, p: Promise) {
    && 1 <= p.job <= s.lastJob && p.upTo <= s.Recorded() && p.baseline <= s.core.losses
    && (forall i :: 0 <= i < |s.waiting| && s.waiting[i].id == p.job ==> s.waiting[i].flush)
    && (s.running.Some? && s.running.value.job.id == p.job ==>
        s.running.value.job.flush && p.upTo <= s.running.value.cut && p.baseline <= s.running.value.mark)
    && (p.job in s.results && s.results[p.job] ==> s.core.losses > p.baseline || Covered(s, p.upTo))
  }

  ghost predicate FlushSound(s: Node, f: Flush) {
    && f.promise < |s.promises| && f.losses <= s.core.losses
    && f.upTo == s.promises[f.promise].upTo <= s.Recorded()
    && (f.since < f.upTo ==> f.losses <= s.promises[f.promise].baseline)
    && (forall e :: f.since <= e < f.upTo ==> f.losses <= s.lossesAt[e])
    && (f.outcome == Some(true) ==> forall e :: f.since <= e < f.upTo ==> e in s.acked)
  }

  ghost predicate PromisesKept(s: Node) {
    && (forall i :: 0 <= i < |s.promises| ==> PromiseKept(s, s.promises[i]))
    && (forall i :: 0 <= i < |s.flushes| ==> FlushSound(s, s.flushes[i]))
    && s.flushLosses <= s.core.losses && s.lastFlushAt <= s.Recorded()
    && (forall e :: s.lastFlushAt <= e < s.Recorded() ==> s.flushLosses <= s.lossesAt[e])
    && (s.shutdown.Some? ==>
        && s.shutdown.value < |s.promises|
        && (s.lastFlushAt < s.promises[s.shutdown.value].upTo ==>
           s.flushLosses <= s.promises[s.shutdown.value].baseline))
  }

  ghost predicate Inv(s: Node) {
    && EventsAccounted(s)
    && FramesAccounted(s)
    && PostedOnce(s)
    && QueueInOrder(s)
    && SnapshotsInOrder(s)
    && SyncCovers(s)
    && PromisesKept(s)
  }

  lemma InitialLedgers(limits: Limits)
    ensures EventsAccounted(Initial(limits)) && FramesAccounted(Initial(limits)) && PostedOnce(Initial(limits))
  {
  }

  lemma InitialOrder(limits: Limits)
    ensures var s := Initial(limits); QueueInOrder(s) && SnapshotsInOrder(s) && SyncCovers(s) && PromisesKept(s)
  {
    hide EventsOf, Ids;
  }

  lemma InitialInv(limits: Limits)
    ensures Inv(Initial(limits))
  {
    InitialLedgers(limits);
    InitialOrder(limits);
    hide EventsAccounted, FramesAccounted, PostedOnce, QueueInOrder, SnapshotsInOrder, SyncCovers, PromisesKept,
      Initial;
  }

  lemma CoalescesIff(s: Node)
    requires QueueInOrder(s)
    ensures Coalesces(s) <==> s.waiting != [] && !s.waiting[|s.waiting| - 1].bootstrap
  {
    if s.waiting != [] {
      assert s.waiting[|s.waiting| - 1].id == s.lastJob;
    }
  }

  lemma EnqueueSyncQueue(s: Node, flush: bool)
    requires QueueInOrder(s)
    ensures QueueInOrder(EnqueueSync(s, flush))
  {
    CoalescesIff(s);
  }

  lemma StartSyncQueue(s: Node)
    requires QueueInOrder(s) && Enabled(s, StartSync)
    ensures QueueInOrder(DoStartSync(s))
  {
    var t := DoStartSync(s);
    assert s.waiting[0].id == s.lastJob - |s.waiting| + 1;
    forall i | 0 <= i < |t.waiting| ensures t.waiting[i] == s.waiting[i + 1] {
    }
  }

  lemma AfterSendQueue(s: Node)
    requires QueueInOrder(s) && Enabled(s, AfterSend)
    ensures QueueInOrder(DoAfterSend(s))
  {
  }

  lemma SyncTraceQueue(s: Node, fault: TraceFault)
    requires QueueInOrder(s) && Enabled(s, SyncTraceThrows(fault))
    ensures QueueInOrder(DoSyncTraceThrows(s, fault))
  {
    hide EventsOf, Ids, Numbers;
  }

  /** The steps that do not touch the sync chain. */
  lemma QuietQueue(s: Node, a: Action)
    requires QueueInOrder(s) && Enabled(s, a)
    requires !a.TickSync? && !a.CallFlush? && !a.CallShutdown? && !a.StartSync? && !a.AfterSend? && !a.SyncTraceThrows?
    ensures QueueInOrder(Step(s, a))
  {
    hide QueueShape, EventsOf, Ids, Numbers, NumbersInOrder, IsSplitOf, Select, Event, AcceptFrameBatch;
    hide EnqueueSync, DoCallFlush, DoCallShutdown, DoStartSync, DoAfterSend, DoSyncTraceThrows;
  }

  lemma QueueStep(s: Node, a: Action)
    requires QueueInOrder(s) && Enabled(s, a)
    ensures QueueInOrder(Step(s, a))
  {
    hide QueueShape;
    match a
    case TickSync => EnqueueSyncQueue(s, false);
    case CallFlush => EnqueueSyncQueue(s, true);
    case CallShutdown => EnqueueSyncQueue(s.(stopped := true), true);
    case StartSync => StartSyncQueue(s);
    case AfterSend => AfterSendQueue(s);
    case SyncTraceThrows(fault) => SyncTraceQueue(s, fault);
    case _ => QuietQueue(s, a);
  }

  lemma FinishSnapshotTickets(s: Node, batch: Batch, keep: seq<bool>)
    requires SnapshotsInOrder(s) && Enabled(s, FinishSnapshot(batch, keep))
    ensures SnapshotsInOrder(DoFinishSnapshot(s, batch, keep))
  {
    hide EventsOf, Ids, Numbers, Select;
  }

  lemma StartSyncTickets(s: Node)
    requires SnapshotsInOrder(s) && Enabled(s, StartSync)
    ensures SnapshotsInOrder(DoStartSync(s))
  {
  }

  lemma AfterSendTickets(s: Node)
    requires SnapshotsInOrder(s) && Enabled(s, AfterSend)
    ensures SnapshotsInOrder(DoAfterSend(s))
  {
  }

  lemma FinishPostTickets(s: Node, outcome: PostOutcome, nextEnd: nat)
    requires SnapshotsInOrder(s) && Enabled(s, FinishPost(outcome, nextEnd))
    ensures SnapshotsInOrder(DoFinishPost(s, outcome, nextEnd))
  {
    hide EventsOf, Ids, Numbers, NumbersInOrder;
  }

  lemma TicksAndResume(s: Node, a: Action)
    requires SnapshotsInOrder(s) && Enabled(s, a)
    requires a.TickSnapshot? || a.StartSnapshot? || a.FailSnapshot? || a.Resume? || a.RecordEvent?
      || a.FrameTraceThrows?
    ensures SnapshotsInOrder(Step(s, a))
  {
    hide EventsOf, Ids, Numbers, NumbersInOrder, DoFinishSnapshot, DoFinishPost, DoSyncTraceThrows;
  }

  lemma SyncTraceTickets(s: Node, fault: TraceFault)
    requires SnapshotsInOrder(s) && Enabled(s, SyncTraceThrows(fault))
    ensures SnapshotsInOrder(DoSyncTraceThrows(s, fault))
  {
    hide EventsOf, Ids, Numbers;
  }

  lemma CallsTickets(s: Node, a: Action)
    requires SnapshotsInOrder(s) && Enabled(s, a)
    requires a.TickSync? || a.CallFlush? || a.CallShutdown? || a.ResolveFlush?
    ensures SnapshotsInOrder(Step(s, a))
  {
    hide SnapshotShape;
  }

  lemma SnapshotsStep(s: Node, a: Action)
    requires SnapshotsInOrder(s) && Enabled(s, a)
    ensures SnapshotsInOrder(Step(s, a))
  {
    hide SnapshotsInOrder;
    match a
    case FinishSnapshot(batch, keep) => FinishSnapshotTickets(s, batch, keep);
    case StartSync => StartSyncTickets(s);
    case AfterSend => AfterSendTickets(s);
    case FinishPost(outcome, nextEnd) => FinishPostTickets(s, outcome, nextEnd);
    case SyncTraceThrows(fault) => SyncTraceTickets(s, fault);
    case TickSync => CallsTickets(s, a);
    case CallFlush => CallsTickets(s, a);
    case CallShutdown => CallsTickets(s, a);
    case ResolveFlush(_) => CallsTickets(s, a);
    case _ => TicksAndResume(s, a);
  }

  lemma AcceptedEvents(pending: seq<Frame>, frames: seq<Frame>, overflow: nat, cut: nat)
    requires NoneBefore(EventsOf(pending), cut) && NoneBefore(EventsOf(frames), cut)
    requires overflow <= |pending + frames|
    ensures NoneBefore(EventsOf((pending + frames)[overflow..]), cut)
  {
    EventsOfConcat(pending, frames);
    EventsOfSplit(pending + frames, overflow);
    var all := EventsOf(pending + frames);
    forall e | e in EventsOf((pending + frames)[overflow..]) ensures e >= cut {
      assert e in all;
    }
  }

  lemma FinishSnapshotCovers(s: Node, batch: Batch, keep: seq<bool>)
    requires SyncCovers(s) && SnapshotsInOrder(s) && Enabled(s, FinishSnapshot(batch, keep))
    ensures SyncCovers(DoFinishSnapshot(s, batch, keep))
  {
    var overflow := Overflow(s.core, s.limits, batch);
    if s.running.Some? && NoneBefore(EventsOf(s.core.pending), s.running.value.cut)
      && NoneBefore(BeingSplit(s), s.running.value.cut) {
      AcceptedEvents(s.core.pending, batch.frames, overflow, s.running.value.cut);
    }
    hide EventsOf, Ids, Numbers, Select;
  }

  lemma StartSnapshotCovers(s: Node, readFails: bool, otherActivity: bool)
    requires SyncCovers(s) && SnapshotsInOrder(s) && Enabled(s, StartSnapshot(readFails, otherActivity))
    ensures SyncCovers(DoStartSnapshot(s, readFails, otherActivity))
  {
    hide EventsOf;
  }

  lemma BeginSendCovers(s: Node, sync: Sync)
    requires SnapshotsInOrder(s)
    requires sync.cut <= s.Recorded() && sync.mark <= s.core.losses
    requires (sync.alignedAtStart || sync.second ==> s.core.aligned) && (sync.second ==> sync.Forced())
    ensures SyncCovers(BeginSend(s, sync))
  {
    hide EventsOf;
  }

  lemma FinishPostCovers(s: Node, outcome: PostOutcome, nextEnd: nat)
    requires SyncCovers(s) && Enabled(s, FinishPost(outcome, nextEnd))
    ensures SyncCovers(DoFinishPost(s, outcome, nextEnd))
  {
    hide EventsOf, Ids, Numbers, NumbersInOrder, NoneBefore;
  }

  lemma StartSyncCovers(s: Node)
    requires SyncCovers(s) && SnapshotsInOrder(s) && Enabled(s, StartSync)
    ensures SyncCovers(DoStartSync(s))
  {
    hide EventsOf;
    var job := s.waiting[0];
    var t := s.(waiting := s.waiting[1..], queuedSync := if s.queuedSync == Some(job.id) then None else s.queuedSync);
    BeginSendCovers(t, Sync(job, s.core.aligned, false, Sent(true), s.Recorded(), s.core.losses));
  }

  lemma AfterSendCovers(s: Node)
    requires SyncCovers(s) && SnapshotsInOrder(s) && Enabled(s, AfterSend)
    ensures SyncCovers(DoAfterSend(s))
  {
    hide EventsOf;
    if s.running.value.Forced() && s.core.aligned {
      BeginSendCovers(s, s.running.value.(second := true));
    }
  }

  lemma RecordEventCovers(s: Node)
    requires SyncCovers(s)
    ensures SyncCovers(DoRecordEvent(s))
  {
    hide EventsOf;
  }

  lemma ResumeCovers(s: Node, end: nat)
    requires SyncCovers(s) && Enabled(s, Resume(end))
    ensures SyncCovers(DoResume(s, end))
  {
    EventsOfNone();
    hide EventsOf, NumbersInOrder;
  }

  lemma SameCovers(s: Node, t: Node)
    requires SyncCovers(s)
    requires t.running == s.running && t.core == s.core && t.snapshot == s.snapshot && t.doneTickets == s.doneTickets
    requires t.lossesAt == s.lossesAt
    ensures SyncCovers(t)
  {
    hide EventsOf, NoneBefore;
  }

  lemma FailSnapshotCovers(s: Node)
    requires SyncCovers(s) && Enabled(s, FailSnapshot)
    ensures SyncCovers(DoFailSnapshot(s))
  {
    hide EventsOf, NoneBefore;
  }

  lemma SyncTraceCovers(s: Node, fault: TraceFault)
    requires SyncCovers(s) && Enabled(s, SyncTraceThrows(fault))
    ensures SyncCovers(DoSyncTraceThrows(s, fault))
  {
    hide EventsOf, Ids, Numbers, NoneBefore;
  }

  lemma FrameTraceCovers(s: Node)
    requires SyncCovers(s)
    ensures SyncCovers(DoFrameTraceThrows(s))
  {
    hide EventsOf, NoneBefore;
  }

  lemma CoversStep(s: Node, a: Action)
    requires SyncCovers(s) && SnapshotsInOrder(s) && Enabled(s, a)
    ensures SyncCovers(Step(s, a))
  {
    hide SyncCovers;
    match a
    case FinishSnapshot(batch, keep) => FinishSnapshotCovers(s, batch, keep);
    case StartSnapshot(readFails, otherActivity) => StartSnapshotCovers(s, readFails, otherActivity);
    case FinishPost(outcome, nextEnd) => FinishPostCovers(s, outcome, nextEnd);
    case SyncTraceThrows(fault) => SyncTraceCovers(s, fault);
    case FrameTraceThrows => FrameTraceCovers(s);
    case StartSync => StartSyncCovers(s);
    case AfterSend => AfterSendCovers(s);
    case RecordEvent => RecordEventCovers(s);
    case Resume(end) => ResumeCovers(s, end);
    case FailSnapshot => FailSnapshotCovers(s);
    case TickSync => SameCovers(s, Step(s, a));
    case TickSnapshot => SameCovers(s, Step(s, a));
    case CallFlush => SameCovers(s, Step(s, a));
    case CallShutdown => SameCovers(s, Step(s, a));
    case ResolveFlush(_) => SameCovers(s, Step(s, a));
  }

  /** Steps that only let events, losses and settled events grow keep every promise. */
  lemma GrowthKeepsPromises(s: Node, t: Node)
    requires PromisesKept(s)
    requires t.promises == s.promises && t.flushes == s.flushes && t.shutdown == s.shutdown
    requires t.flushLosses == s.flushLosses && t.lastFlushAt == s.lastFlushAt
    requires t.waiting == s.waiting && t.lastJob == s.lastJob && t.results == s.results
    requires t.running.Some? ==> s.running.Some? && t.running.value.job == s.running.value.job
                                 && t.running.value.cut == s.running.value.cut
                                    && t.running.value.mark == s.running.value.mark
    requires s.lossesAt <= t.lossesAt && s.core.losses <= t.core.losses && s.acked <= t.acked && s.lost <= t.lost
    requires forall e :: s.Recorded() <= e < t.Recorded() ==> t.lossesAt[e] == s.core.losses
    ensures PromisesKept(t)
  {
    forall i | 0 <= i < |t.promises| ensures PromiseKept(t, t.promises[i]) {
      assert PromiseKept(s, s.promises[i]);
    }
    forall i | 0 <= i < |t.flushes| ensures FlushSound(t, t.flushes[i]) {
      assert FlushSound(s, s.flushes[i]);
    }
  }

  lemma EnqueueKeepsPromise(s: Node, flush: bool, p: Promise)
    requires PromiseKept(s, p) && QueueInOrder(s)
    ensures PromiseKept(EnqueueSync(s, flush), p)
  {
    CoalescesIff(s);
    hide Coalesces;
  }

  lemma EnqueueMakesPromise(s: Node)
    requires QueueInOrder(s)
    ensures PromiseKept(EnqueueSync(s, true), Promise(EnqueueSync(s, true).lastJob, s.Recorded(), s.core.losses))
  {
    CoalescesIff(s);
    hide Coalesces;
  }

  lemma EnqueueKeepsPromises(s: Node, flush: bool)
    requires PromisesKept(s) && QueueInOrder(s)
    ensures PromisesKept(EnqueueSync(s, flush))
    ensures flush ==>
      PromiseKept(EnqueueSync(s, flush), Promise(EnqueueSync(s, flush).lastJob, s.Recorded(), s.core.losses))
  {
    var t := EnqueueSync(s, flush);
    if flush { EnqueueMakesPromise(s); }
    hide PromiseKept, Coalesces, QueueInOrder;
    forall i | 0 <= i < |t.promises| ensures PromiseKept(t, t.promises[i]) {
      EnqueueKeepsPromise(s, flush, s.promises[i]);
    }
    forall i | 0 <= i < |t.flushes| ensures FlushSound(t, t.flushes[i]) {
      assert FlushSound(s, s.flushes[i]);
    }
  }

  lemma CallFlushKeeps(s: Node)
    requires PromisesKept(s) && QueueInOrder(s)
    ensures var t := DoCallFlush(s); forall i :: 0 <= i < |t.promises| ==> PromiseKept(t, t.promises[i])
  {
    EnqueueKeepsPromises(s, true);
    var q, t := EnqueueSync(s, true), DoCallFlush(s);
    hide Coalesces, EnqueueSync;
    forall i | 0 <= i < |t.promises| ensures PromiseKept(t, t.promises[i]) {
      if s.shutdown.Some? { assert PromiseKept(s, s.promises[i]); }
      else if i < |s.promises| { assert PromiseKept(q, q.promises[i]); }
    }
  }

  lemma OldFlushSound(s: Node, i: nat)
    requires PromisesKept(s) && i < |s.flushes|
    ensures FlushSound(DoCallFlush(s), s.flushes[i])
  {
    hide Coalesces;
    assert FlushSound(s, s.flushes[i]);
  }

  lemma NewFlushSound(s: Node)
    requires PromisesKept(s)
    ensures FlushSound(DoCallFlush(s), DoCallFlush(s).flushes[|s.flushes|])
  {
    hide Coalesces;
    if s.shutdown.Some? { assert PromiseKept(s, s.promises[s.shutdown.value]); }
  }

  /** What shutdown() promised lies before the new call. */
  lemma CallAfterShutdown(s: Node)
    requires PromisesKept(s) && s.shutdown.Some?
    ensures s.promises[s.shutdown.value].upTo <= DoCallFlush(s).lastFlushAt
  {
    assert PromiseKept(s, s.promises[s.shutdown.value]);
  }

  lemma CallFlushPromises(s: Node)
    requires PromisesKept(s) && QueueInOrder(s)
    ensures PromisesKept(DoCallFlush(s))
  {
    hide Coalesces, PromiseKept, FlushSound, QueueInOrder;
    CallFlushKeeps(s);
    if s.shutdown.Some? { CallAfterShutdown(s); }
    var t := DoCallFlush(s);
    forall i | 0 <= i < |t.flushes| ensures FlushSound(t, t.flushes[i]) {
      if i < |s.flushes| { OldFlushSound(s, i); } else { NewFlushSound(s); }
    }
  }

  lemma CallShutdownPromises(s: Node)
    requires PromisesKept(s) && QueueInOrder(s)
    ensures PromisesKept(DoCallShutdown(s))
  {
    var u := s.(stopped := true);
    GrowthKeepsPromises(s, u);
    EnqueueKeepsPromises(u, true);
    var q, t := EnqueueSync(u, true), DoCallShutdown(s);
    if s.shutdown.None? {
      forall i | 0 <= i < |t.promises| ensures PromiseKept(t, t.promises[i]) {
        if i < |s.promises| { assert PromiseKept(q, q.promises[i]); }
      }
      forall i | 0 <= i < |t.flushes| ensures FlushSound(t, t.flushes[i]) {
        assert FlushSound(q, q.flushes[i]);
      }
    }
  }

  lemma StartSyncPromises(s: Node)
    requires PromisesKept(s) && QueueInOrder(s) && Enabled(s, StartSync)
    ensures PromisesKept(DoStartSync(s))
  {
    hide EventsOf, PromiseKept, QueueInOrder;
    var t := DoStartSync(s);
    forall i | 0 <= i < |t.promises| ensures PromiseKept(t, t.promises[i]) {
      StartSyncKeepsPromise(s, s.promises[i]);
    }
    forall i | 0 <= i < |t.flushes| ensures FlushSound(t, t.flushes[i]) {
      assert FlushSound(s, s.flushes[i]);
    }
  }

  lemma StartSyncKeepsPromise(s: Node, p: Promise)
    requires PromiseKept(s, p) && QueueInOrder(s) && Enabled(s, StartSync)
    ensures PromiseKept(DoStartSync(s), p)
  {
    hide EventsOf;
    var t := DoStartSync(s);
    forall j | 0 <= j < |t.waiting| ensures t.waiting[j] == s.waiting[j + 1] {
    }
    assert s.waiting[0].id == p.job ==> s.waiting[0].flush;
  }

  /** When the sync has sent all it took, the ledger leaves no other place for what was recorded before it started. */
  lemma AllSettled(s: Node)
    requires EventsAccounted(s) && SyncCovers(s) && Enabled(s, AfterSend)
    requires var sync := s.running.value;
      sync.phase.ok && sync.Forced() && (sync.alignedAtStart || sync.second) && s.core.losses == sync.mark
    ensures Covered(s, s.running.value.cut)
  {
    EventsOfNone();
    hide EventsOf;
    var cut := s.running.value.cut;
    assert Taken(s, cut);
    forall e | 0 <= e < cut ensures e in s.acked || e in s.lost {
      assert e !in Live(s);
    }
  }

  lemma FinishPromises(s: Node, ok: bool)
    requires PromisesKept(s) && QueueInOrder(s) && s.running.Some?
    requires var sync := s.running.value;
      ok && sync.job.flush ==> s.core.losses > sync.mark || Covered(s, sync.cut)
    ensures PromisesKept(Finish(s, ok))
  {
    var t := Finish(s, ok);
    forall i | 0 <= i < |t.promises| ensures PromiseKept(t, t.promises[i]) {
      assert PromiseKept(s, s.promises[i]);
    }
    forall i | 0 <= i < |t.flushes| ensures FlushSound(t, t.flushes[i]) {
      assert FlushSound(s, s.flushes[i]);
    }
  }

  lemma BeginSendPromises(s: Node)
    requires PromisesKept(s) && s.running.Some?
    ensures PromisesKept(BeginSend(s, s.running.value.(second := true)))
  {
    hide PromisesKept;
    GrowthKeepsPromises(s, BeginSend(s, s.running.value.(second := true)));
  }

  lemma AfterSendPromises(s: Node)
    requires EventsAccounted(s) && SyncCovers(s) && PromisesKept(s) && QueueInOrder(s) && Enabled(s, AfterSend)
    ensures PromisesKept(DoAfterSend(s))
  {
    var sync := s.running.value;
    if sync.phase.ok && sync.Forced() && (sync.alignedAtStart || sync.second) && s.core.losses == sync.mark {
      AllSettled(s);
    }
    assert sync.mark <= s.core.losses;
    hide EventsAccounted, EventsOf, Taken, Progress, QueueInOrder, PromisesKept, BeginSend, Finish, Covered;
    if sync.phase.ok && !(sync.second || sync.alignedAtStart || !sync.Forced()) && s.core.aligned {
      BeginSendPromises(s);
    } else {
      FinishPromises(s, sync.phase.ok && (sync.second || sync.alignedAtStart || !sync.Forced()));
    }
  }

  /** A flush that finds its sync delivered and the counter where it was vouches for every event in its window. */
  lemma ResolveFlushPromises(s: Node, index: nat)
    requires EventsAccounted(s) && PromisesKept(s) && Enabled(s, ResolveFlush(index))
    ensures PromisesKept(DoResolveFlush(s, index))
  {
    hide Live, EventsOf;
    var t, f := DoResolveFlush(s, index), s.flushes[index];
    forall i | 0 <= i < |t.promises| ensures PromiseKept(t, t.promises[i]) {
      assert PromiseKept(s, s.promises[i]);
    }
    assert PromiseKept(s, s.promises[f.promise]);
    forall i | 0 <= i < |t.flushes| ensures FlushSound(t, t.flushes[i]) {
      assert FlushSound(s, s.flushes[i]);
    }
  }

  lemma SnapshotKeepsPromises(s: Node, a: Action)
    requires PromisesKept(s) && Enabled(s, a)
    requires a.TickSnapshot? || a.StartSnapshot? || a.FinishSnapshot? || a.FailSnapshot?
    ensures PromisesKept(Step(s, a))
  {
    hide PromisesKept, EventsOf, Ids, Numbers, Select, IsSplitOf;
    GrowthKeepsPromises(s, Step(s, a));
  }

  lemma SendingKeepsPromises(s: Node, a: Action)
    requires PromisesKept(s) && Enabled(s, a)
    requires a.RecordEvent? || a.Resume? || a.FinishPost? || a.FrameTraceThrows?
    ensures PromisesKept(Step(s, a))
  {
    hide PromisesKept, EventsOf, Ids, Numbers, NumbersInOrder;
    GrowthKeepsPromises(s, Step(s, a));
  }

  /** An error that escapes the tracer finishes the sync without a delivery. */
  lemma SyncTracePromises(s: Node, fault: TraceFault)
    requires PromisesKept(s) && QueueInOrder(s) && Enabled(s, SyncTraceThrows(fault))
    ensures PromisesKept(DoSyncTraceThrows(s, fault))
  {
    var kept := DoSyncTraceThrows(s, fault).(running := s.running, results := s.results);
    hide PromisesKept, EventsOf, Ids, Numbers;
    GrowthKeepsPromises(s, kept);
    if fault.escapes {
      assert QueueInOrder(kept);
      FinishPromises(kept, false);
    } else {
      GrowthKeepsPromises(s, DoSyncTraceThrows(s, fault));
    }
  }

  lemma PromisesStep(s: Node, a: Action)
    requires EventsAccounted(s) && SyncCovers(s) && QueueInOrder(s) && PromisesKept(s) && Enabled(s, a)
    ensures PromisesKept(Step(s, a))
  {
    hide PromisesKept, EventsAccounted, QueueInOrder, SyncCovers;
    match a
    case TickSync => EnqueueKeepsPromises(s, false);
    case CallFlush => CallFlushPromises(s);
    case CallShutdown => CallShutdownPromises(s);
    case StartSync => StartSyncPromises(s);
    case AfterSend => AfterSendPromises(s);
    case ResolveFlush(index) => ResolveFlushPromises(s, index);
    case RecordEvent => SendingKeepsPromises(s, a);
    case Resume(end) => SendingKeepsPromises(s, a);
    case FinishPost(outcome, nextEnd) => SendingKeepsPromises(s, a);
    case FrameTraceThrows => SendingKeepsPromises(s, a);
    case SyncTraceThrows(fault) => SyncTracePromises(s, fault);
    case _ => SnapshotKeepsPromises(s, a);
  }

  lemma InvStep(s: Node, a: Action)
    requires Inv(s) && Enabled(s, a)
    ensures Inv(Step(s, a))
  {
    assert SnapshotsInOrder(s);
    EventsStep(s, a);
    FramesStep(s, a);
    PostedStep(s, a);
    QueueStep(s, a);
    SnapshotsStep(s, a);
    CoversStep(s, a);
    PromisesStep(s, a);
    hide PromisesKept, EventsAccounted, FramesAccounted, PostedOnce, QueueInOrder, SnapshotsInOrder, SyncCovers, Step;
  }

  lemma {:induction false} RunInv(limits: Limits, states: seq<Node>, actions: seq<Action>, k: nat)
    requires IsRun(limits, states, actions) && k <= |actions|
    ensures Inv(states[k])
  {
    if k == 0 {
      InitialInv(limits);
    } else {
      RunInv(limits, states, actions, k - 1);
      InvStep(states[k - 1], actions[k - 1]);
    }
  }

  /** What a step leaves alone: the window of every flush() made so far, and the place where the next one starts. */
  lemma StepKeepsWindows(s: Node, a: Action)
    requires Enabled(s, a)
    ensures var t := Step(s, a);
      && |s.flushes| <= |t.flushes|
      && (forall i :: 0 <= i < |s.flushes| ==>
         t.flushes[i].since == s.flushes[i].since && t.flushes[i].upTo == s.flushes[i].upTo)
      && (!a.CallFlush? ==> t.lastFlushAt == s.lastFlushAt)
  {
    hide EventsOf, Ids, Numbers, NumbersInOrder, Select, IsSplitOf, Event, AcceptFrameBatch, Overflow, Consecutive,
      Coalesces;
    match a
    case CallFlush =>
    case ResolveFlush(_) =>
    case FinishPost(_, _) =>
    case AfterSend =>
    case StartSync =>
    case _ =>
  }

  lemma {:induction false} WindowStays(limits: Limits, states: seq<Node>, actions: seq<Action>, first: nat, last: nat,
                                       index: nat)
    requires IsRun(limits, states, actions) && first <= last <= |actions| && index < |states[first].flushes|
    ensures index < |states[last].flushes|
    ensures states[last].flushes[index].since == states[first].flushes[index].since
    ensures states[last].flushes[index].upTo == states[first].flushes[index].upTo
    decreases last
  {
    hide Step, Enabled;
    if last > first {
      WindowStays(limits, states, actions, first, last - 1, index);
      StepKeepsWindows(states[last - 1], actions[last - 1]);
    }
  }

  lemma {:induction false} WindowStart(limits: Limits, states: seq<Node>, actions: seq<Action>, first: nat, last: nat)
    requires IsRun(limits, states, actions) && first <= last <= |actions|
    requires forall i :: first <= i < last ==> !actions[i].CallFlush?
    ensures states[last].lastFlushAt == states[first].lastFlushAt
    decreases last
  {
    hide Step, Enabled;
    if last > first {
      WindowStart(limits, states, actions, first, last - 1);
      StepKeepsWindows(states[last - 1], actions[last - 1]);
    }
  }

  /** The window of a flush() call: from the state just after the previous call to the state in which it is made. */
  lemma WindowOf(limits: Limits, states: seq<Node>, actions: seq<Action>, previous: nat, call: nat, later: nat)
    requires IsRun(limits, states, actions) && previous <= call < later <= |actions|
    requires previous == 0 || actions[previous - 1].CallFlush?
    requires actions[call].CallFlush? && states[call].shutdown.None?
    requires forall i :: previous <= i < call ==> !actions[i].CallFlush?
    ensures |states[call].flushes| < |states[later].flushes|
    ensures var f := states[later].flushes[|states[call].flushes|];
      f.since == states[previous].Recorded() && f.upTo == states[call].Recorded()
  {
    WindowStart(limits, states, actions, previous, call);
    assert states[previous].lastFlushAt == states[previous].Recorded() by {
      if previous > 0 { assert states[previous] == DoCallFlush(states[previous - 1]); }
    }
    assert states[call + 1] == DoCallFlush(states[call]);
    WindowStays(limits, states, actions, call + 1, later, |states[call].flushes|);
  }

  /**
   The promise of flush(), over every interleaving: when a flush() made before shutdown() has resolved with
   ok, every event recorded between the previous flush() call and this one was acknowledged by the server.
   */
  lemma FlushVouches(limits: Limits, states: seq<Node>, actions: seq<Action>, previous: nat, call: nat, later: nat,
                     e: EventId)
    requires IsRun(limits, states, actions) && previous <= call < later <= |actions|
    requires previous == 0 || actions[previous - 1].CallFlush?
    requires actions[call].CallFlush? && states[call].shutdown.None?
    requires forall i :: previous <= i < call ==> !actions[i].CallFlush?
    requires states[previous].Recorded() <= e < states[call].Recorded()
    ensures |states[call].flushes| < |states[later].flushes|
    ensures states[later].flushes[|states[call].flushes|].outcome == Some(true) ==> e in states[later].acked
  {
    WindowOf(limits, states, actions, previous, call, later);
    RunInv(limits, states, actions, later);
    assert FlushSound(states[later], states[later].flushes[|states[call].flushes|]);
  }

  /** After shutdown() the promise it made stays the one that later calls share. */
  lemma StepKeepsShutdown(s: Node, a: Action)
    requires Enabled(s, a) && s.shutdown.Some? && s.shutdown.value < |s.promises|
    ensures var t := Step(s, a);
      t.shutdown == s.shutdown && s.shutdown.value < |t.promises|
      && t.promises[s.shutdown.value].upTo == s.promises[s.shutdown.value].upTo
  {
    hide EventsOf, Ids, Numbers, NumbersInOrder, Select, IsSplitOf, Event, AcceptFrameBatch, Overflow, Consecutive,
      Coalesces;
    match a
    case FinishPost(_, _) =>
    case AfterSend =>
    case StartSync =>
    case _ =>
  }

  lemma {:induction false} ShutdownStays(limits: Limits, states: seq<Node>, actions: seq<Action>, first: nat, last: nat)
    requires IsRun(limits, states, actions) && first <= last <= |actions|
    requires states[first].shutdown.Some? && states[first].shutdown.value < |states[first].promises|
    ensures var v := states[first].shutdown.value;
      states[last].shutdown == Some(v) && v < |states[last].promises|
      && states[last].promises[v].upTo == states[first].promises[v].upTo
    decreases last
  {
    hide Step, Enabled;
    if last > first {
      ShutdownStays(limits, states, actions, first, last - 1);
      StepKeepsShutdown(states[last - 1], actions[last - 1]);
    }
  }

  /** The window of a flush() call after shutdown(): from the previous call to the shutdown() call. */
  lemma LateWindowOf(limits: Limits, states: seq<Node>, actions: seq<Action>, stop: nat, previous: nat, call: nat,
                     later: nat)
    requires IsRun(limits, states, actions) && previous <= call < later <= |actions| && stop < call
    requires previous == 0 || actions[previous - 1].CallFlush?
    requires actions[stop].CallShutdown? && states[stop].shutdown.None?
    requires actions[call].CallFlush? && forall i :: previous <= i < call ==> !actions[i].CallFlush?
    ensures |states[call].flushes| < |states[later].flushes|
    ensures var f := states[later].flushes[|states[call].flushes|];
      f.since == states[previous].Recorded() && f.upTo == states[stop].Recorded()
  {
    WindowStart(limits, states, actions, previous, call);
    assert states[previous].lastFlushAt == states[previous].Recorded() by {
      if previous > 0 { assert states[previous] == DoCallFlush(states[previous - 1]); }
    }
    assert states[stop + 1] == DoCallShutdown(states[stop]);
    hide EnqueueSync;
    ShutdownStays(limits, states, actions, stop + 1, call);
    assert states[call + 1] == DoCallFlush(states[call]);
    WindowStays(limits, states, actions, call + 1, later, |states[call].flushes|);
  }

  /**
   A flush() call after shutdown() vouches for what shutdown() could still send: when it has resolved with ok,
   every event recorded between the previous flush() call and the shutdown() call was acknowledged.
   */
  lemma LateFlushVouches(limits: Limits, states: seq<Node>, actions: seq<Action>, stop: nat, previous: nat, call: nat,
                         later: nat, e: EventId)
    requires IsRun(limits, states, actions) && previous <= call < later <= |actions| && stop < call
    requires previous == 0 || actions[previous - 1].CallFlush?
    requires actions[stop].CallShutdown? && states[stop].shutdown.None?
    requires actions[call].CallFlush? && forall i :: previous <= i < call ==> !actions[i].CallFlush?
    requires states[previous].Recorded() <= e < states[stop].Recorded()
    ensures |states[call].flushes| < |states[later].flushes|
    ensures states[later].flushes[|states[call].flushes|].outcome == Some(true) ==> e in states[later].acked
  {
    LateWindowOf(limits, states, actions, stop, previous, call, later);
    RunInv(limits, states, actions, later);
    assert FlushSound(states[later], states[later].flushes[|states[call].flushes|]);
  }

  /** Where event `e` is. */
  function Places(s: Node, e: EventId): nat {
    (if e in EventsOf(Unsent(s)) then 1 else 0) + (if e in EventsOf(s.core.pending) then 1 else 0)
    + (if e in BeingSplit(s) then 1 else 0) + (if e in s.core.buffer then 1 else 0)
    + (if e in s.acked then 1 else 0) + (if e in s.lost then 1 else 0)
  }

  lemma OnePlace(a: seq<nat>, b: seq<nat>, c: seq<nat>, d: seq<nat>, e: nat)
    requires Increasing(a + b + c + d) && e in a + b + c + d
    ensures (if e in a then 1 else 0) + (if e in b then 1 else 0) + (if e in c then 1 else 0)
      + (if e in d then 1 else 0) == 1
  {
    if e in a { Assoc(a, b, c, d); assert [] + a + (b + c + d) == a + b + c + d; Apart([], a, b + c + d, e); }
    if e in b { Assoc(a, b, c, d); assert a + b + (c + d) == a + b + c + d; Apart(a, b, c + d, e); }
    if e in c { Apart(a + b, c, d, e); }
  }

  /** In every reachable state every recorded event is in exactly one place, and lost ones moved the loss counter. */
  lemma EventConservation(limits: Limits, states: seq<Node>, actions: seq<Action>, k: nat, e: EventId)
    requires IsRun(limits, states, actions) && k <= |actions| && e < states[k].Recorded()
    ensures Places(states[k], e) == 1
    ensures e in states[k].lost ==> states[k].lossesAt[e] < states[k].core.losses
  {
    RunInv(limits, states, actions, k);
    var s := states[k];
    hide EventsOf;
    if e in Live(s) {
      OnePlace(EventsOf(Unsent(s)), EventsOf(s.core.pending), BeingSplit(s), s.core.buffer, e);
    }
  }

  /** How many of the four fates frame `n` has met. */
  function Fates(s: Node, n: nat): nat {
    (if n in s.ackedFrames then 1 else 0) + (if n in s.lostFrames then 1 else 0)
    + (if n in Numbers(s.core.pending) then 1 else 0) + (if n in Numbers(Unsent(s)) then 1 else 0)
  }

  lemma OneFate(s: Node, n: nat)
    requires FramesAccounted(s) && 1 <= n <= s.core.number
    ensures Fates(s, n) == 1
  {
    ConsecutiveNumbers(s.core.pending, s.core.number - |s.core.pending| + 1);
    ConsecutiveNumbers(Unsent(s), FirstUnsent(s));
    hide Numbers, Unsent, FirstUnsent, Consecutive;
  }

  /**
   In every reachable state each of the accepted frames 1 .. number is exactly one of acknowledged, pending, in
   flight and counted as lost, and there are no others; the pending ones are the newest and no more than the
   limit; no frame was posted twice; and the splitter never meets the out-of-sequence error.
   */
  lemma FrameConservation(limits: Limits, states: seq<Node>, actions: seq<Action>, k: nat)
    requires IsRun(limits, states, actions) && k <= |actions|
    ensures var s := states[k];
      && |s.core.pending| <= limits.maxPending && |s.core.pending| <= s.core.number
      && Consecutive(s.core.pending, s.core.number - |s.core.pending| + 1)
      && (forall n :: 1 <= n <= s.core.number ==> Fates(s, n) == 1)
      && s.core.number == |s.ackedFrames| + |s.core.pending| + |Unsent(s)| + |s.lostFrames|
      && s.core.losses == |s.lostFrames| + s.otherLosses
      && Increasing(s.posted)
      && (s.snapshot.Splitting? ==> s.snapshot.first == s.core.number + 1)
      && |s.waiting| <= 2
  {
    RunInv(limits, states, actions, k);
    LimitsStay(limits, states, actions, k);
    FramesSplit(states[k]);
    forall n | 1 <= n <= states[k].core.number ensures Fates(states[k], n) == 1 { OneFate(states[k], n); }
    hide Fates;
  }

  /** The settled numbers and those in flight are all the numbers before the pending ones, each once. */
  lemma FramesSplit(s: Node)
    requires FramesAccounted(s)
    ensures s.core.number == |s.ackedFrames| + |s.core.pending| + |Unsent(s)| + |s.lostFrames|
  {
    var settled := Run(1, s.core.number - |s.core.pending|);
    var sent := Run(FirstUnsent(s), |Unsent(s)|);
    RunSize(1, s.core.number - |s.core.pending|);
    RunSize(FirstUnsent(s), |Unsent(s)|);
    assert settled == s.ackedFrames + s.lostFrames + sent;
    assert sent !! s.ackedFrames + s.lostFrames;
  }

  lemma StepKeepsLimits(s: Node, a: Action)
    requires Enabled(s, a)
    ensures Step(s, a).limits == s.limits
  {
    hide EventsOf, Ids, Numbers, NumbersInOrder, Select, IsSplitOf, Event, AcceptFrameBatch;
  }

  lemma {:induction false} LimitsStay(limits: Limits, states: seq<Node>, actions: seq<Action>, k: nat)
    requires IsRun(limits, states, actions) && k <= |actions|
    ensures states[k].limits == limits
  {
    hide Step, Enabled;
    if k > 0 {
      LimitsStay(limits, states, actions, k - 1);
      StepKeepsLimits(states[k - 1], actions[k - 1]);
    }
  }
}
