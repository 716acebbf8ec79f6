/** What every reachable state of the flush protocol satisfies, and the promise of flush() that follows. */
module FlushSafety {
  import opened Wrappers
  import opened Sequences
  import opened Delivery
  import opened FlushProtocol

  // Events: where they are, and when the loss counter moves

  function Unsent(s: Node): seq<Frame> {
    if s.running.Some? && s.running.value.phase.Posting? && s.running.value.phase.start <= |s.running.value.phase.batch|
    then s.running.value.phase.batch[s.running.value.phase.start..]
    else []
  }

  function BeingSplit(s: Node): seq<EventId> {
    if s.snapshot.Splitting? then s.snapshot.events else []
  }

  /** The events on their way to the server, oldest first: in flight, pending, being split, buffered. */
  function Live(s: Node): seq<EventId> {
    EventsOf(Unsent(s)) + EventsOf(s.core.pending) + BeingSplit(s) + s.core.buffer
  }

  /** Every recorded event is in exactly one place, nothing overtakes anything, and no loss goes uncounted. */
  ghost predicate EventLedger(live: seq<EventId>, lossesAt: seq<nat>, losses: nat, acked: set<EventId>,
                              lost: set<EventId>)
  {
    && Increasing(live)
    && acked !! lost
    && (forall e :: e in live ==> e < |lossesAt| && e !in acked && e !in lost)
    && (forall e :: e in acked ==> e < |lossesAt|)
    && (forall e :: e in lost ==> e < |lossesAt| && lossesAt[e] < losses)
    && (forall e :: 0 <= e < |lossesAt| ==> e in live || e in acked || e in lost)
    && (forall i :: 0 <= i < |lossesAt| ==> lossesAt[i] <= losses)
  }

  ghost predicate EventsAccounted(s: Node) {
    EventLedger(Live(s), s.lossesAt, s.core.losses, s.acked, s.lost)
  }

  lemma LedgerRecord(live: seq<EventId>, lossesAt: seq<nat>, losses: nat, acked: set<EventId>, lost: set<EventId>)
    requires EventLedger(live, lossesAt, losses, acked, lost)
    ensures EventLedger(live + [|lossesAt|], lossesAt + [losses], losses, acked, lost)
    ensures EventLedger(live, lossesAt + [losses], losses + 1, acked, lost + {|lossesAt|})
  {
    var n := |lossesAt|;
    assert n !in live && n !in acked && n !in lost;
    var t := live + [n];
    forall i, j | 0 <= i < j < |t| ensures t[i] < t[j] {
      assert t[i] in live;
    }
    forall e | 0 <= e < n + 1 ensures e in t || e in acked || e in lost {
      assert t[|live|] == n;
      if e < n && e in live {
        var k :| 0 <= k < |live| && live[k] == e;
        assert t[k] == e;
      }
    }
  }

  lemma EventsOfNone()
    ensures EventsOf([]) == []
  {
  }

  /** Part of the events on their way is lost, and the counter moves. */
  lemma LedgerLose(a: seq<EventId>, b: seq<EventId>, c: seq<EventId>, kept: seq<EventId>,
                   lossesAt: seq<nat>, losses: nat, losses': nat, acked: set<EventId>, lost: set<EventId>)
    requires EventLedger(a + b + c, lossesAt, losses, acked, lost)
    requires Increasing(kept) && forall e :: e in kept ==> e in b
    requires losses <= losses' && ((forall e :: e in b ==> e in kept) || losses < losses')
    ensures EventLedger(a + kept + c, lossesAt, losses', acked, lost + (Ids(b) - Ids(kept)))
  {
    Thin(a, b, c, kept);
    var live, live' := a + b + c, a + kept + c;
    forall e ensures e in live <==> e in a || e in b || e in c {
    }
    forall e ensures e in live' <==> e in a || e in kept || e in c {
    }
    forall e | e in Ids(b) - Ids(kept) ensures e in live && e !in live' {
      Apart(a, b, c, e);
    }
  }

  lemma Apart(a: seq<EventId>, b: seq<EventId>, c: seq<EventId>, e: EventId)
    requires Increasing(a + b + c) && e in b
    ensures e in a + b + c && e !in a && e !in c
  {
    var s := a + b + c;
    var k :| 0 <= k < |b| && b[k] == e;
    assert s[|a| + k] == e;
    forall i | 0 <= i < |a| ensures a[i] != e { assert s[i] == a[i]; }
    forall i | 0 <= i < |c| ensures c[i] != e { assert s[|a| + |b| + i] == c[i]; }
  }

  lemma LastIncreasing(a: seq<EventId>, b: seq<EventId>)
    requires Increasing(a + b)
    ensures Increasing(b)
  {
    forall i, j | 0 <= i < j < |b| ensures b[i] < b[j] {
      assert (a + b)[|a| + i] == b[i] && (a + b)[|a| + j] == b[j];
    }
  }

  /** The oldest events on their way are acknowledged. */
  lemma LedgerAck(a: seq<EventId>, b: seq<EventId>, lossesAt: seq<nat>, losses: nat, acked: set<EventId>,
                  lost: set<EventId>)
    requires EventLedger(a + b, lossesAt, losses, acked, lost)
    ensures EventLedger(b, lossesAt, losses, acked + Ids(a), lost)
  {
    LastIncreasing(a, b);
    forall e | e in a ensures e !in b {
      assert [] + a + b == a + b;
      Apart([], a, b, e);
    }
    hide Increasing;
    forall e ensures e in a + b <==> e in a || e in b {
    }
  }

  /** A split loses what did not fit any frame and what the oldest frames held that had to go. */
  lemma FinishLedger(a: seq<EventId>, b: seq<EventId>, c: seq<EventId>, keep: seq<bool>, pending: seq<Frame>,
                     frames: seq<Frame>,
                     overflow: nat, lossesAt: seq<nat>, losses: nat, acked: set<EventId>, lost: set<EventId>)
    requires |keep| == |b| && EventsOf(frames) == Select(b, keep) && overflow <= |pending + frames|
    requires EventLedger(a + EventsOf(pending) + b + c, lossesAt, losses, acked, lost)
    ensures var all, kept := pending + frames, Select(b, keep);
      EventLedger(a + EventsOf(all[overflow..]) + [] + c, lossesAt, losses + overflow + (|b| - |kept|), acked,
                  lost + (Ids(b) - Ids(kept)) + Ids(EventsOf(all[..overflow])))
  {
    hide *;
    var p, kept, all := EventsOf(pending), Select(b, keep), pending + frames;
    var gone, stay := EventsOf(all[..overflow]), EventsOf(all[overflow..]);
    var mid, lost' := losses + (|b| - |kept|), lost + (Ids(b) - Ids(kept));
    Middle(a + p, b, c, lossesAt, losses, acked, lost);
    SelectIncreasing(b, keep);
    if |kept| == |b| { SelectAll(b, keep); }
    LedgerLose(a + p, b, c, kept, lossesAt, losses, mid, acked, lost);
    EventsOfConcat(pending, frames);
    EventsOfSplit(all, overflow);
    NothingGone(all, overflow);
    Regroup(a, p, kept, gone, stay, c);
    LoseOldest(a, gone, stay, c, lossesAt, mid, mid + overflow, acked, lost');
  }

  lemma LoseOldest(a: seq<EventId>, gone: seq<EventId>, stay: seq<EventId>, c: seq<EventId>,
                   lossesAt: seq<nat>, losses: nat, losses': nat, acked: set<EventId>, lost: set<EventId>)
    requires EventLedger(a + gone + (stay + c), lossesAt, losses, acked, lost)
    requires losses <= losses' && (gone == [] || losses < losses')
    ensures EventLedger(a + stay + [] + c, lossesAt, losses', acked, lost + Ids(gone))
  {
    NoIds(gone);
    hide EventLedger, Ids;
    LedgerLose(a, gone, stay + c, [], lossesAt, losses, losses', acked, lost);
    Emptied(a, stay, c);
  }

  lemma NothingGone(all: seq<Frame>, overflow: nat)
    requires overflow <= |all|
    ensures overflow == 0 ==> EventsOf(all[..overflow]) == []
  {
    if overflow == 0 { assert all[..0] == []; }
  }

  lemma NoIds(gone: seq<EventId>)
    ensures Ids(gone) - Ids([]) == Ids(gone)
  {
  }

  /** Where a finished split leaves the events. */
  lemma FinishPlaces(s: Node, batch: Batch, keep: seq<bool>)
    requires Enabled(s, FinishSnapshot(batch, keep)) && s.snapshot.first == s.core.number + 1
    ensures var all, overflow, b := s.core.pending + batch.frames, Overflow(s.core, s.limits, batch), BeingSplit(s);
      && overflow <= |all| && |keep| == |b| && EventsOf(batch.frames) == Select(b, keep)
      && (EventsAccounted(DoFinishSnapshot(s, batch, keep)) <==>
          EventLedger(EventsOf(Unsent(s)) + EventsOf(all[overflow..]) + [] + s.core.buffer, s.lossesAt,
                      s.core.losses + overflow + (|b| - |Select(b, keep)|), s.acked,
                      s.lost + (Ids(b) - Ids(Select(b, keep))) + Ids(EventsOf(all[..overflow]))))
  {
    hide EventsOf, Select, Ids, EventLedger;
    var t := DoFinishSnapshot(s, batch, keep);
    assert Unsent(t) == Unsent(s) && BeingSplit(t) == [];
    LiveIs(t);
    hide Live, Unsent;
  }

  lemma FinishSnapshotEvents(s: Node, batch: Batch, keep: seq<bool>)
    requires EventsAccounted(s) && Enabled(s, FinishSnapshot(batch, keep))
    ensures EventsAccounted(DoFinishSnapshot(s, batch, keep))
  {
    if s.snapshot.first != s.core.number + 1 {
      FailSnapshotEvents(s);
    } else {
      FinishWell(s, batch, keep);
    }
  }

  lemma FinishWell(s: Node, batch: Batch, keep: seq<bool>)
    requires EventsAccounted(s) && Enabled(s, FinishSnapshot(batch, keep)) && s.snapshot.first == s.core.number + 1
    ensures EventsAccounted(DoFinishSnapshot(s, batch, keep))
  {
    hide *;
    AccountedIs(s);
    FinishPlaces(s, batch, keep);
    FinishLedger(EventsOf(Unsent(s)), BeingSplit(s), s.core.buffer, keep, s.core.pending, batch.frames,
                 Overflow(s.core, s.limits, batch), s.lossesAt, s.core.losses, s.acked, s.lost);
  }

  lemma AccountedIs(s: Node)
    ensures EventsAccounted(s) <==>
      EventLedger(EventsOf(Unsent(s)) + EventsOf(s.core.pending) + BeingSplit(s) + s.core.buffer, s.lossesAt,
                  s.core.losses, s.acked, s.lost)
  {
  }

  lemma LiveIs(s: Node)
    ensures Live(s) == EventsOf(Unsent(s)) + EventsOf(s.core.pending) + BeingSplit(s) + s.core.buffer
  {
  }

  lemma Middle(a: seq<nat>, b: seq<nat>, c: seq<nat>, lossesAt: seq<nat>, losses: nat, acked: set<EventId>,
               lost: set<EventId>)
    requires EventLedger(a + b + c, lossesAt, losses, acked, lost)
    ensures Increasing(b)
  {
    forall i, j | 0 <= i < j < |b| ensures b[i] < b[j] {
      assert (a + b + c)[|a| + i] == b[i] && (a + b + c)[|a| + j] == b[j];
    }
  }

  lemma {:induction false} SelectAll<T>(s: seq<T>, keep: seq<bool>)
    requires |s| == |keep| && |Select(s, keep)| == |s|
    ensures Select(s, keep) == s
  {
    if s != [] {
      SelectAll(s[1..], keep[1..]);
    }
  }

  lemma FailSnapshotEvents(s: Node)
    requires EventsAccounted(s) && Enabled(s, FailSnapshot)
    ensures EventsAccounted(DoFailSnapshot(s))
  {
    hide EventLedger, EventsOf, Increasing;
    var t := DoFailSnapshot(s);
    var a, b, c := EventsOf(Unsent(s)) + EventsOf(s.core.pending), BeingSplit(s), s.core.buffer;
    LedgerLose(a, b, c, [], s.lossesAt, s.core.losses, s.core.losses + 1, s.acked, s.lost);
    assert a + [] == a;
    assert Ids(b) - Ids([]) == Ids(b);
  }

  /** The ways of bracketing four sequences, and of leaving one of them out. */
  lemma Assoc(a: seq<nat>, b: seq<nat>, c: seq<nat>, d: seq<nat>)
    ensures a + b + c + d == a + (b + c + d)
    ensures a + b + c + d == (a + b) + (c + d)
    ensures [] + a == a && a + [] == a && a + [] + b == a + b
  {
    assert a + b + c + d == a + (b + c + d);
    assert a + b + c + d == (a + b) + (c + d);
  }

  lemma Regroup(a: seq<nat>, p: seq<nat>, kept: seq<nat>, gone: seq<nat>, stay: seq<nat>, c: seq<nat>)
    requires p + kept == gone + stay
    ensures (a + p) + kept + c == a + gone + (stay + c)
  {
    assert (a + p) + kept + c == a + (p + kept) + c;
    assert a + gone + (stay + c) == a + (gone + stay) + c;
  }

  lemma Emptied(a: seq<nat>, b: seq<nat>, c: seq<nat>)
    ensures a + b + [] + c == a + [] + (b + c)
  {
    assert a + b + [] == a + b;
    assert a + [] == a;
    assert a + b + c == a + (b + c);
  }

  lemma Assoc5(a: seq<nat>, b: seq<nat>, c: seq<nat>, d: seq<nat>, e: seq<nat>)
    ensures (a + b) + c + d + e == a + (b + c + d + e)
  {
  }

  /** The oldest events on their way are lost. */
  lemma LoseFirst(b: seq<EventId>, p: seq<EventId>, d: seq<EventId>, e: seq<EventId>,
                  lossesAt: seq<nat>, losses: nat, losses': nat, acked: set<EventId>, lost: set<EventId>)
    requires EventLedger(b + p + d + e, lossesAt, losses, acked, lost)
    requires losses <= losses' && (b == [] || losses < losses')
    ensures EventLedger([] + p + d + e, lossesAt, losses', acked, lost + Ids(b))
  {
    NoIds(b);
    hide EventLedger, Ids;
    Assoc(b, p, d, e);
    Assoc([], p, d, e);
    Assoc(b, p + d + e, [], []);
    Assoc([], p + d + e, [], []);
    LedgerLose([], b, p + d + e, [], lossesAt, losses, losses', acked, lost);
  }

  lemma RejectedPostEvents(s: Node, aligns: bool, nextEnd: nat)
    requires EventsAccounted(s) && Enabled(s, FinishPost(Rejected(aligns), nextEnd))
    ensures EventsAccounted(DoFinishPost(s, Rejected(aligns), nextEnd))
  {
    EventsOfNone();
    LiveIs(s);
    LiveIs(DoFinishPost(s, Rejected(aligns), nextEnd));
    var batch, start := s.running.value.phase.batch, s.running.value.phase.start;
    assert Unsent(s) == batch[start..] && Unsent(DoFinishPost(s, Rejected(aligns), nextEnd)) == [];
    assert batch[start..] == [] ==> EventsOf(batch[start..]) == [];
    hide EventLedger, EventsOf, Increasing, Live, Unsent;
    LoseFirst(EventsOf(batch[start..]), EventsOf(s.core.pending), BeingSplit(s), s.core.buffer,
              s.lossesAt, s.core.losses, s.core.losses + (|batch| - start), s.acked, s.lost);
  }

  lemma AcceptedPostEvents(s: Node, aligns: bool, nextEnd: nat)
    requires EventsAccounted(s) && Enabled(s, FinishPost(Accepted(aligns), nextEnd))
    ensures EventsAccounted(DoFinishPost(s, Accepted(aligns), nextEnd))
  {
    hide EventLedger, EventsOf, Increasing;
    EventsOfNone();
    var t := DoFinishPost(s, Accepted(aligns), nextEnd);
    var Posting(batch, start, end) := s.running.value.phase;
    EventsOfSplit(batch[start..], end - start);
    assert batch[start..][..end - start] == batch[start..end] && batch[start..][end - start..] == batch[end..];
    var a := EventsOf(batch[start..end]);
    var b := EventsOf(batch[end..]) + EventsOf(s.core.pending) + BeingSplit(s) + s.core.buffer;
    Assoc5(a, EventsOf(batch[end..]), EventsOf(s.core.pending), BeingSplit(s), s.core.buffer);
    LedgerAck(a, b, s.lossesAt, s.core.losses, s.acked, s.lost);
    assert Unsent(t) == batch[end..];
    assert Live(t) == b;
  }

  lemma LedgerMoreLosses(live: seq<EventId>, lossesAt: seq<nat>, losses: nat, losses': nat, acked: set<EventId>,
                         lost: set<EventId>)
    requires EventLedger(live, lossesAt, losses, acked, lost) && losses <= losses'
    ensures EventLedger(live, lossesAt, losses', acked, lost)
  {
  }

  lemma SameLive(s: Node, t: Node)
    requires EventsAccounted(s)
    requires if Unsent(t) == Unsent(s) then t.core.pending == s.core.pending
             else Unsent(s) == t.core.pending == [] && Unsent(t) == s.core.pending
    requires if BeingSplit(t) == BeingSplit(s) then t.core.buffer == s.core.buffer
             else BeingSplit(s) == t.core.buffer == [] && BeingSplit(t) == s.core.buffer
    requires t.lossesAt == s.lossesAt && t.core.losses >= s.core.losses && t.acked == s.acked && t.lost == s.lost
    ensures EventsAccounted(t)
  {
    hide EventLedger, EventsOf, Increasing;
    EventsOfNone();
    EventsOfConcat(Unsent(s), s.core.pending);
    Assoc(EventsOf(Unsent(s)), EventsOf(s.core.pending), BeingSplit(s), s.core.buffer);
    Assoc(EventsOf(Unsent(t)), EventsOf(t.core.pending), BeingSplit(t), t.core.buffer);
    Assoc(EventsOf(s.core.pending), [], [], []);
    Assoc(s.core.buffer, [], [], []);
    LedgerMoreLosses(Live(s), s.lossesAt, s.core.losses, t.core.losses, s.acked, s.lost);
  }

  lemma RecordEventEvents(s: Node)
    requires EventsAccounted(s)
    ensures EventsAccounted(DoRecordEvent(s))
  {
    hide EventLedger, EventsOf, Increasing;
    EventsOfNone();
    var t := DoRecordEvent(s);
    LedgerRecord(Live(s), s.lossesAt, s.core.losses, s.acked, s.lost);
    if t.core.losses == s.core.losses {
      Assoc(EventsOf(Unsent(s)) + EventsOf(s.core.pending), BeingSplit(s), s.core.buffer, [s.Recorded()]);
      Assoc(EventsOf(Unsent(s)) + EventsOf(s.core.pending) + BeingSplit(s), s.core.buffer, [s.Recorded()], []);
      assert Live(t) ==
        EventsOf(Unsent(s)) + EventsOf(s.core.pending) + BeingSplit(s) + (s.core.buffer + [s.Recorded()]);
    }
  }

  /** The steps that only arrange what will run next. */
  predicate Arranges(a: Action) {
    a.TickSync? || a.TickSnapshot? || a.CallFlush? || a.CallShutdown? || a.StartSync? || a.AfterSend? || a.ResolveFlush?
  }

  /** Two states that agree on events, frames, snapshots and losses. */
  ghost predicate SameContents(s: Node, t: Node) {
    && t.core == s.core && t.snapshot == s.snapshot && t.limits == s.limits && t.doneTickets == s.doneTickets
    && Unsent(t) == Unsent(s) && NextToPost(t) == NextToPost(s)
    && t.lossesAt == s.lossesAt && t.acked == s.acked && t.lost == s.lost && t.posted == s.posted
    && t.ackedFrames == s.ackedFrames && t.lostFrames == s.lostFrames && t.otherLosses == s.otherLosses
  }

  lemma StartSyncArranges(s: Node)
    requires Enabled(s, StartSync)
    ensures SameContents(s, DoStartSync(s))
  {
  }

  lemma AfterSendArranges(s: Node)
    requires Enabled(s, AfterSend)
    ensures SameContents(s, DoAfterSend(s))
  {
  }

  lemma CallFlushArranges(s: Node)
    ensures SameContents(s, DoCallFlush(s))
  {
  }

  lemma ArrangingMovesNothing(s: Node, a: Action)
    requires Enabled(s, a) && Arranges(a)
    ensures SameContents(s, Step(s, a))
  {
    match a
    case StartSync => StartSyncArranges(s);
    case AfterSend => AfterSendArranges(s);
    case CallFlush => CallFlushArranges(s);
    case _ =>
      hide DoStartSync, DoAfterSend, DoCallFlush;
  }

  lemma StartSnapshotEvents(s: Node, readFails: bool, otherActivity: bool)
    requires EventsAccounted(s) && Enabled(s, StartSnapshot(readFails, otherActivity))
    ensures EventsAccounted(DoStartSnapshot(s, readFails, otherActivity))
  {
    hide EventsAccounted, EventsOf, Increasing;
    SameLive(s, DoStartSnapshot(s, readFails, otherActivity));
  }

  lemma ResumeEvents(s: Node, end: nat)
    requires EventsAccounted(s) && Enabled(s, Resume(end))
    ensures EventsAccounted(DoResume(s, end))
  {
    hide EventsAccounted, EventsOf, Increasing, NumbersInOrder;
    SameLive(s, DoResume(s, end));
  }

  /** The settling that the tracer interrupts, as the settling of an accepted envelope and a rejected rest. */
  function Settled(s: Node, delivered: bool): Node
    requires s.running.Some? && s.running.value.phase.Posting?
    requires var p := s.running.value.phase; p.start <= p.end <= |p.batch|
  {
    var end := |s.running.value.phase.batch|;
    if !delivered then DoFinishPost(s, Rejected(false), end)
    else
      var t := DoFinishPost(s, Accepted(false), end);
      if t.running.value.phase.Posting? then DoFinishPost(t, Rejected(false), end) else t
  }

  /** Two states that agree on events and frames, and on how many losses are explained by lost frames. */
  ghost predicate SameFates(t: Node, u: Node) {
    && Unsent(t) == Unsent(u) && BeingSplit(t) == BeingSplit(u) && t.limits == u.limits
    && t.core.pending == u.core.pending && t.core.buffer == u.core.buffer && t.core.number == u.core.number
    && t.lossesAt == u.lossesAt && t.acked == u.acked && t.lost == u.lost
    && t.ackedFrames == u.ackedFrames && t.lostFrames == u.lostFrames
    && t.core.losses >= u.core.losses && t.core.losses - u.core.losses == t.otherLosses - u.otherLosses
  }

  lemma SettledIsLike(s: Node, fault: TraceFault)
    requires Enabled(s, SyncTraceThrows(fault))
    ensures SameFates(DoSyncTraceThrows(s, fault), Settled(s, fault.delivered))
  {
    var Posting(batch, start, end) := s.running.value.phase;
    assert batch[|batch|..] == [] && batch[start..start] == [];
    if fault.delivered { DeliveredIsLike(s, fault); } else { RefusedIsLike(s, fault); }
  }

  lemma RefusedIsLike(s: Node, fault: TraceFault)
    requires Enabled(s, SyncTraceThrows(fault)) && !fault.delivered
    ensures SameFates(DoSyncTraceThrows(s, fault), Settled(s, false))
  {
    var start := s.running.value.phase.start;
    assert s.running.value.phase.batch[start..start] == [];
    NothingIn();
    hide EventsOf, Ids, Numbers, NumbersInOrder;
  }

  lemma DeliveredIsLike(s: Node, fault: TraceFault)
    requires Enabled(s, SyncTraceThrows(fault)) && fault.delivered
    ensures SameFates(DoSyncTraceThrows(s, fault), Settled(s, true))
  {
    var Posting(batch, start, end) := s.running.value.phase;
    if end < |batch| {
      RestIsLike(s, fault);
    } else {
      LastIsLike(s, fault);
    }
  }

  lemma LastIsLike(s: Node, fault: TraceFault)
    requires Enabled(s, SyncTraceThrows(fault)) && fault.delivered
    requires s.running.value.phase.end == |s.running.value.phase.batch|
    ensures SameFates(DoSyncTraceThrows(s, fault), Settled(s, true))
  {
    var batch := s.running.value.phase.batch;
    assert batch[|batch|..] == [];
    NothingIn();
    hide EventsOf, Ids, Numbers, NumbersInOrder, DoPost;
  }

  lemma RestIsLike(s: Node, fault: TraceFault)
    requires Enabled(s, SyncTraceThrows(fault)) && fault.delivered
    requires s.running.value.phase.end < |s.running.value.phase.batch|
    ensures SameFates(DoSyncTraceThrows(s, fault), Settled(s, true))
  {
    hide EventsOf, Ids, Numbers, NumbersInOrder;
    var Posting(batch, start, end) := s.running.value.phase;
    var t := DoFinishPost(s, Accepted(false), |batch|);
    assert t.running.value.phase == Posting(batch, end, |batch|);
    assert t.acked == s.acked + Ids(EventsOf(batch[start..end])) && t.lost == s.lost;
    assert t.ackedFrames == s.ackedFrames + Numbers(batch[start..end]) && t.lostFrames == s.lostFrames;
    assert t.core.losses == s.core.losses && t.otherLosses == s.otherLosses;
    assert Settled(s, true) == DoFinishPost(t, Rejected(false), |batch|);
    hide DoPost;
  }

  lemma NothingIn()
    ensures Ids(EventsOf([])) == {} && Numbers([]) == {}
  {
  }

  lemma SameFatesEvents(t: Node, u: Node)
    requires EventsAccounted(u) && SameFates(t, u)
    ensures EventsAccounted(t)
  {
    hide EventsAccounted, EventsOf, Unsent, BeingSplit;
    SameLive(u, t);
  }

  lemma SettledEvents(s: Node, fault: TraceFault)
    requires EventsAccounted(s) && Enabled(s, SyncTraceThrows(fault))
    ensures EventsAccounted(Settled(s, fault.delivered))
  {
    hide EventsAccounted, EventsOf, Ids, Numbers, NumbersInOrder;
    var end := |s.running.value.phase.batch|;
    if fault.delivered {
      AcceptedPostEvents(s, false, end);
      var t := DoFinishPost(s, Accepted(false), end);
      if t.running.value.phase.Posting? { RejectedPostEvents(t, false, end); }
    } else {
      RejectedPostEvents(s, false, end);
    }
  }

  lemma SyncTraceEvents(s: Node, fault: TraceFault)
    requires EventsAccounted(s) && Enabled(s, SyncTraceThrows(fault))
    ensures EventsAccounted(DoSyncTraceThrows(s, fault))
  {
    hide EventsAccounted, Settled, DoSyncTraceThrows, SameFates;
    SettledIsLike(s, fault);
    SettledEvents(s, fault);
    SameFatesEvents(DoSyncTraceThrows(s, fault), Settled(s, fault.delivered));
  }

  lemma EventsStep(s: Node, a: Action)
    requires EventsAccounted(s) && Enabled(s, a)
    ensures EventsAccounted(Step(s, a))
  {
    match a
    case RecordEvent => RecordEventEvents(s);
    case FinishSnapshot(batch, keep) => FinishSnapshotEvents(s, batch, keep);
    case FailSnapshot => FailSnapshotEvents(s);
    case FinishPost(outcome, nextEnd) =>
      if outcome.Rejected? { RejectedPostEvents(s, outcome.aligns, nextEnd); }
      else { AcceptedPostEvents(s, outcome.aligns, nextEnd); }
    case SyncTraceThrows(fault) => SyncTraceEvents(s, fault);
    case FrameTraceThrows =>
      hide EventsAccounted, EventsOf;
      SameLive(s, DoFrameTraceThrows(s));
    case StartSnapshot(readFails, otherActivity) => StartSnapshotEvents(s, readFails, otherActivity);
    case Resume(end) => ResumeEvents(s, end);
    case _ =>
      ArrangingMovesNothing(s, a);
      hide EventsAccounted, EventsOf, Step;
      SameLive(s, Step(s, a));
  }

  // Frames: consecutive numbers, one fate each, and a loss counter that is exact

  predicate InRun(n: nat, first: nat, length: nat) { first <= n < first + length }

  /**
   Frames 1 .. number were accepted. The newest are pending, older ones are in flight, and every other one is
   acknowledged or counted in `losses`; the rest of `losses` are events that reached no frame and failed steps.
   */
  ghost predicate FrameLedger(pending: seq<Frame>, number: nat, unsent: seq<Frame>, first: nat,
                              acked: set<nat>, lost: set<nat>, losses: nat, otherLosses: nat) {
    && |pending| <= number
    && Consecutive(pending, number - |pending| + 1)
    && Consecutive(unsent, first)
    && 1 <= first && first + |unsent| <= number - |pending| + 1
    && acked !! lost
    && (forall n :: n in acked || n in lost ==> 1 <= n <= number - |pending| && !InRun(n, first, |unsent|))
    && (forall n :: 1 <= n <= number - |pending| ==> n in acked || n in lost || InRun(n, first, |unsent|))
    && losses == |lost| + otherLosses
  }

  function FirstUnsent(s: Node): nat {
    if Unsent(s) == [] then 1 else Unsent(s)[0].number
  }

  /** The first frame number that has not been put on the wire. */
  function NextToPost(s: Node): int {
    if s.running.Some? && s.running.value.phase.Posting? && s.running.value.phase.end < |s.running.value.phase.batch|
    then s.running.value.phase.batch[s.running.value.phase.end].number
    else s.core.number - |s.core.pending| + 1
  }

  /** No frame is posted twice, and frames are posted in order. */
  ghost predicate PostedOnce(s: Node) {
    && Increasing(s.posted)
    && (forall i :: 0 <= i < |s.posted| ==> s.posted[i] < NextToPost(s))
  }

  ghost predicate FramesAccounted(s: Node) {
    && FrameLedger(s.core.pending, s.core.number, Unsent(s), FirstUnsent(s), s.ackedFrames, s.lostFrames,
                   s.core.losses, s.otherLosses)
    && |s.core.pending| <= s.limits.maxPending
  }

  function Run(first: nat, length: nat): set<nat> {
    set n: nat | n < first + length && InRun(n, first, length)
  }

  lemma {:induction false} RunSize(first: nat, length: nat)
    ensures |Run(first, length)| == length
  {
    if length == 0 {
      assert Run(first, length) == {};
    } else {
      RunSize(first, length - 1);
      assert Run(first, length) == Run(first, length - 1) + {first + length - 1};
    }
  }

  lemma ConsecutiveNumbers(frames: seq<Frame>, first: nat)
    requires Consecutive(frames, first)
    ensures forall n :: n in Numbers(frames) <==> InRun(n, first, |frames|)
    ensures |Numbers(frames)| == |frames|
  {
    forall n: nat | InRun(n, first, |frames|) ensures n in Numbers(frames) {
      assert frames[n - first].number == n;
    }
    assert Numbers(frames) == Run(first, |frames|);
    RunSize(first, |frames|);
  }

  lemma AcceptFrames(pending: seq<Frame>, number: nat, unsent: seq<Frame>, first: nat, acked: set<nat>, lost: set<nat>,
                     losses: nat, other: nat, frames: seq<Frame>, overflow: nat, dropped: nat)
    requires FrameLedger(pending, number, unsent, first, acked, lost, losses, other)
    requires Consecutive(frames, number + 1) && overflow <= |pending| + |frames|
    ensures var all := pending + frames;
      FrameLedger(all[overflow..], number + |frames|, unsent, first, acked, lost + Numbers(all[..overflow]),
                  losses + overflow + dropped, other + dropped)
  {
    var all := pending + frames;
    assert Consecutive(all, number - |pending| + 1);
    ConsecutiveNumbers(all[..overflow], number - |pending| + 1);
    assert lost !! Numbers(all[..overflow]);
  }

  /** The frames a at the front of those unsent are settled: they become acknowledged, or lost and counted. */
  lemma SettleFrames(pending: seq<Frame>, number: nat, a: seq<Frame>, b: seq<Frame>, first: nat, acked: set<nat>,
                     lost: set<nat>,
                     losses: nat, other: nat)
    requires FrameLedger(pending, number, a + b, first, acked, lost, losses, other)
    ensures Consecutive(b, first + |a|) && acked !! Numbers(a) && lost !! Numbers(a) && |Numbers(a)| == |a|
    ensures forall n :: n in Numbers(a) <==> InRun(n, first, |a|)
  {
    assert Consecutive(a, first) by {
      forall i | 0 <= i < |a| ensures a[i].number == first + i { assert (a + b)[i] == a[i]; }
    }
    assert Consecutive(b, first + |a|) by {
      forall i | 0 <= i < |b| ensures b[i].number == first + |a| + i { assert (a + b)[|a| + i] == b[i]; }
    }
    ConsecutiveNumbers(a, first);
    hide Consecutive, Numbers;
  }

  lemma AckFrames(pending: seq<Frame>, number: nat, a: seq<Frame>, b: seq<Frame>, first: nat, next: nat,
                  acked: set<nat>, lost: set<nat>,
                  losses: nat, other: nat)
    requires FrameLedger(pending, number, a + b, first, acked, lost, losses, other)
    requires next == if b == [] then 1 else first + |a|
    ensures FrameLedger(pending, number, b, next, acked + Numbers(a), lost, losses, other)
  {
    SettleFrames(pending, number, a, b, first, acked, lost, losses, other);
    if b == [] { assert Consecutive(b, 1); }
    hide Consecutive, Numbers;
  }

  lemma LoseFrames(pending: seq<Frame>, number: nat, a: seq<Frame>, first: nat, acked: set<nat>, lost: set<nat>,
                   losses: nat, other: nat)
    requires FrameLedger(pending, number, a, first, acked, lost, losses, other)
    ensures FrameLedger(pending, number, [], 1, acked, lost + Numbers(a), losses + |a|, other)
  {
    assert a + [] == a;
    SettleFrames(pending, number, a, [], first, acked, lost, losses, other);
    assert Consecutive([], 1);
    hide Consecutive, Numbers;
  }

  lemma FinishedFields(s: Node, batch: Batch, keep: seq<bool>)
    requires Enabled(s, FinishSnapshot(batch, keep)) && s.snapshot.first == s.core.number + 1
    ensures var t, all, overflow := DoFinishSnapshot(s, batch, keep), s.core.pending + batch.frames,
                                    Overflow(s.core, s.limits, batch);
      && overflow <= |all| && Consecutive(batch.frames, s.core.number + 1)
      && t.core.pending == all[overflow..] && t.core.number == s.core.number + |batch.frames| && t.limits == s.limits
      && |t.core.pending| <= s.limits.maxPending && Unsent(t) == Unsent(s)
      && t.ackedFrames == s.ackedFrames && t.lostFrames == s.lostFrames + Numbers(all[..overflow])
      && t.core.losses == s.core.losses + overflow + batch.droppedEvents
      && t.otherLosses == s.otherLosses + batch.droppedEvents
  {
    hide EventsOf, Select, Ids, Numbers;
  }

  lemma FinishedFrames(s: Node, batch: Batch, keep: seq<bool>)
    requires FramesAccounted(s) && Enabled(s, FinishSnapshot(batch, keep)) && s.snapshot.first == s.core.number + 1
    ensures FramesAccounted(DoFinishSnapshot(s, batch, keep))
  {
    hide EventsOf, Select, Ids, FrameLedger, Numbers, DoFinishSnapshot, Enabled, Unsent, Overflow, Consecutive;
    FinishedFields(s, batch, keep);
    AcceptFrames(s.core.pending, s.core.number, Unsent(s), FirstUnsent(s), s.ackedFrames, s.lostFrames,
                 s.core.losses, s.otherLosses, batch.frames, Overflow(s.core, s.limits, batch), batch.droppedEvents);
  }

  lemma FinishSnapshotFrames(s: Node, batch: Batch, keep: seq<bool>)
    requires FramesAccounted(s) && Enabled(s, FinishSnapshot(batch, keep))
    ensures FramesAccounted(DoFinishSnapshot(s, batch, keep))
  {
    hide EventsOf, Select, Ids, FramesAccounted;
    if s.snapshot.first == s.core.number + 1 {
      FinishedFrames(s, batch, keep);
    } else {
      MoreFrameLosses(s, DoFinishSnapshot(s, batch, keep));
    }
  }

  lemma MoreFrameLosses(s: Node, t: Node)
    requires FramesAccounted(s)
    requires t.core.pending == s.core.pending && t.core.number == s.core.number && t.limits == s.limits
    requires Unsent(t) == Unsent(s)
    requires t.ackedFrames == s.ackedFrames && t.lostFrames == s.lostFrames
    requires t.core.losses - s.core.losses == t.otherLosses - s.otherLosses
    ensures FramesAccounted(t)
  {
  }

  /** Putting the next frames of a consecutive run on the wire posts nothing twice. */
  lemma PostMore(posted: seq<nat>, frames: seq<Frame>, first: nat)
    requires Increasing(posted) && forall i :: 0 <= i < |posted| ==> posted[i] < first
    requires Consecutive(frames, first)
    ensures var now := posted + NumbersInOrder(frames);
      Increasing(now) && forall i :: 0 <= i < |now| ==> now[i] < first + |frames|
  {
  }

  /** The frames that are not settled: those of the envelope on the wire, then those behind it. */
  lemma UnsentInOrder(s: Node)
    requires FramesAccounted(s)
    ensures Consecutive(Unsent(s), FirstUnsent(s))
    ensures FirstUnsent(s) + |Unsent(s)| <= s.core.number - |s.core.pending| + 1
  {
  }

  lemma PendingInOrder(s: Node)
    requires FramesAccounted(s)
    ensures |s.core.pending| <= s.core.number && Consecutive(s.core.pending, s.core.number - |s.core.pending| + 1)
  {
  }

  lemma RejectedPostFrames(s: Node, aligns: bool, nextEnd: nat)
    requires FramesAccounted(s) && Enabled(s, FinishPost(Rejected(aligns), nextEnd))
    ensures FramesAccounted(DoFinishPost(s, Rejected(aligns), nextEnd))
  {
    hide EventsOf, Ids, FrameLedger, Numbers;
    LoseFrames(s.core.pending, s.core.number, Unsent(s), FirstUnsent(s), s.ackedFrames, s.lostFrames, s.core.losses,
               s.otherLosses);
  }

  /** An accepted post settles the frames a of its envelope; the frames b behind it are still unsent. */
  lemma AcceptedPostUnsent(s: Node, aligns: bool, nextEnd: nat) returns (a: seq<Frame>, b: seq<Frame>)
    requires Consecutive(Unsent(s), FirstUnsent(s)) && Enabled(s, FinishPost(Accepted(aligns), nextEnd))
    ensures var t := DoFinishPost(s, Accepted(aligns), nextEnd);
      && Unsent(s) == a + b && Unsent(t) == b
      && FirstUnsent(t) == (if b == [] then 1 else FirstUnsent(s) + |a|)
      && t.core.pending == s.core.pending && t.core.number == s.core.number && t.core.losses == s.core.losses
      && t.ackedFrames == s.ackedFrames + Numbers(a) && t.lostFrames == s.lostFrames
      && t.otherLosses == s.otherLosses && t.limits == s.limits
  {
    var Posting(batch, start, end) := s.running.value.phase;
    a, b := batch[start..end], batch[end..];
    assert a + b == batch[start..];
    if end < |batch| {
      assert Unsent(s)[end - start].number == FirstUnsent(s) + (end - start);
      assert batch[start..][end - start] == batch[end] && b[0] == batch[end];
    }
    hide EventsOf, Ids, Numbers, NumbersInOrder;
  }

  lemma AcceptedPostFrames(s: Node, aligns: bool, nextEnd: nat)
    requires FramesAccounted(s) && Enabled(s, FinishPost(Accepted(aligns), nextEnd))
    ensures FramesAccounted(DoFinishPost(s, Accepted(aligns), nextEnd))
  {
    UnsentInOrder(s);
    var a, b := AcceptedPostUnsent(s, aligns, nextEnd);
    hide EventsOf, Ids, FrameLedger, Numbers, NumbersInOrder, Unsent, FirstUnsent, Consecutive, DoFinishPost, Enabled;
    AckFrames(s.core.pending, s.core.number, a, b, FirstUnsent(s),
              FirstUnsent(DoFinishPost(s, Accepted(aligns), nextEnd)),
              s.ackedFrames, s.lostFrames, s.core.losses, s.otherLosses);
  }

  lemma FinishPostPosted(s: Node, outcome: PostOutcome, nextEnd: nat)
    requires FramesAccounted(s) && PostedOnce(s) && Enabled(s, FinishPost(outcome, nextEnd))
    ensures PostedOnce(DoFinishPost(s, outcome, nextEnd))
  {
    UnsentInOrder(s);
    hide EventsOf, Ids, FramesAccounted, Numbers;
    var Posting(batch, start, end) := s.running.value.phase;
    forall i | start <= i < |batch| ensures batch[i].number == FirstUnsent(s) + i - start {
      assert batch[start..][i - start] == batch[i];
    }
    if end < |batch| {
      assert Consecutive(batch[end..nextEnd], batch[end].number);
      PostMore(s.posted, batch[end..nextEnd], batch[end].number);
    }
  }

  lemma SameFatesFrames(t: Node, u: Node)
    requires FramesAccounted(u) && SameFates(t, u)
    ensures FramesAccounted(t)
  {
    hide FramesAccounted, Unsent, BeingSplit;
    MoreFrameLosses(u, t);
  }

  lemma SettledFrames(s: Node, fault: TraceFault)
    requires FramesAccounted(s) && Enabled(s, SyncTraceThrows(fault))
    ensures FramesAccounted(Settled(s, fault.delivered))
  {
    hide FramesAccounted, EventsOf, Ids, Numbers, NumbersInOrder;
    var end := |s.running.value.phase.batch|;
    if fault.delivered {
      AcceptedPostFrames(s, false, end);
      var t := DoFinishPost(s, Accepted(false), end);
      if t.running.value.phase.Posting? { RejectedPostFrames(t, false, end); }
    } else {
      RejectedPostFrames(s, false, end);
    }
  }

  lemma SyncTraceFrames(s: Node, fault: TraceFault)
    requires FramesAccounted(s) && Enabled(s, SyncTraceThrows(fault))
    ensures FramesAccounted(DoSyncTraceThrows(s, fault))
  {
    hide FramesAccounted, Settled, DoSyncTraceThrows, SameFates;
    SettledIsLike(s, fault);
    SettledFrames(s, fault);
    SameFatesFrames(DoSyncTraceThrows(s, fault), Settled(s, fault.delivered));
  }

  lemma NothingLeftToPost(s: Node, fault: TraceFault)
    requires Enabled(s, SyncTraceThrows(fault))
    ensures var t := DoSyncTraceThrows(s, fault);
      t.posted == s.posted && NextToPost(t) == s.core.number - |s.core.pending| + 1
  {
    hide EventsOf, Ids, Numbers;
  }

  lemma NextIsUnsent(s: Node)
    requires FramesAccounted(s) && s.running.Some? && s.running.value.phase.Posting?
    requires var p := s.running.value.phase; p.start <= p.end <= |p.batch|
    ensures NextToPost(s) <= s.core.number - |s.core.pending| + 1
  {
    UnsentInOrder(s);
    hide FramesAccounted;
    var Posting(batch, start, end) := s.running.value.phase;
    if end < |batch| {
      assert batch[start..][end - start] == batch[end];
    }
  }

  lemma SyncTracePosted(s: Node, fault: TraceFault)
    requires FramesAccounted(s) && PostedOnce(s) && Enabled(s, SyncTraceThrows(fault))
    ensures PostedOnce(DoSyncTraceThrows(s, fault))
  {
    NextIsUnsent(s);
    NothingLeftToPost(s, fault);
    hide FramesAccounted, DoSyncTraceThrows, NextToPost, Increasing;
  }

  lemma ResumeFrames(s: Node, end: nat)
    requires FramesAccounted(s) && Enabled(s, Resume(end))
    ensures FramesAccounted(DoResume(s, end))
  {
    var t := DoResume(s, end);
    assert Unsent(t) == s.core.pending;
    if s.core.pending != [] {
      assert s.core.pending[0].number == FirstUnsent(t);
    }
  }

  lemma ResumePosted(s: Node, end: nat)
    requires FramesAccounted(s) && PostedOnce(s) && Enabled(s, Resume(end))
    ensures PostedOnce(DoResume(s, end))
  {
    PendingInOrder(s);
    hide EventsOf, FramesAccounted;
    var frames := s.core.pending[0..end];
    PostMore(s.posted, frames, s.core.number - |s.core.pending| + 1);
  }

  lemma EventFrames(s: Node, a: Action)
    requires FramesAccounted(s) && Enabled(s, a)
    requires (a.RecordEvent? || a.StartSnapshot? || a.FailSnapshot? || a.FrameTraceThrows?)
    ensures FramesAccounted(Step(s, a))
  {
    hide FramesAccounted, DoFinishSnapshot, DoFinishPost, DoResume, IsSplitOf;
    MoreFrameLosses(s, Step(s, a));
  }

  lemma FramesStep(s: Node, a: Action)
    requires FramesAccounted(s) && Enabled(s, a)
    ensures FramesAccounted(Step(s, a))
  {
    match a
    case FinishSnapshot(batch, keep) => FinishSnapshotFrames(s, batch, keep);
    case FinishPost(outcome, nextEnd) =>
      if outcome.Rejected? { RejectedPostFrames(s, outcome.aligns, nextEnd); }
      else { AcceptedPostFrames(s, outcome.aligns, nextEnd); }
    case SyncTraceThrows(fault) => SyncTraceFrames(s, fault);
    case FrameTraceThrows => EventFrames(s, a);
    case Resume(end) => ResumeFrames(s, end);
    case RecordEvent => EventFrames(s, a);
    case StartSnapshot(_, _) => EventFrames(s, a);
    case FailSnapshot => EventFrames(s, a);
    case _ =>
      ArrangingMovesNothing(s, a);
      hide FramesAccounted, Step;
      MoreFrameLosses(s, Step(s, a));
  }

  lemma EventPosted(s: Node, a: Action)
    requires PostedOnce(s) && Enabled(s, a)
    requires (a.RecordEvent? || a.StartSnapshot? || a.FailSnapshot? || a.FrameTraceThrows?)
    ensures PostedOnce(Step(s, a))
  {
    hide Increasing, DoFinishSnapshot, DoFinishPost, DoResume, IsSplitOf;
  }

  lemma FinishSnapshotPosted(s: Node, batch: Batch, keep: seq<bool>)
    requires FramesAccounted(s) && PostedOnce(s) && Enabled(s, FinishSnapshot(batch, keep))
    requires s.snapshot.first == s.core.number + 1
    ensures PostedOnce(DoFinishSnapshot(s, batch, keep))
  {
    PendingInOrder(s);
    hide FramesAccounted, EventsOf, Increasing, Ids, Numbers, Select;
  }

  lemma PostedStep(s: Node, a: Action)
    requires FramesAccounted(s) && PostedOnce(s) && Enabled(s, a)
    requires s.snapshot.Splitting? ==> s.snapshot.first == s.core.number + 1
    ensures PostedOnce(Step(s, a))
  {
    match a
    case FinishSnapshot(batch, keep) => FinishSnapshotPosted(s, batch, keep);
    case FinishPost(outcome, nextEnd) => FinishPostPosted(s, outcome, nextEnd);
    case SyncTraceThrows(fault) => SyncTracePosted(s, fault);
    case FrameTraceThrows => EventPosted(s, a);
    case Resume(end) => ResumePosted(s, end);
    case RecordEvent => EventPosted(s, a);
    case StartSnapshot(_, _) => EventPosted(s, a);
    case FailSnapshot => EventPosted(s, a);
    case _ =>
      ArrangingMovesNothing(s, a);
      hide FramesAccounted, Step;
  }
}
