/**
 When flush() answers ok: exactly when no loss was counted since the previous flush() call and every envelope of
 the sync it waits for was taken, with the clock aligned.
 */
module FlushOutcome {
  import opened Wrappers
  import opened Sequences
  import opened Delivery
  import opened FlushProtocol
  import opened FlushSafety
  import opened FlushPromise

  // What a step leaves of a flush() call

  /** A flush() call that waits for `job`, with the number of losses it compares. */
  ghost predicate IsCall(s: Node, index: nat, job: nat, losses: nat) {
    && index < |s.flushes| && s.flushes[index].losses == losses
    && s.flushes[index].promise < |s.promises| && s.promises[s.flushes[index].promise].job == job
  }

  lemma CallKept(s: Node, a: Action, index: nat, job: nat, losses: nat)
    requires IsCall(s, index, job, losses) && Enabled(s, a)
    ensures IsCall(Step(s, a), index, job, losses)
    ensures a != ResolveFlush(index) ==> Step(s, a).flushes[index].outcome == s.flushes[index].outcome
    ensures a == ResolveFlush(index) ==>
      && s.flushes[index].outcome.None? && job in s.results
      && Step(s, a).flushes[index].outcome == Some(s.results[job] && s.core.losses == losses)
  {
    hide EventsOf, Ids, Numbers, NumbersInOrder, Select, IsSplitOf, Event, AcceptFrameBatch, Overflow, Consecutive,
      Coalesces;
    match a
    case CallFlush =>
    case ResolveFlush(_) =>
    case FinishPost(_, _) =>
    case SyncTraceThrows(_) =>
    case AfterSend =>
    case StartSync =>
    case _ =>
  }

  lemma BaselineKept(s: Node, a: Action)
    requires Enabled(s, a) && !a.CallFlush?
    ensures Step(s, a).flushLosses == s.flushLosses
  {
    hide EventsOf, Ids, Numbers, NumbersInOrder, Select, IsSplitOf, Event, AcceptFrameBatch, Overflow, Consecutive,
      Coalesces;
    match a
    case FinishPost(_, _) =>
    case SyncTraceThrows(_) =>
    case AfterSend =>
    case StartSync =>
    case _ =>
  }

  lemma {:induction false} BaselineStays(limits: Limits, states: seq<Node>, actions: seq<Action>, first: nat, last: nat)
    requires IsRun(limits, states, actions) && first <= last <= |actions|
    requires forall i :: first <= i < last ==> !actions[i].CallFlush?
    ensures states[last].flushLosses == states[first].flushLosses
    decreases last
  {
    hide Step, Enabled;
    if last > first {
      BaselineStays(limits, states, actions, first, last - 1);
      BaselineKept(states[last - 1], actions[last - 1]);
    }
  }

  /**
   The sync that a flush() call waits for and the step that put it on the chain: the call itself, or the
   shutdown() call when there was one before.
   */
  ghost predicate WaitsFor(states: seq<Node>, actions: seq<Action>, call: nat, from: nat, job: nat) {
    && from <= call < |actions| && |states| == |actions| + 1 && actions[call].CallFlush?
    && states[from].shutdown.None? && job == states[from + 1].lastJob
    && (from < call ==> actions[from].CallShutdown?)
  }

  /** A flush() call and the previous one; before the first call there is the start. */
  ghost predicate FollowsFlush(actions: seq<Action>, previous: nat, call: nat) {
    && previous <= call < |actions| && actions[call].CallFlush?
    && (previous == 0 || actions[previous - 1].CallFlush?)
    && forall i :: previous <= i < call ==> !actions[i].CallFlush?
  }

  lemma FlushMakesCall(s: Node)
    ensures var t := DoCallFlush(s);
      && |t.flushes| == |s.flushes| + 1 && t.flushes[|s.flushes|].outcome.None?
      && t.flushLosses == s.core.losses && t.core == s.core
      && (s.shutdown.None? ==> IsCall(t, |s.flushes|, t.lastJob, s.flushLosses))
      && (s.shutdown.Some? && s.shutdown.value < |s.promises| ==>
          IsCall(t, |s.flushes|, s.promises[s.shutdown.value].job, s.flushLosses))
  {
    hide Coalesces;
  }

  lemma ShutdownJobKept(s: Node, a: Action)
    requires Enabled(s, a) && s.shutdown.Some? && s.shutdown.value < |s.promises|
    ensures var t := Step(s, a);
      t.shutdown == s.shutdown && s.shutdown.value < |t.promises|
      && t.promises[s.shutdown.value].job == s.promises[s.shutdown.value].job
  {
    hide EventsOf, Ids, Numbers, NumbersInOrder, Select, IsSplitOf, Event, AcceptFrameBatch, Overflow, Consecutive,
      Coalesces;
    match a
    case FinishPost(_, _) =>
    case SyncTraceThrows(_) =>
    case AfterSend =>
    case StartSync =>
    case _ =>
  }

  lemma {:induction false} ShutdownJobStays(limits: Limits, states: seq<Node>, actions: seq<Action>, stop: nat, k: nat)
    requires IsRun(limits, states, actions) && stop < k <= |actions|
    requires actions[stop].CallShutdown? && states[stop].shutdown.None?
    ensures states[k].shutdown.Some? && states[k].shutdown.value < |states[k].promises|
    ensures states[k].promises[states[k].shutdown.value].job == states[stop + 1].lastJob
    decreases k
  {
    if k == stop + 1 {
      assert states[k] == DoCallShutdown(states[stop]);
      hide Coalesces, Step, Enabled;
    } else {
      hide Step, Enabled;
      ShutdownJobStays(limits, states, actions, stop, k - 1);
      ShutdownJobKept(states[k - 1], actions[k - 1]);
    }
  }

  lemma CallMade(limits: Limits, states: seq<Node>, actions: seq<Action>, previous: nat, call: nat, from: nat, job: nat)
    requires IsRun(limits, states, actions)
    requires FollowsFlush(actions, previous, call) && WaitsFor(states, actions, call, from, job)
    ensures IsCall(states[call + 1], |states[call].flushes|, job, states[previous].core.losses)
    ensures states[call + 1].flushes[|states[call].flushes|].outcome.None?
  {
    hide Step, Enabled, IsCall;
    assert states[call + 1] == DoCallFlush(states[call]) by { FlushStep(states[call]); }
    FlushMakesCall(states[call]);
    if from < call { ShutdownJobStays(limits, states, actions, from, call); }
    BaselineStays(limits, states, actions, previous, call);
    if previous > 0 {
      FlushStep(states[previous - 1]);
      FlushMakesCall(states[previous - 1]);
    }
    hide DoCallFlush;
  }

  lemma FlushStep(s: Node)
    ensures Enabled(s, CallFlush) && Step(s, CallFlush) == DoCallFlush(s)
  {
  }

  /**
   The answer of flush(): there is one as soon as the call has resolved, and it says that the sync the call waits
   for was delivered and that no loss has been counted since the previous flush() call.
   */
  lemma {:induction false} FlushAnswers(limits: Limits, states: seq<Node>, actions: seq<Action>, previous: nat,
                                       call: nat, from: nat, job: nat, later: nat)
    requires IsRun(limits, states, actions) && call < later <= |actions|
    requires FollowsFlush(actions, previous, call) && WaitsFor(states, actions, call, from, job)
    ensures var index := |states[call].flushes|;
      && IsCall(states[later], index, job, states[previous].core.losses)
      && (states[later].flushes[index].outcome.Some? <==>
          exists r :: call < r < later && actions[r] == ResolveFlush(index))
      && forall r :: call < r < later && actions[r] == ResolveFlush(index) ==>
         && job in states[r].results
         && states[later].flushes[index].outcome ==
            Some(states[r].results[job] && states[r].core.losses == states[previous].core.losses)
    decreases later
  {
    hide Step, Enabled, WaitsFor;
    var index, losses := |states[call].flushes|, states[previous].core.losses;
    if later == call + 1 {
      CallMade(limits, states, actions, previous, call, from, job);
    } else {
      FlushAnswers(limits, states, actions, previous, call, from, job, later - 1);
      var s, a := states[later - 1], actions[later - 1];
      assert states[later] == Step(s, a) && Enabled(s, a);
      CallKept(s, a, index, job, losses);
      assert states[later - 1].flushes[index].outcome.Some? ==> a != ResolveFlush(index);
    }
  }

  // When a sync is delivered

  predicate Runs(s: Node, job: nat) { s.running.Some? && s.running.value.job.id == job }

  /** A step of a running sync that does not spoil its delivery: what it posts is taken, and the clock is aligned. */
  predicate Delivers(s: Node, a: Action) {
    && !a.SyncTraceThrows?
    && (a.FinishPost? ==> a.outcome.Accepted?)
    && (a.AfterSend? ==> s.core.aligned)
  }

  /** Every step of the sync after step `from` and before step `k` was one of these. */
  ghost predicate Delivered(states: seq<Node>, actions: seq<Action>, from: nat, k: nat, job: nat) {
    k <= |actions| && |states| == |actions| + 1
    && forall i :: from < i < k && Runs(states[i], job) ==> Delivers(states[i], actions[i])
  }

  /** `good` says whether the sync has been delivered as far as it has got. */
  ghost predicate Tells(s: Node, job: nat, good: bool) {
    && 1 <= job <= s.lastJob
    && (job > s.lastJob - |s.waiting| ==> good)
    && (Runs(s, job) ==> s.running.value.job.flush && (good <==> s.running.value.phase != Sent(false)))
    && (job in s.results ==> s.results[job] == good)
  }

  ghost predicate Flushing(s: Node, job: nat) {
    forall i :: 0 <= i < |s.waiting| && s.waiting[i].id == job ==> s.waiting[i].flush
  }

  lemma StartSyncTells(s: Node, job: nat, good: bool)
    requires QueueInOrder(s) && Flushing(s, job) && Tells(s, job, good) && Enabled(s, StartSync)
    ensures Tells(DoStartSync(s), job, good)
  {
    hide EventsOf;
    assert s.waiting[0].id == s.lastJob - |s.waiting| + 1;
  }

  lemma AfterSendTells(s: Node, job: nat, good: bool)
    requires QueueInOrder(s) && SyncCovers(s) && Tells(s, job, good) && Enabled(s, AfterSend)
    ensures Tells(DoAfterSend(s), job, good && (Runs(s, job) ==> s.core.aligned))
  {
    hide Progress;
  }

  lemma PostTells(s: Node, outcome: PostOutcome, nextEnd: nat, job: nat, good: bool)
    requires QueueInOrder(s) && Tells(s, job, good) && Enabled(s, FinishPost(outcome, nextEnd))
    ensures Tells(DoFinishPost(s, outcome, nextEnd), job, good && (Runs(s, job) ==> outcome.Accepted?))
  {
    hide EventsOf, Ids, Numbers, NumbersInOrder;
  }

  lemma FaultTells(s: Node, fault: TraceFault, job: nat, good: bool)
    requires QueueInOrder(s) && Tells(s, job, good) && Enabled(s, SyncTraceThrows(fault))
    ensures Tells(DoSyncTraceThrows(s, fault), job, good && !Runs(s, job))
  {
    hide EventsOf, Ids, Numbers;
  }

  lemma ResumeTells(s: Node, end: nat, job: nat, good: bool)
    requires Tells(s, job, good) && Enabled(s, Resume(end))
    ensures Tells(DoResume(s, end), job, good)
  {
    hide NumbersInOrder;
  }

  lemma EnqueueTells(s: Node, flush: bool, job: nat, good: bool)
    requires Tells(s, job, good)
    ensures Tells(EnqueueSync(s, flush), job, good)
  {
    hide Coalesces;
  }

  lemma CallsTell(s: Node, a: Action, job: nat, good: bool)
    requires Tells(s, job, good) && Enabled(s, a) && (a.TickSync? || a.CallFlush? || a.CallShutdown?)
    ensures Tells(Step(s, a), job, good)
  {
    EnqueueTells(s, false, job, good);
    EnqueueTells(s, true, job, good);
    EnqueueTells(s.(stopped := true), true, job, good);
    hide EnqueueSync;
  }

  lemma QuietTells(s: Node, a: Action, job: nat, good: bool)
    requires Tells(s, job, good) && Enabled(s, a)
    requires a.RecordEvent? || a.TickSnapshot? || a.StartSnapshot? || a.FinishSnapshot? || a.FailSnapshot?
      || a.FrameTraceThrows? || a.ResolveFlush?
    ensures Tells(Step(s, a), job, good)
  {
    hide EventsOf, Ids, Numbers, NumbersInOrder, Select, IsSplitOf, Event, AcceptFrameBatch, Overflow, Consecutive,
      Coalesces;
  }

  lemma TellsStep(s: Node, a: Action, job: nat, good: bool)
    requires QueueInOrder(s) && SyncCovers(s) && Flushing(s, job) && Tells(s, job, good) && Enabled(s, a)
    ensures Tells(Step(s, a), job, good && (Runs(s, job) ==> Delivers(s, a)))
  {
    hide QueueInOrder, SyncCovers, Tells, Flushing, Enabled;
    match a
    case StartSync => StartSyncTells(s, job, good);
    case AfterSend => AfterSendTells(s, job, good);
    case FinishPost(outcome, nextEnd) => PostTells(s, outcome, nextEnd, job, good);
    case SyncTraceThrows(fault) => FaultTells(s, fault, job, good);
    case Resume(end) => ResumeTells(s, end, job, good);
    case TickSync => CallsTell(s, a, job, good);
    case CallFlush => CallsTell(s, a, job, good);
    case CallShutdown => CallsTell(s, a, job, good);
    case _ => QuietTells(s, a, job, good);
  }

  /** Some promise waits for this job. */
  ghost predicate Promised(s: Node, job: nat) { exists i :: 0 <= i < |s.promises| && s.promises[i].job == job }

  lemma PromisedKept(s: Node, a: Action, job: nat)
    requires Promised(s, job) && Enabled(s, a)
    ensures Promised(Step(s, a), job)
  {
    hide EventsOf, Ids, Numbers, NumbersInOrder, Select, IsSplitOf, Event, AcceptFrameBatch, Overflow, Consecutive,
      Coalesces;
    var i :| 0 <= i < |s.promises| && s.promises[i].job == job;
    assert |Step(s, a).promises| >= |s.promises| && Step(s, a).promises[i] == s.promises[i];
  }

  lemma PromisedFlushes(s: Node, job: nat)
    requires Inv(s) && Promised(s, job)
    ensures Flushing(s, job)
  {
    var i :| 0 <= i < |s.promises| && s.promises[i].job == job;
    assert PromiseKept(s, s.promises[i]);
  }

  lemma PromiseMade(s: Node, a: Action)
    requires Inv(s) && s.shutdown.None? && (a.CallFlush? || a.CallShutdown?) && Enabled(s, a)
    ensures var t := Step(s, a); Promised(t, t.lastJob) && Tells(t, t.lastJob, true)
  {
    CoalescesIff(s);
    CoalescesIff(s.(stopped := true));
    hide Coalesces, EventsAccounted, FramesAccounted, PostedOnce, SnapshotsInOrder, SyncCovers, PromisesKept;
    var t := Step(s, a);
    assert t.promises[|s.promises|].job == t.lastJob;
  }

  /** The result of the sync a flush() or shutdown() call waits for says whether it was delivered. */
  lemma {:induction false} SyncTells(limits: Limits, states: seq<Node>, actions: seq<Action>, from: nat, job: nat,
                                     k: nat)
    requires IsRun(limits, states, actions) && from < k <= |actions|
    requires states[from].shutdown.None? && job == states[from + 1].lastJob
    requires actions[from].CallFlush? || actions[from].CallShutdown?
    ensures Promised(states[k], job) && Tells(states[k], job, Delivered(states, actions, from, k, job))
    decreases k
  {
    hide Step, Enabled, Tells, Promised, Inv, Delivers, Runs;
    if k == from + 1 {
      RunInv(limits, states, actions, from);
      PromiseMade(states[from], actions[from]);
      assert Delivered(states, actions, from, k, job);
    } else {
      SyncTells(limits, states, actions, from, job, k - 1);
      RunInv(limits, states, actions, k - 1);
      NextTells(states[k - 1], actions[k - 1], job, Delivered(states, actions, from, k - 1, job));
      assert Delivered(states, actions, from, k, job) <==>
             Delivered(states, actions, from, k - 1, job)
             && (Runs(states[k - 1], job) ==> Delivers(states[k - 1], actions[k - 1]));
    }
  }

  lemma NextTells(s: Node, a: Action, job: nat, good: bool)
    requires Inv(s) && Enabled(s, a) && Promised(s, job) && Tells(s, job, good)
    ensures Promised(Step(s, a), job)
    ensures Tells(Step(s, a), job, good && (Runs(s, job) ==> Delivers(s, a)))
  {
    PromisedFlushes(s, job);
    PromisedKept(s, a, job);
    assert QueueInOrder(s) && SyncCovers(s);
    hide *;
    TellsStep(s, a, job, good);
  }

  // When the loss counter stands still

  /** A step that counts no loss. */
  predicate Lossless(s: Node, a: Action) {
    match a
    case RecordEvent => |s.core.buffer| < s.limits.maxEvents
    case StartSnapshot(readFails, _) => !readFails
    case FinishSnapshot(batch, _) =>
      batch.droppedEvents == 0 && |s.core.pending| + |batch.frames| <= s.limits.maxPending
    case FailSnapshot => false
    case FinishPost(outcome, _) => outcome.Accepted? || Unsent(s) == []
    case SyncTraceThrows(fault) => !fault.escapes && Unsent(s) == []
    case FrameTraceThrows => false
    case _ => true
  }

  lemma PostLosses(s: Node, a: Action)
    requires Enabled(s, a) && (a.FinishPost? || a.SyncTraceThrows?)
    ensures Step(s, a).core.losses >= s.core.losses
    ensures Step(s, a).core.losses == s.core.losses <==> Lossless(s, a)
  {
    hide EventsOf, Ids, Numbers, NumbersInOrder;
  }

  lemma LossesOf(s: Node, a: Action)
    requires SnapshotsInOrder(s) && Enabled(s, a)
    ensures Step(s, a).core.losses >= s.core.losses
    ensures Step(s, a).core.losses == s.core.losses <==> Lossless(s, a)
  {
    hide EventsOf, Ids, Numbers, NumbersInOrder, Select, Consecutive, Coalesces, DoFinishPost, DoSyncTraceThrows;
    match a
    case FinishPost(_, _) => PostLosses(s, a);
    case SyncTraceThrows(_) => PostLosses(s, a);
    case FinishSnapshot(_, _) =>
    case AfterSend =>
    case StartSync =>
    case _ =>
  }

  ghost predicate NoLoss(states: seq<Node>, actions: seq<Action>, from: nat, k: nat) {
    k <= |actions| && |states| == |actions| + 1 && forall i :: from <= i < k ==> Lossless(states[i], actions[i])
  }

  /** The counter of a later state is the same exactly when no step between counted a loss. */
  lemma {:induction false} LossesStand(limits: Limits, states: seq<Node>, actions: seq<Action>, from: nat, k: nat)
    requires IsRun(limits, states, actions) && from <= k <= |actions|
    ensures states[k].core.losses >= states[from].core.losses
    ensures states[k].core.losses == states[from].core.losses <==> NoLoss(states, actions, from, k)
    decreases k
  {
    hide Step, Enabled, Inv, Lossless;
    if k > from {
      LossesStand(limits, states, actions, from, k - 1);
      RunInv(limits, states, actions, k - 1);
      assert SnapshotsInOrder(states[k - 1]) by { InvSnapshots(states[k - 1]); }
      hide SnapshotsInOrder;
      LossesOf(states[k - 1], actions[k - 1]);
      assert NoLoss(states, actions, from, k) <==>
             NoLoss(states, actions, from, k - 1) && Lossless(states[k - 1], actions[k - 1]);
    }
  }

  lemma InvSnapshots(s: Node)
    requires Inv(s)
    ensures SnapshotsInOrder(s)
  {
    hide EventsAccounted, FramesAccounted, PostedOnce, QueueInOrder, SyncCovers, PromisesKept;
  }

  // The answer

  /**
   Exactly when flush() answers ok: no step since the previous flush() call counted a loss, and every envelope that
   its sync posted was taken, with the clock aligned each time a pass over the pending frames ended.
   */
  lemma FlushSucceedsExactly(limits: Limits, states: seq<Node>, actions: seq<Action>, previous: nat, call: nat,
                             from: nat, job: nat, r: nat)
    requires IsRun(limits, states, actions) && call < r < |actions|
    requires FollowsFlush(actions, previous, call) && WaitsFor(states, actions, call, from, job)
    requires actions[r] == ResolveFlush(|states[call].flushes|)
    ensures |states[call].flushes| < |states[r + 1].flushes|
    ensures states[r + 1].flushes[|states[call].flushes|].outcome ==
            Some(NoLoss(states, actions, previous, r) && Delivered(states, actions, from, r, job))
  {
    hide Step, Enabled, Tells, Promised, NoLoss, Delivered;
    FlushAnswers(limits, states, actions, previous, call, from, job, r + 1);
    LossesStand(limits, states, actions, previous, r);
    SyncTells(limits, states, actions, from, job, r);
    TellsResult(states[r], job, Delivered(states, actions, from, r, job));
  }

  lemma TellsResult(s: Node, job: nat, good: bool)
    requires Tells(s, job, good) && job in s.results
    ensures s.results[job] == good
  {
  }

  /** A step in which no event or frame is dropped, nothing fails, and an accepted response aligns the clock. */
  predicate Smooth(s: Node, a: Action) {
    match a
    case RecordEvent => |s.core.buffer| < s.limits.maxEvents
    case StartSnapshot(readFails, _) => !readFails
    case FinishSnapshot(batch, _) =>
      batch.droppedEvents == 0 && |s.core.pending| + |batch.frames| <= s.limits.maxPending
    case FailSnapshot => false
    case FinishPost(outcome, _) => outcome.Accepted? && (outcome.aligns || s.core.aligned)
    case SyncTraceThrows(_) => false
    case FrameTraceThrows => false
    case _ => true
  }

  /** In a smooth run a sync that has finished a pass has the clock aligned. */
  ghost predicate PassAligned(s: Node, job: nat) {
    Runs(s, job) ==>
      && s.running.value.job.flush && (s.running.value.second ==> s.core.aligned)
      && (s.running.value.phase.Sent? ==> s.core.aligned)
  }

  lemma PassStep(s: Node, a: Action, job: nat)
    requires Enabled(s, a) && Smooth(s, a) && PassAligned(s, job) && Flushing(s, job)
    ensures PassAligned(Step(s, a), job)
  {
    hide EventsOf, Ids, Numbers, NumbersInOrder, Select, IsSplitOf, Consecutive, Coalesces;
    match a
    case FinishPost(_, _) =>
    case FinishSnapshot(_, _) =>
    case Resume(_) =>
    case AfterSend =>
    case StartSync =>
    case _ =>
  }

  lemma PassDelivers(s: Node, a: Action, job: nat)
    requires Enabled(s, a) && Smooth(s, a) && PassAligned(s, job)
    ensures Runs(s, job) ==> Delivers(s, a)
  {
    hide EventsOf, Ids, Numbers, NumbersInOrder, Select, IsSplitOf, Consecutive, Coalesces;
  }

  lemma JustQueued(s: Node, a: Action)
    requires Inv(s) && s.shutdown.None? && (a.CallFlush? || a.CallShutdown?) && Enabled(s, a)
    ensures !Runs(Step(s, a), Step(s, a).lastJob)
  {
    assert QueueInOrder(s);
    CoalescesIff(s);
    CoalescesIff(s.(stopped := true));
    hide Coalesces, EventsAccounted, FramesAccounted, PostedOnce, SnapshotsInOrder, SyncCovers, PromisesKept;
  }

  lemma {:induction false} SmoothDelivers(limits: Limits, states: seq<Node>, actions: seq<Action>, from: nat, job: nat,
                                          k: nat)
    requires IsRun(limits, states, actions) && from < k <= |actions|
    requires states[from].shutdown.None? && job == states[from + 1].lastJob
    requires actions[from].CallFlush? || actions[from].CallShutdown?
    requires forall i :: from < i < k ==> Smooth(states[i], actions[i])
    ensures PassAligned(states[k], job) && Delivered(states, actions, from, k, job)
    decreases k
  {
    hide Step, Enabled, Inv, Smooth, Promised, Tells;
    if k == from + 1 {
      RunInv(limits, states, actions, from);
      JustQueued(states[from], actions[from]);
    } else {
      SmoothDelivers(limits, states, actions, from, job, k - 1);
      RunInv(limits, states, actions, k - 1);
      SyncTells(limits, states, actions, from, job, k - 1);
      PromisedFlushes(states[k - 1], job);
      PassStep(states[k - 1], actions[k - 1], job);
      PassDelivers(states[k - 1], actions[k - 1], job);
    }
  }

  lemma {:induction false} SmoothIsLossless(states: seq<Node>, actions: seq<Action>, from: nat, k: nat)
    requires k <= |actions| && |states| == |actions| + 1
    requires forall i :: from <= i < k ==> Smooth(states[i], actions[i])
    ensures NoLoss(states, actions, from, k)
  {
  }

  /**
   flush() answers ok when nothing went wrong since the previous flush() call: whatever failed before it does not
   count against it, and a clock that was not aligned costs a second pass but not the answer.
   */
  lemma FlushSucceeds(limits: Limits, states: seq<Node>, actions: seq<Action>, previous: nat, call: nat, from: nat,
                      job: nat, r: nat)
    requires IsRun(limits, states, actions) && call < r < |actions|
    requires FollowsFlush(actions, previous, call) && WaitsFor(states, actions, call, from, job)
    requires actions[r] == ResolveFlush(|states[call].flushes|)
    requires forall i :: previous <= i < r || from < i < r ==> Smooth(states[i], actions[i])
    ensures |states[call].flushes| < |states[r + 1].flushes|
    ensures states[r + 1].flushes[|states[call].flushes|].outcome == Some(true)
  {
    hide Step, Enabled, Smooth, NoLoss, Delivered;
    FlushSucceedsExactly(limits, states, actions, previous, call, from, job, r);
    SmoothIsLossless(states, actions, previous, r);
    SmoothDelivers(limits, states, actions, from, job, r);
  }
}
