/**
 No flush() hangs. Every unresolved call has a rank, a count of what is left before it can resolve; no step of
 the client, the network or the scheduler raises it, and in every reachable state some step lowers it.
 */
module FlushLiveness {
  import opened Wrappers
  import opened Sequences
  import opened Delivery
  import opened FlushProtocol
  import opened FlushSafety
  import opened FlushPromise

  /** The steps that finish work already begun, as against calls, ticks and new events. */
  predicate Finishes(a: Action) {
    || a.StartSync? || a.StartSnapshot? || a.FinishSnapshot? || a.FailSnapshot? || a.Resume? || a.FinishPost?
    || a.AfterSend? || a.ResolveFlush?
  }

  /** The jobs not yet finished up to the one that is waited for, the stage of the running sync, and its rest. */
  datatype Rank = Rank(jobs: nat, stage: nat, rest: nat)

  predicate Lower(r: Rank, q: Rank) {
    r.jobs < q.jobs || (r.jobs == q.jobs && (r.stage < q.stage || (r.stage == q.stage && r.rest < q.rest)))
  }

  function LastFinished(s: Node): int { s.lastJob - |s.waiting| - (if s.running.Some? then 1 else 0) }

  function Stage(s: Node): nat {
    if s.running.None? then 7
    else
      var later := if s.running.value.second then 0 else 3;
      match s.running.value.phase
      case AwaitSnapshot(_) => 3 + later
      case Posting(_, _, _) => 2 + later
      case Sent(_) => 1 + later
  }

  /** The halves of snapshots to await, or the frames behind the envelope on the wire. */
  function Rest(s: Node): nat {
    if s.running.None? then 0
    else match s.running.value.phase
      case AwaitSnapshot(ticket) =>
        if ticket <= s.doneTickets then 0
        else 2 * (ticket - s.doneTickets) - (if s.snapshot.Splitting? then 1 else 0)
      case Posting(batch, _, end) => if end <= |batch| then |batch| - end else 0
      case Sent(_) => 0
  }

  predicate HasJob(s: Node, index: nat) { index < |s.flushes| && s.flushes[index].promise < |s.promises| }

  function RankFor(s: Node, job: nat): Rank {
    if job <= LastFinished(s) then Rank(1, 0, 0) else Rank(1 + (job - LastFinished(s)), Stage(s), Rest(s))
  }

  function RankOf(s: Node, index: nat): Rank {
    if !HasJob(s, index) || s.flushes[index].outcome.Some? then Rank(0, 0, 0)
    else RankFor(s, s.promises[s.flushes[index].promise].job)
  }

  // The envelope on the wire is part of its batch

  ghost predicate InBatch(s: Node) {
    s.running.Some? && s.running.value.phase.Posting? ==>
      var p := s.running.value.phase; p.start <= p.end <= |p.batch|
  }

  lemma InBatchStep(s: Node, a: Action)
    requires InBatch(s) && Enabled(s, a)
    ensures InBatch(Step(s, a))
  {
    hide EventsOf, Ids, Numbers, NumbersInOrder, Select, IsSplitOf, Event, AcceptFrameBatch, Overflow, Coalesces;
    match a
    case Resume(_) =>
    case FinishPost(_, _) =>
    case SyncTraceThrows(_) =>
    case AfterSend =>
    case StartSync =>
    case _ =>
      hide DoResume, DoFinishPost, DoSyncTraceThrows, DoAfterSend, DoStartSync;
      assert Step(s, a).running == s.running;
  }

  lemma {:induction false} RunInBatch(limits: Limits, states: seq<Node>, actions: seq<Action>, k: nat)
    requires IsRun(limits, states, actions) && k <= |actions|
    ensures InBatch(states[k])
  {
    hide Step, Enabled;
    if k > 0 {
      RunInBatch(limits, states, actions, k - 1);
      InBatchStep(states[k - 1], actions[k - 1]);
    }
  }

  // No step raises the rank

  /** What a step leaves of a flush() call: its job, and its outcome unless it is the one that resolves. */
  ghost predicate SameCall(s: Node, t: Node, index: nat) {
    && HasJob(s, index) && HasJob(t, index)
    && t.promises[t.flushes[index].promise].job == s.promises[s.flushes[index].promise].job
    && (t.flushes[index].outcome == s.flushes[index].outcome || t.flushes[index].outcome.Some?)
  }

  lemma CallStays(s: Node, a: Action, index: nat)
    requires HasJob(s, index) && Enabled(s, a)
    ensures SameCall(s, Step(s, a), index)
  {
    hide EventsOf, Ids, Numbers, NumbersInOrder, Select, IsSplitOf, Event, AcceptFrameBatch, Overflow, Consecutive,
      Coalesces;
    match a
    case CallFlush =>
    case FinishPost(_, _) =>
    case SyncTraceThrows(_) =>
    case AfterSend =>
    case StartSync =>
    case _ =>
  }

  predicate NotHigher(s: Node, t: Node, job: nat) {
    RankFor(t, job) == RankFor(s, job) || Lower(RankFor(t, job), RankFor(s, job))
  }

  /** A step of the running sync finishes it or takes it to a later place. */
  predicate MovesOn(s: Node, t: Node) {
    || LastFinished(t) > LastFinished(s)
    || (LastFinished(t) == LastFinished(s)
        && (Stage(t) < Stage(s) || (Stage(t) == Stage(s) && Rest(t) < Rest(s))))
  }

  lemma MovingOnLowers(s: Node, t: Node, job: nat)
    requires MovesOn(s, t)
    ensures NotHigher(s, t, job)
    ensures job > LastFinished(s) ==> Lower(RankFor(t, job), RankFor(s, job))
  {
    hide LastFinished, Stage, Rest;
  }

  lemma StayingKeeps(s: Node, t: Node, job: nat)
    requires StaysPut(s, t)
    ensures NotHigher(s, t, job)
  {
    hide LastFinished, Stage, Rest;
  }

  lemma StartSyncMovesOn(s: Node)
    requires Enabled(s, StartSync)
    ensures MovesOn(s, DoStartSync(s))
  {
  }

  lemma AfterSendMovesOn(s: Node)
    requires Enabled(s, AfterSend)
    ensures MovesOn(s, DoAfterSend(s))
  {
  }

  lemma ResumeMovesOn(s: Node, end: nat)
    requires Enabled(s, Resume(end))
    ensures MovesOn(s, DoResume(s, end))
  {
    hide NumbersInOrder;
  }

  lemma FinishPostMovesOn(s: Node, outcome: PostOutcome, nextEnd: nat)
    requires Enabled(s, FinishPost(outcome, nextEnd))
    ensures MovesOn(s, DoFinishPost(s, outcome, nextEnd))
  {
    hide EventsOf, Ids, Numbers, NumbersInOrder;
  }

  lemma SyncTraceMovesOn(s: Node, fault: TraceFault)
    requires Enabled(s, SyncTraceThrows(fault))
    ensures MovesOn(s, DoSyncTraceThrows(s, fault))
  {
    hide EventsOf, Ids, Numbers;
  }

  ghost predicate StaysPut(s: Node, t: Node) {
    LastFinished(t) == LastFinished(s) && Stage(t) == Stage(s) && Rest(t) <= Rest(s)
  }

  lemma CallsStay(s: Node, a: Action)
    requires Enabled(s, a)
    requires a.RecordEvent? || a.TickSync? || a.TickSnapshot? || a.CallFlush? || a.CallShutdown? || a.ResolveFlush?
             || a.FrameTraceThrows?
    ensures StaysPut(s, Step(s, a))
  {
    hide Event, Coalesces, DoStartSync, DoAfterSend, DoResume, DoFinishPost, DoSyncTraceThrows, DoFinishSnapshot,
      DoStartSnapshot, DoFailSnapshot, Rest, Stage;
    var t := Step(s, a);
    assert t.running == s.running && t.doneTickets == s.doneTickets && t.snapshot == s.snapshot;
    SamePlace(s, t);
  }

  lemma SamePlace(s: Node, t: Node)
    requires t.running == s.running && t.doneTickets == s.doneTickets && t.snapshot == s.snapshot
    ensures Stage(t) == Stage(s) && Rest(t) == Rest(s)
  {
  }

  /** The steps of a snapshot leave the running sync where it is, or closer to its ticket. */
  lemma SnapshotsStay(s: Node, a: Action)
    requires SnapshotsInOrder(s) && Enabled(s, a) && (a.StartSnapshot? || a.FinishSnapshot? || a.FailSnapshot?)
    ensures StaysPut(s, Step(s, a))
  {
    hide EventsOf, Ids, Numbers, Select, IsSplitOf, AcceptFrameBatch, Overflow;
    hide DoStartSync, DoAfterSend, DoResume, DoFinishPost, DoSyncTraceThrows, DoRecordEvent, EnqueueSync, DoCallFlush,
      DoCallShutdown, DoResolveFlush;
  }

  /** The rank of a call, over any step. */
  lemma RankNeverGrows(s: Node, a: Action, index: nat)
    requires Inv(s) && HasJob(s, index) && Enabled(s, a)
    ensures HasJob(Step(s, a), index)
    ensures RankOf(Step(s, a), index) == RankOf(s, index) || Lower(RankOf(Step(s, a), index), RankOf(s, index))
  {
    CallStays(s, a, index);
    assert SnapshotsInOrder(s);
    var t, job := Step(s, a), s.promises[s.flushes[index].promise].job;
    assert NotHigher(s, t, job) by {
      match a
      case StartSync => StartSyncMovesOn(s); MovingOnLowers(s, t, job);
      case AfterSend => AfterSendMovesOn(s); MovingOnLowers(s, t, job);
      case Resume(end) => ResumeMovesOn(s, end); MovingOnLowers(s, t, job);
      case FinishPost(outcome, nextEnd) => FinishPostMovesOn(s, outcome, nextEnd); MovingOnLowers(s, t, job);
      case SyncTraceThrows(fault) => SyncTraceMovesOn(s, fault); MovingOnLowers(s, t, job);
      case StartSnapshot(_, _) => SnapshotsStay(s, a); StayingKeeps(s, t, job);
      case FinishSnapshot(_, _) => SnapshotsStay(s, a); StayingKeeps(s, t, job);
      case FailSnapshot => SnapshotsStay(s, a); StayingKeeps(s, t, job);
      case _ => CallsStay(s, a); StayingKeeps(s, t, job);
    }
    hide Step, Inv, RankFor;
  }

  // Every step that serves the call lowers it

  /** The step that the running sync, or the chain without one, waits for; its outcome is open. */
  predicate Awaited(s: Node, a: Action) {
    if s.running.None? then a.StartSync?
    else match s.running.value.phase
      case AwaitSnapshot(ticket) =>
        if ticket <= s.doneTickets then a.Resume?
        else if s.snapshot.Splitting? then a.FinishSnapshot? || a.FailSnapshot?
        else a.StartSnapshot?
      case Posting(_, _, _) => a.FinishPost? || a.SyncTraceThrows?
      case Sent(_) => a.AfterSend?
  }

  predicate IsOpen(s: Node, index: nat) { HasJob(s, index) && s.flushes[index].outcome.None? }

  /** The step is what the unresolved call waits for: to be resolved, or the work in front of its sync. */
  predicate Serves(s: Node, a: Action, index: nat) {
    && IsOpen(s, index)
    && (if s.promises[s.flushes[index].promise].job <= LastFinished(s) then a == ResolveFlush(index) else Awaited(s, a))
  }

  /** A snapshot that the running sync awaits is begun or ended, well or not. */
  lemma SnapshotMovesOn(s: Node, a: Action)
    requires SnapshotsInOrder(s) && Enabled(s, a) && (a.StartSnapshot? || a.FinishSnapshot? || a.FailSnapshot?)
    requires s.running.Some? && s.running.value.phase.AwaitSnapshot?
    requires s.running.value.phase.ticket > s.doneTickets
    ensures MovesOn(s, Step(s, a))
  {
    hide EventsOf, Ids, Numbers, Select, IsSplitOf, AcceptFrameBatch, Overflow;
    hide DoStartSync, DoAfterSend, DoResume, DoFinishPost, DoSyncTraceThrows, DoRecordEvent, EnqueueSync, DoCallFlush,
      DoCallShutdown, DoResolveFlush;
  }

  lemma AwaitedMovesOn(s: Node, a: Action)
    requires SnapshotsInOrder(s) && Enabled(s, a) && Awaited(s, a)
    ensures MovesOn(s, Step(s, a))
  {
    match a
    case StartSync => StartSyncMovesOn(s);
    case AfterSend => AfterSendMovesOn(s);
    case Resume(end) => ResumeMovesOn(s, end);
    case FinishPost(outcome, nextEnd) => FinishPostMovesOn(s, outcome, nextEnd);
    case SyncTraceThrows(fault) => SyncTraceMovesOn(s, fault);
    case _ =>
      hide Step, MovesOn, SnapshotsInOrder;
      SnapshotMovesOn(s, a);
  }

  /** Whatever the outcome of the awaited post or snapshot, success included, the call is closer to its own. */
  lemma ServingLowers(s: Node, a: Action, index: nat)
    requires Inv(s) && Enabled(s, a) && Serves(s, a, index)
    ensures HasJob(Step(s, a), index) && Lower(RankOf(Step(s, a), index), RankOf(s, index))
  {
    CallStays(s, a, index);
    assert SnapshotsInOrder(s);
    hide Inv, Stage, Rest, LastFinished, SnapshotsInOrder;
    var job := s.promises[s.flushes[index].promise].job;
    if job > LastFinished(s) {
      AwaitedMovesOn(s, a);
      hide Step, Awaited, Enabled;
      MovingOnLowers(s, Step(s, a), job);
    }
  }

  /** Some such step is enabled as long as the call is unresolved, and it only finishes work already begun. */
  lemma FlushAdvances(s: Node, index: nat) returns (a: Action)
    requires Inv(s) && InBatch(s) && index < |s.flushes| && s.flushes[index].outcome.None?
    ensures Enabled(s, a) && Finishes(a) && Serves(s, a, index)
  {
    assert FlushSound(s, s.flushes[index]);
    var job := s.promises[s.flushes[index].promise].job;
    assert PromiseKept(s, s.promises[s.flushes[index].promise]);
    assert job in s.results <==> job <= LastFinished(s) by { assert QueueInOrder(s); }
    hide PromiseKept, FlushSound;
    if job in s.results {
      a := ResolveFlush(index);
    } else {
      JobAhead(s, job);
      a := SyncAdvances(s);
    }
    hide Inv, Stage, Rest, LastFinished, Awaited;
  }

  lemma SyncAdvances(s: Node) returns (a: Action)
    requires SnapshotsInOrder(s) && InBatch(s) && (s.running.Some? || s.waiting != [])
    ensures Enabled(s, a) && Finishes(a) && Awaited(s, a)
  {
    if s.running.None? {
      a := StartSync;
    } else {
      match s.running.value.phase
      case AwaitSnapshot(ticket) =>
        a := if ticket <= s.doneTickets then Resume(|s.core.pending|)
             else if s.snapshot.Splitting? then FailSnapshot else StartSnapshot(true, false);
      case Posting(batch, start, end) =>
        a := FinishPost(Rejected(false), |batch|);
      case Sent(_) =>
        a := AfterSend;
    }
  }

  lemma JobAhead(s: Node, job: nat)
    requires Inv(s) && job <= s.lastJob && job > LastFinished(s)
    ensures (s.running.Some? || s.waiting != []) && SnapshotsInOrder(s)
  {
    hide EventsAccounted, FramesAccounted, PostedOnce, SyncCovers, PromisesKept, SnapshotsInOrder;
  }

  lemma ExtendRun(limits: Limits, states: seq<Node>, actions: seq<Action>, a: Action)
    requires IsRun(limits, states, actions) && Enabled(states[|actions|], a)
    ensures IsRun(limits, states + [Step(states[|actions|], a)], actions + [a])
  {
    hide Step, Enabled;
    var more, all := states + [Step(states[|actions|], a)], actions + [a];
    forall i | 0 <= i < |all| ensures Enabled(more[i], all[i]) && more[i + 1] == Step(more[i], all[i]) {
      if i < |actions| { assert more[i + 1] == states[i + 1]; }
    }
  }

  /**
   From every reachable state, every flush() made so far can still resolve: steps that only finish work already
   begun, without another call, tick or event, lead to a state in which it has its outcome.
   */
  lemma {:induction false} FlushResolves(limits: Limits, states: seq<Node>, actions: seq<Action>, index: nat)
    returns (states': seq<Node>, actions': seq<Action>)
    requires IsRun(limits, states, actions) && index < |states[|actions|].flushes|
    ensures IsRun(limits, states', actions') && states <= states' && actions <= actions'
    ensures forall i :: |actions| <= i < |actions'| ==> Finishes(actions'[i])
    ensures index < |states'[|actions'|].flushes| && states'[|actions'|].flushes[index].outcome.Some?
    decreases RankOf(states[|actions|], index).jobs, RankOf(states[|actions|], index).stage,
      RankOf(states[|actions|], index).rest
  {
    var s := states[|actions|];
    states', actions' := states, actions;
    if s.flushes[index].outcome.None? {
      RunInv(limits, states, actions, |actions|);
      RunInBatch(limits, states, actions, |actions|);
      var a := FlushAdvances(s, index);
      ServingLowers(s, a, index);
      ExtendRun(limits, states, actions, a);
      hide Step, Enabled, Inv, RankOf, IsRun, Serves;
      states', actions' := FlushResolves(limits, states + [Step(s, a)], actions + [a], index);
    }
  }

  // Runs that never end

  ghost predicate IsEndlessRun(limits: Limits, states: nat -> Node, actions: nat -> Action) {
    && states(0) == Initial(limits)
    && forall i: nat :: Enabled(states(i), actions(i)) && states(i + 1) == Step(states(i), actions(i))
  }

  lemma {:induction false} EndlessInv(limits: Limits, states: nat -> Node, actions: nat -> Action, i: nat)
    requires IsEndlessRun(limits, states, actions)
    ensures Inv(states(i)) && InBatch(states(i))
  {
    hide Step, Enabled, Inv;
    if i == 0 {
      InitialInv(limits);
    } else {
      EndlessInv(limits, states, actions, i - 1);
      assert Enabled(states(i - 1), actions(i - 1));
      InvStep(states(i - 1), actions(i - 1));
      InBatchStep(states(i - 1), actions(i - 1));
    }
  }

  ghost predicate ServedFrom(states: nat -> Node, actions: nat -> Action, index: nat, i: nat) {
    exists j: nat :: i <= j && Serves(states(j), actions(j), index)
  }

  /** The work that the call waits for is never left undone for ever: a post returns, a snapshot ends, a job starts. */
  ghost predicate IsFair(states: nat -> Node, actions: nat -> Action, index: nat) {
    forall i: nat :: IsOpen(states(i), index) ==> ServedFrom(states, actions, index, i)
  }

  /** From one state to a later one the rank has not grown, and the call is still there. */
  lemma {:induction false} RankOnTheWay(limits: Limits, states: nat -> Node, actions: nat -> Action, index: nat,
                                        i: nat, j: nat)
    requires IsEndlessRun(limits, states, actions) && i <= j && HasJob(states(i), index)
    ensures HasJob(states(j), index)
    ensures RankOf(states(j), index) == RankOf(states(i), index) ||
            Lower(RankOf(states(j), index), RankOf(states(i), index))
    decreases j
  {
    hide Step, Enabled, Inv, RankOf;
    if j > i {
      RankOnTheWay(limits, states, actions, index, i, j - 1);
      EndlessInv(limits, states, actions, j - 1);
      assert Enabled(states(j - 1), actions(j - 1));
      RankNeverGrows(states(j - 1), actions(j - 1), index);
    }
  }

  /** The next step that serves an open call leaves it at a lower rank. */
  lemma NextServed(limits: Limits, states: nat -> Node, actions: nat -> Action, index: nat, i: nat) returns (k: nat)
    requires IsEndlessRun(limits, states, actions) && IsFair(states, actions, index) && IsOpen(states(i), index)
    ensures i < k && HasJob(states(k), index) && Lower(RankOf(states(k), index), RankOf(states(i), index))
  {
    hide Step, Enabled, Inv, RankOf, Serves, Initial, InBatch;
    assert ServedFrom(states, actions, index, i);
    var j: nat :| i <= j && Serves(states(j), actions(j), index);
    RankOnTheWay(limits, states, actions, index, i, j);
    EndlessInv(limits, states, actions, j);
    assert Enabled(states(j), actions(j));
    ServingLowers(states(j), actions(j), index);
    k := j + 1;
  }

  /**
   On every endless fair run, whatever else is called, recorded or fails in between, every flush() gets its
   outcome.
   */
  lemma {:induction false} FairRunResolves(limits: Limits, states: nat -> Node, actions: nat -> Action, index: nat,
                                           i: nat) returns (k: nat)
    requires IsEndlessRun(limits, states, actions) && IsFair(states, actions, index) && index < |states(i).flushes|
    ensures i <= k && index < |states(k).flushes| && states(k).flushes[index].outcome.Some?
    decreases RankOf(states(i), index).jobs, RankOf(states(i), index).stage, RankOf(states(i), index).rest
  {
    k := i;
    hide IsEndlessRun, IsFair, Inv, InBatch, RankOf;
    if states(i).flushes[index].outcome.None? {
      EndlessInv(limits, states, actions, i);
      CallHasJob(states(i), index);
      var j := NextServed(limits, states, actions, index, i);
      k := FairRunResolves(limits, states, actions, index, j);
    }
  }

  lemma CallHasJob(s: Node, index: nat)
    requires Inv(s) && index < |s.flushes|
    ensures HasJob(s, index)
  {
    assert FlushSound(s, s.flushes[index]);
  }
}
