/**
 The life of a run: exactly when it begins, what a checkpoint and a cancellation ask of it, and how a process that
 was asked to pause or to cancel ends.
 */
module StoreRuns {
  import opened Prelude
  import opened Domain
  import opened Store
  import opened StoreInvariant
  import opened StoreSteps
  import opened StoreTheorems
  import opened StoreStatus
  import TaskGraph
  import Api = ApiBudget
  import Control = StoreControl
  import Effects = StoreEffects
  import Leases = StoreLeases

  // --- A run begins ---

  /** A route on record lets the adapter do the task. */
  predicate Routed(routes: seq<Route>, route: Option<nat>, task: nat, adapter: string) {
    && route.Some? && route.value < |routes|
    && routes[route.value].allowed && routes[route.value].task == task && routes[route.value].adapter == Some(adapter)
  }

  /**
   A claim becomes a run exactly for the leader that made it, while it is active and unexpired, its task is leased,
   its route is an allowed one of the adapter for that task, and the run's name is new.
   */
  lemma RunBeginsExactly(s: State, c: nat, instance: string, generation: nat, runId: string, adapter: string,
                         ttl: nat, now: int)
    ensures BeginClaimedRun(s, c, instance, generation, runId, adapter, ttl, now).Ok? <==>
              && s.leader.Some? && s.leader.value.instance == instance && s.leader.value.generation == generation
              && now < s.leader.value.expiresAt
              && c < |s.claims| && s.claims[c].instance == instance && s.claims[c].generation == generation
              && s.claims[c].status == ClaimActive && now < s.claims[c].expiresAt
              && s.claims[c].task < |s.graph.tasks| && s.graph.tasks[s.claims[c].task].status == TaskStatus.Leased
              && Routed(s.routes, s.claims[c].route, s.claims[c].task, adapter)
              && forall r :: 0 <= r < |s.runs| ==> s.runs[r].id != runId
  {
  }

  /**
   The run is added under a fresh lease, its claim consumed into it, its task running, and what the claim reserved
   bound to the run for as long as its lease; nothing else begins or ends.
   */
  lemma RunBegins(s: State, c: nat, instance: string, generation: nat, runId: string, adapter: string, ttl: nat, now: int)
    requires BeginClaimedRun(s, c, instance, generation, runId, adapter, ttl, now).Ok?
    ensures
      var h := BeginClaimedRun(s, c, instance, generation, runId, adapter, ttl, now).value;
      && s.claims[c].task < |s.graph.tasks|
      && h.claims == s.claims[c := s.claims[c].(status := ClaimConsumed, run := Some(|s.runs|))]
      && h.runs == s.runs + [Run(runId, s.claims[c].task, "running", NotRequested, None,
                                 Lease(instance, generation, now + ttl, false))]
      && h.graph.deps == s.graph.deps && |h.graph.tasks| == |s.graph.tasks|
      && (forall t :: 0 <= t < |s.graph.tasks| ==>
            if t == s.claims[c].task
            then h.graph.tasks[t] == s.graph.tasks[t].(status := Running, version := s.graph.tasks[t].version + 2)
            else h.graph.tasks[t] == s.graph.tasks[t])
      && h.locks == s.locks
      && |h.quota| == |s.quota|
      && (forall i :: 0 <= i < |s.quota| ==>
            h.quota[i] == if s.quota[i].claim == c && s.quota[i].status == QuotaActive
                          then s.quota[i].(status := QuotaRunning, run := Some(|s.runs|), expiresAt := now + ttl)
                          else s.quota[i])
      && h.api == s.api.(reservations := h.api.reservations) && |h.api.reservations| == |s.api.reservations|
      && (forall i :: 0 <= i < |s.api.reservations| ==>
            h.api.reservations[i]
            == if s.api.reservations[i].status == Api.Active && s.api.reservations[i].claim == Some(c)
               then s.api.reservations[i].(run := Some(|s.runs|), expiresAt := now + ttl) else s.api.reservations[i])
  {
  }

  // --- A run is asked ---

  /**
   A checkpoint is taken exactly by the holder of the run's unreleased and unexpired lease while the run is at work.
   It extends the lease and the quota of the run, and a pause or a cancellation is asked for.
   */
  lemma CheckpointExactly(s: State, r: nat, owner: string, generation: nat, ttl: nat, action: CheckpointAction, now: int)
    ensures Checkpoint(s, r, owner, generation, ttl, action, now).Ok? <==>
              && r < |s.runs| && s.runs[r].lease.owner == owner && s.runs[r].lease.generation == generation
              && !s.runs[r].lease.released && now < s.runs[r].lease.expiresAt
              && s.runs[r].status == "running"
              && s.runs[r].task < |s.graph.tasks| && s.graph.tasks[s.runs[r].task].status == Running
    ensures Checkpoint(s, r, owner, generation, ttl, action, now).Ok? ==>
              var h := Checkpoint(s, r, owner, generation, ttl, action, now).value;
              && h == s.(runs := h.runs, quota := h.quota) && |h.runs| == |s.runs|
              && (forall q :: 0 <= q < |s.runs| && q != r ==> h.runs[q] == s.runs[q])
              && h.runs[r].lease == Lease(owner, generation, now + ttl, false)
              && h.runs[r] == s.runs[r].(lease := h.runs[r].lease, cancellation := h.runs[r].cancellation,
                                         requestedAction := h.runs[r].requestedAction)
              && (action == Pause ==>
                    h.runs[r].cancellation == CancelRequested && h.runs[r].requestedAction == Some("pause"))
              && (action == Cancel ==>
                    h.runs[r].cancellation == CancelRequested && h.runs[r].requestedAction == Some("cancel"))
              && (action == Continue || action == ShortenCheckpoint ==>
                    h.runs[r].cancellation == s.runs[r].cancellation
                    && h.runs[r].requestedAction == s.runs[r].requestedAction)
              && |h.quota| == |s.quota|
              && (forall i :: 0 <= i < |s.quota| ==>
                    h.quota[i] == if s.quota[i].run == Some(r) && s.quota[i].status == QuotaRunning
                                  then s.quota[i].(expiresAt := now + ttl) else s.quota[i])
  {
  }

  /** A running run is asked to cancel once; a request already made stands as it was. */
  lemma CancellationExactly(s: State, r: nat)
    ensures RequestCancellation(s, r).Ok? <==> r < |s.runs| && s.runs[r].status == "running"
    ensures RequestCancellation(s, r).Ok? ==>
              var h := RequestCancellation(s, r).value;
              && h == s.(runs := h.runs) && |h.runs| == |s.runs|
              && (forall q :: 0 <= q < |s.runs| && q != r ==> h.runs[q] == s.runs[q])
              && h.runs[r] == if s.runs[r].cancellation == NotRequested
                              then s.runs[r].(cancellation := CancelRequested, requestedAction := Some("cancel"))
                              else s.runs[r]
  {
  }

  // --- A run lets go ---

  /** Exactly what is still held or waiting for the run is released, and nothing else of quota or ledger changes. */
  ghost predicate Unreserved(s: State, h: State, r: nat) {
    && |h.quota| == |s.quota|
    && (forall i :: 0 <= i < |s.quota| ==>
          h.quota[i] == if s.quota[i].run == Some(r) && (s.quota[i].status == QuotaActive || s.quota[i].status == QuotaRunning)
                        then s.quota[i].(status := QuotaReleased) else s.quota[i])
    && h.api == s.api.(reservations := h.api.reservations) && |h.api.reservations| == |s.api.reservations|
    && (forall i :: 0 <= i < |s.api.reservations| ==>
          h.api.reservations[i]
          == if s.api.reservations[i].run == Some(r) && s.api.reservations[i].status == Api.Active
             then s.api.reservations[i].(status := Api.Released) else s.api.reservations[i])
  }

  /** Exactly the locks of the claim that became the run are released. */
  ghost predicate Unlocked(s: State, h: State, r: nat) {
    && |h.locks| == |s.locks|
    && forall l :: 0 <= l < |s.locks| ==>
         h.locks[l] == if s.locks[l].claim < |s.claims| && s.claims[s.locks[l].claim].run == Some(r)
                       then s.locks[l].(released := true) else s.locks[l]
  }

  /** An existing run can always be finished: its status is recorded, its lease, its locks and its reservations end. */
  lemma FinishExactly(s: State, r: nat, status: string)
    ensures FinishRun(s, r, status).Ok? <==> r < |s.runs|
    ensures FinishRun(s, r, status).Ok? ==>
              var h := FinishRun(s, r, status).value;
              && h.runs == s.runs[r := s.runs[r].(status := status, lease := s.runs[r].lease.(released := true))]
              && h.graph == s.graph && h.claims == s.claims && Unlocked(s, h, r) && Unreserved(s, h, r)
  {
  }

  /** The outcome of a process ends the reservations of its run, and with a failure its locks. */
  lemma OutcomeLetsGo(s: State, r: nat, failure: Option<FailureCategory>)
    requires RecordOutcome(s, r, failure).Ok?
    ensures
      var h := RecordOutcome(s, r, failure).value;
      && Unreserved(s, h, r) && h.claims == s.claims
      && if failure.Some? then Unlocked(s, h, r) else h.locks == s.locks
  {
  }

  /** An emergency stop asks exactly the runs at work to cancel, unless they have completed a cancellation. */
  lemma EmergencyAsksExactly(s: State, reason: string)
    requires EmergencyStop(s, reason).Ok?
    ensures
      var h := EmergencyStop(s, reason).value;
      && |h.runs| == |s.runs|
      && forall r :: 0 <= r < |s.runs| ==>
           h.runs[r]
           == if s.runs[r].status == "running" && s.runs[r].task < |s.graph.tasks|
                 && s.graph.tasks[s.runs[r].task].status == Running && s.runs[r].cancellation != CancelCompleted
              then s.runs[r].(cancellation := CancelRequested, requestedAction := Some("cancel")) else s.runs[r]
  {
    var stopped := s.(control := Store.Control(true, true), runs := CancelAtWork(s.runs, s.graph.tasks));
    EndClaimsFrame(stopped, ActiveClaims(s.claims), Emergency);
  }

  lemma {:induction false} OrphansLetGo(s: State, rs: seq<nat>, r: nat)
    requires forall k :: 0 <= k < |rs| ==> rs[k] < |s.runs| && s.runs[rs[k]].task < |s.graph.tasks|
    requires r in rs
    ensures Effects.NothingReserved(OrphanRuns(s, rs), r) && Effects.NothingLocked(OrphanRuns(s, rs), r)
  {
    var n := |rs| - 1;
    var front := OrphanRuns(s, rs[..n]);
    if r in rs[..n] {
      OrphansLetGo(s, rs[..n], r);
      OrphanKeepsReleased(front, rs[n], r);
    } else {
      assert rs[n] == r;
      OrphanReleases(front, r);
    }
  }

  lemma OrphanReleases(s: State, r: nat)
    requires r < |s.runs| && s.runs[r].task < |s.graph.tasks|
    ensures Effects.NothingReserved(OrphanRun(s, r), r) && Effects.NothingLocked(OrphanRun(s, r), r)
  {
  }

  lemma OrphanKeepsReleased(s: State, q: nat, r: nat)
    requires q < |s.runs| && s.runs[q].task < |s.graph.tasks|
    requires Effects.NothingReserved(s, r) && Effects.NothingLocked(s, r)
    ensures Effects.NothingReserved(OrphanRun(s, q), r) && Effects.NothingLocked(OrphanRun(s, q), r)
  {
  }

  /** A recovered run keeps nothing: no lock, no quota and no undispatched paid request. */
  lemma RecoveryLetsGo(s: State, r: nat, now: int)
    requires Inv(s) && r < |s.runs| && s.runs[r].task < |s.graph.tasks|
    requires Effects.Abandoned(s.runs[r], s.graph.tasks[s.runs[r].task].status, now)
    ensures Effects.NothingReserved(RecoverLeases(s, now), r) && Effects.NothingLocked(RecoverLeases(s, now), r)
  {
    assert forall q :: 0 <= q < |s.runs| ==> s.runs[q].task < |s.graph.tasks|;
    Effects.OverdueMeansAbandoned(s.runs[r], s.graph.tasks, now);
    hide Inv;
    OrphansLetGo(s, OverdueRuns(s.runs, s.graph.tasks, now, |s.runs|), r);
  }

  // --- Whole runs of the store ---

  /** The route was recorded by some step of the run. */
  ghost predicate Recorded(steps: seq<Step>, route: Route) {
    exists k :: 0 <= k < |steps| && steps[k].op == RecordRouteOp(route)
  }

  lemma RecordedEarlier(steps: seq<Step>, route: Route)
    requires steps != [] && Recorded(steps[..|steps| - 1], route)
    ensures Recorded(steps, route)
  {
    var front := steps[..|steps| - 1];
    var k :| 0 <= k < |front| && front[k].op == RecordRouteOp(route);
    assert steps[k] == front[k];
  }

  /** Routes are only ever added, each by a step that recorded it. */
  lemma {:induction false} RoutesAreRecorded(s: State, steps: seq<Step>)
    requires Inv(s) && AllDisciplined(steps)
    ensures s.routes <= After(s, steps).routes
    ensures forall i :: |s.routes| <= i < |After(s, steps).routes| ==> Recorded(steps, After(s, steps).routes[i])
  {
    hide Inv, Next, Recorded;
    if steps != [] {
      var front, last := steps[..|steps| - 1], steps[|steps| - 1];
      Control.NextMovesControl(After(s, front), last);
      RoutesAreRecorded(s, front);
      forall i | |s.routes| <= i < |After(s, steps).routes|
        ensures Recorded(steps, After(s, steps).routes[i])
      {
        if i < |After(s, front).routes| {
          RecordedEarlier(steps, After(s, steps).routes[i]);
        } else {
          LastIsRecorded(steps, After(s, steps).routes[i]);
        }
      }
    }
  }

  lemma LastIsRecorded(steps: seq<Step>, route: Route)
    requires steps != [] && steps[|steps| - 1].op == RecordRouteOp(route)
    ensures Recorded(steps, route)
  {
  }

  /** Whatever begins in any run was routed in it: an allowed route of that adapter for that task was recorded before. */
  lemma WorkIsRouted(steps: seq<Step>, c: nat, instance: string, generation: nat, runId: string, adapter: string,
                     ttl: nat, now: int)
    requires AllDisciplined(steps)
    requires BeginClaimedRun(Reached(steps), c, instance, generation, runId, adapter, ttl, now).Ok?
    ensures
      var s := Reached(steps);
      exists route :: Recorded(steps, route) && route.allowed && route.adapter == Some(adapter)
                      && c < |s.claims| && route.task == s.claims[c].task
  {
    EmptyStateInv();
    var s := Reached(steps);
    hide After, Inv, Recorded;
    RunBeginsExactly(s, c, instance, generation, runId, adapter, ttl, now);
    hide BeginClaimedRun;
    RoutesAreRecorded(EmptyState, steps);
    assert Recorded(steps, s.routes[s.claims[c].route.value]);
  }

  // --- A run that was asked ---

  /** A checkpoint that asks the run to pause or to cancel, or an emergency stop, which asks every run. */
  predicate Redirects(op: Op, r: nat) {
    op.EmergencyStopOp? || (op.CheckpointOp? && op.run == r && (op.action == Pause || op.action == Cancel))
  }

  /** The run was asked, and what was asked stands. */
  predicate ActionStands(before: seq<Run>, after: seq<Run>, r: nat)
    requires r < |before|
  {
    r < |after| && (before[r].cancellation != NotRequested ==> after[r].requestedAction == before[r].requestedAction)
  }

  lemma OutcomeKeepsAction(s: State, q: nat, failure: Option<FailureCategory>, r: nat)
    requires RecordOutcome(s, q, failure).Ok? && r < |s.runs|
    ensures ActionStands(s.runs, RecordOutcome(s, q, failure).value.runs, r)
  {
  }

  lemma RecoveryKeepsAction(s: State, now: int, r: nat)
    requires Inv(s) && r < |s.runs|
    ensures ActionStands(s.runs, RecoverLeases(s, now).runs, r)
  {
    Effects.OverdueRunsOrphaned(s, now);
    hide Inv, RecoverLeases;
  }

  lemma BeginKeepsAction(s: State, c: nat, instance: string, generation: nat, runId: string, adapter: string,
                         ttl: nat, now: int, r: nat)
    requires BeginClaimedRun(s, c, instance, generation, runId, adapter, ttl, now).Ok? && r < |s.runs|
    ensures ActionStands(s.runs, BeginClaimedRun(s, c, instance, generation, runId, adapter, ttl, now).value.runs, r)
  {
  }

  lemma RunOpKeepsAction(s: State, op: Op, now: int, h: State, r: nat)
    requires Inv(s) && Apply(s, op, now) == Ok(h) && r < |s.runs| && ChangesRuns(op) && !Redirects(op, r)
    ensures ActionStands(s.runs, h.runs, r)
  {
    hide Inv, EmergencyStop, BeginClaimedRun, RecordOutcome, RecoverLeases, ActionStands;
    if op.BeginClaimedRunOp? {
      BeginKeepsAction(s, op.claim, op.instance, op.generation, op.runId, op.adapter, op.ttl, now, r);
    } else if op.RecordOutcomeOp? {
      OutcomeKeepsAction(s, op.run, op.failure, r);
    } else {
      RecoveryKeepsAction(s, now, r);
    }
  }

  lemma OtherOpKeepsAction(s: State, op: Op, now: int, h: State, r: nat)
    requires TaskGraph.WellFormed(s.graph) && Apply(s, op, now) == Ok(h) && r < |s.runs| && !Redirects(op, r)
    requires !ChangesRuns(op) && !ChangesClaims(op)
    ensures ActionStands(s.runs, h.runs, r)
  {
  }

  lemma NextKeepsAction(s: State, step: Step, r: nat)
    requires Inv(s) && Disciplined(step.op) && r < |s.runs| && !Redirects(step.op, r)
    ensures ActionStands(s.runs, Next(s, step).runs, r)
  {
    assert TaskGraph.WellFormed(s.graph);
    var h := Next(s, step);
    hide Inv, Apply, TaskGraph.WellFormed;
    if Apply(s, step.op, step.now).Ok? {
      if ChangesRuns(step.op) {
        RunOpKeepsAction(s, step.op, step.now, h, r);
      } else if ChangesClaims(step.op) {
        Leases.ClaimOpKeepsRuns(s, step.op, step.now, h);
      } else {
        OtherOpKeepsAction(s, step.op, step.now, h, r);
      }
    }
  }

  ghost predicate NeverRedirects(steps: seq<Step>, r: nat) {
    forall k :: 0 <= k < |steps| ==> !Redirects(steps[k].op, r)
  }

  /** What a run was asked stands over any continuation that does not ask it again. */
  lemma {:induction false} RequestedActionStands(s: State, steps: seq<Step>, r: nat)
    requires Inv(s) && AllDisciplined(steps) && NeverRedirects(steps, r)
    requires r < |s.runs| && s.runs[r].cancellation != NotRequested
    ensures ActionStands(s.runs, After(s, steps).runs, r) && After(s, steps).runs[r].cancellation != NotRequested
  {
    hide Inv, Next, Redirects;
    CancellationStands(s, steps, r);
    if steps != [] {
      var front, last := steps[..|steps| - 1], steps[|steps| - 1];
      RequestedActionStands(s, front, r);
      NextKeepsAction(After(s, front), last, r);
    }
  }

  /** The outcome of a process is recorded exactly while its run is at work, on its run and its task alone. */
  lemma OutcomeExactly(s: State, r: nat, failure: Option<FailureCategory>)
    ensures RecordOutcome(s, r, failure).Ok? <==>
              && r < |s.runs| && s.runs[r].status == "running"
              && s.runs[r].task < |s.graph.tasks| && s.graph.tasks[s.runs[r].task].status == Running
    ensures RecordOutcome(s, r, failure).Ok? ==>
              var h := RecordOutcome(s, r, failure).value;
              && |h.graph.tasks| == |s.graph.tasks| && |h.runs| == |s.runs|
              && (forall t :: 0 <= t < |s.graph.tasks| && t != s.runs[r].task ==> h.graph.tasks[t] == s.graph.tasks[t])
              && EndedAs(h.runs[r].status, h.graph.tasks[s.runs[r].task].status, failure, s.runs[r].requestedAction)
              && h.runs[r].lease.released == (s.runs[r].lease.released || failure.Some?)
              && h.runs[r].cancellation
                 == if failure == Some(CancelledByRequest) then CancelCompleted else s.runs[r].cancellation
  {
  }

  /** How a run and its task end. */
  predicate EndedAs(run: string, task: TaskStatus, failure: Option<FailureCategory>, asked: Option<string>) {
    match failure
    case None => run == "verifying" && task == Verifying
    case Some(CancelledByRequest) =>
      if asked == Some("pause") then run == "paused" && task == Paused else run == "cancelled" && task == Cancelled
    case Some(_) => run == "failed" && task == Failed
  }

  lemma CheckpointApplies(s: State, r: nat, owner: string, generation: nat, ttl: nat, action: CheckpointAction, now: int)
    requires Inv(s) && Checkpoint(s, r, owner, generation, ttl, action, now).Ok?
    ensures Next(s, Step(now, CheckpointOp(r, owner, generation, ttl, action)))
         == Checkpoint(s, r, owner, generation, ttl, action, now).value
  {
    assert TaskGraph.WellFormed(s.graph);
    CheckpointIsApplied(s, r, owner, generation, ttl, action, now);
    hide Inv, Checkpoint, Apply, TaskGraph.WellFormed;
  }

  lemma CheckpointIsApplied(s: State, r: nat, owner: string, generation: nat, ttl: nat, action: CheckpointAction, now: int)
    requires TaskGraph.WellFormed(s.graph)
    ensures Apply(s, CheckpointOp(r, owner, generation, ttl, action), now)
         == Checkpoint(s, r, owner, generation, ttl, action, now)
  {
    hide Checkpoint;
  }

  /**
   A run that a checkpoint asked to pause, or to cancel, and that is not asked anything else ends, once its process
   reports that it stopped as requested, with its task paused, or cancelled, and its lease released.
   */
  lemma AskedRunEndsAsAsked(s: State, r: nat, owner: string, generation: nat, ttl: nat, action: CheckpointAction, now: int,
                            steps: seq<Step>)
    requires Inv(s) && Checkpoint(s, r, owner, generation, ttl, action, now).Ok? && (action == Pause || action == Cancel)
    requires AllDisciplined(steps) && NeverRedirects(steps, r)
    ensures
      var h := After(Next(s, Step(now, CheckpointOp(r, owner, generation, ttl, action))), steps);
      RecordOutcome(h, r, Some(CancelledByRequest)).Ok? ==>
        var e := RecordOutcome(h, r, Some(CancelledByRequest)).value;
        && e.graph.tasks[h.runs[r].task].status == (if action == Pause then Paused else Cancelled)
        && e.runs[r].lease.released && e.runs[r].cancellation == CancelCompleted
  {
    hide Inv, Next, After, Checkpoint, RecordOutcome, NeverRedirects;
    CheckpointApplies(s, r, owner, generation, ttl, action, now);
    CheckpointExactly(s, r, owner, generation, ttl, action, now);
    var g := Next(s, Step(now, CheckpointOp(r, owner, generation, ttl, action)));
    RequestedActionStands(g, steps, r);
    OutcomeExactly(After(g, steps), r, Some(CancelledByRequest));
    assert "cancel"[0] != "pause"[0];
  }
}
