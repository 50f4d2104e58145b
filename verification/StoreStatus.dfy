/**
 Task statuses over whole runs of the store: they follow the status table, except where lease recovery
 writes past it.
 */
module StoreStatus {
  import opened Prelude
  import opened Domain
  import opened Store
  import opened StoreInvariant
  import opened StoreSteps
  import opened StoreTheorems
  import opened StoreScenario
  import opened StatusPaths
  import TaskGraph

  // --- Leases are exclusive ---

  /** A project never has two unreleased leases. */
  lemma LeasesAreExclusive(s: State, r: nat, q: nat)
    requires Inv(s) && r < |s.runs| && q < |s.runs| && !s.runs[r].lease.released && !s.runs[q].lease.released
    requires s.graph.tasks[s.runs[r].task].project == s.graph.tasks[s.runs[q].task].project
    ensures r == q
  {
    assert HasClaim(s.claims, r) && HasClaim(s.claims, q);
    var c :| 0 <= c < |s.claims| && s.claims[c].run == Some(r);
    var d :| 0 <= d < |s.claims| && s.claims[d].run == Some(q);
    assert ClaimFits(s.claims[c], |s.graph.tasks|, s.runs) && ClaimFits(s.claims[d], |s.graph.tasks|, s.runs);
    OneClaimInForcePerProject(s, c, d);
  }

  // --- Lease recovery and the table ---

  /** Some unreleased lease on the task is overdue, and the task is recoverable. */
  ghost predicate TaskOverdue(s: State, t: nat, now: int) {
    exists r :: 0 <= r < |s.runs| && s.runs[r].task == t && LeaseOverdue(s.runs[r], s.graph.tasks, now)
  }

  function PausedRow(t: TaskGraph.Task): TaskGraph.Task {
    t.(status := Paused, version := t.version + 1)
  }

  ghost predicate DistinctTasks(runs: seq<Run>, rs: seq<nat>) {
    && (forall k :: 0 <= k < |rs| ==> rs[k] < |runs|)
    && (forall j, k :: 0 <= j < k < |rs| ==> runs[rs[j]].task != runs[rs[k]].task)
  }

  ghost predicate AmongTasks(runs: seq<Run>, rs: seq<nat>, t: nat) {
    exists k :: 0 <= k < |rs| && rs[k] < |runs| && runs[rs[k]].task == t
  }

  lemma AmongLonger(runs: seq<Run>, rs: seq<nat>, t: nat)
    requires rs != [] && rs[|rs| - 1] < |runs|
    ensures AmongTasks(runs, rs, t) <==> AmongTasks(runs, rs[..|rs| - 1], t) || runs[rs[|rs| - 1]].task == t
  {
    var n := |rs| - 1;
    if k :| 0 <= k < n && rs[..n][k] < |runs| && runs[rs[..n][k]].task == t {
      assert rs[k] == rs[..n][k];
    }
    if k :| 0 <= k < |rs| && rs[k] < |runs| && runs[rs[k]].task == t {
      assert k < n ==> rs[..n][k] == rs[k];
    }
  }

  lemma LastIsNew(runs: seq<Run>, rs: seq<nat>)
    requires rs != [] && DistinctTasks(runs, rs)
    ensures DistinctTasks(runs, rs[..|rs| - 1]) && !AmongTasks(runs, rs[..|rs| - 1], runs[rs[|rs| - 1]].task)
  {
  }

  lemma OrphanedGraph(s: State, r: nat)
    requires r < |s.runs| && s.runs[r].task < |s.graph.tasks|
    ensures OrphanRun(s, r).graph == TaskGraph.SetStatus(s.graph, s.runs[r].task, Paused)
  {
  }

  /** Orphaning runs of different tasks pauses each of those tasks once. */
  lemma {:induction false} OrphanedRows(s: State, rs: seq<nat>, t: nat)
    requires forall k :: 0 <= k < |rs| ==> rs[k] < |s.runs| && s.runs[rs[k]].task < |s.graph.tasks|
    requires DistinctTasks(s.runs, rs) && t < |s.graph.tasks|
    ensures OrphanRuns(s, rs).graph.tasks[t]
         == if AmongTasks(s.runs, rs, t) then PausedRow(s.graph.tasks[t]) else s.graph.tasks[t]
  {
    if rs != [] {
      var front, r := rs[..|rs| - 1], rs[|rs| - 1];
      LastIsNew(s.runs, rs);
      AmongLonger(s.runs, rs, t);
      OrphanedRows(s, front, t);
      OrphanedGraph(OrphanRuns(s, front), r);
      hide OrphanRun, AmongTasks, DistinctTasks;
    }
  }

  lemma OverdueAreDistinct(s: State, now: int)
    requires Inv(s)
    ensures DistinctTasks(s.runs, OverdueRuns(s.runs, s.graph.tasks, now, |s.runs|))
  {
    var rs := OverdueRuns(s.runs, s.graph.tasks, now, |s.runs|);
    forall j, k | 0 <= j < k < |rs|
      ensures s.runs[rs[j]].task != s.runs[rs[k]].task
    {
      if s.runs[rs[j]].task == s.runs[rs[k]].task {
        assert LeaseOverdue(s.runs[rs[j]], s.graph.tasks, now) && LeaseOverdue(s.runs[rs[k]], s.graph.tasks, now);
        LeasesAreExclusive(s, rs[j], rs[k]);
      }
    }
  }

  lemma OverdueAreAmong(s: State, t: nat, now: int)
    ensures AmongTasks(s.runs, OverdueRuns(s.runs, s.graph.tasks, now, |s.runs|), t) <==> TaskOverdue(s, t, now)
  {
    var rs := OverdueRuns(s.runs, s.graph.tasks, now, |s.runs|);
    if r :| 0 <= r < |s.runs| && s.runs[r].task == t && LeaseOverdue(s.runs[r], s.graph.tasks, now) {
      assert r in rs;
    }
  }

  /** Recovery pauses exactly the overdue tasks, each by one change of its row. */
  lemma RecoveredRows(s: State, now: int, t: nat)
    requires Inv(s) && t < |s.graph.tasks|
    ensures RecoverLeases(s, now).graph.tasks[t]
         == if TaskOverdue(s, t, now) then PausedRow(s.graph.tasks[t]) else s.graph.tasks[t]
  {
    var rs := OverdueRuns(s.runs, s.graph.tasks, now, |s.runs|);
    OverdueAreDistinct(s, now);
    OverdueAreAmong(s, t, now);
    OrphanedRows(s, rs, t);
  }

  /** The statuses recovery changed, it changed along the table. */
  ghost predicate FollowsTable(g: TaskGraph.Graph, h: TaskGraph.Graph) {
    |h.tasks| == |g.tasks| && forall t :: 0 <= t < |g.tasks| && h.tasks[t] != g.tasks[t] ==>
      g.tasks[t].status.CanTransitionTo(h.tasks[t].status)
  }

  /**
   The design has expired leases follow the status table. Recovery changes the row of each overdue task
   along the table exactly when that task is not Verifying, and so follows the table altogether exactly
   when no overdue task is Verifying.
   */
  lemma RecoveryFollowsTheTableExactly(s: State, now: int)
    requires Inv(s)
    ensures
      var h := RecoverLeases(s, now);
      && (forall t: nat :: t < |s.graph.tasks| ==>
            h.graph.tasks[t] == if TaskOverdue(s, t, now) then PausedRow(s.graph.tasks[t]) else s.graph.tasks[t])
      && (forall t: nat :: t < |s.graph.tasks| && TaskOverdue(s, t, now) ==>
            (s.graph.tasks[t].status.CanTransitionTo(Paused) <==> s.graph.tasks[t].status != Verifying))
      && (FollowsTable(s.graph, h.graph)
          <==> forall t: nat :: t < |s.graph.tasks| && TaskOverdue(s, t, now) ==> s.graph.tasks[t].status != Verifying)
  {
    forall t: nat | t < |s.graph.tasks|
      ensures RecoverLeases(s, now).graph.tasks[t]
           == if TaskOverdue(s, t, now) then PausedRow(s.graph.tasks[t]) else s.graph.tasks[t]
      ensures TaskOverdue(s, t, now) ==> TaskGraph.Recoverable(s.graph.tasks[t].status)
    {
      RecoveredRows(s, now, t);
    }
    hide Inv, RecoverLeases, TaskOverdue;
  }

  lemma RecoveryReaches(s: State, now: int)
    requires Reachable(s)
    ensures Reachable(RecoverLeases(s, now))
  {
    ReachableAgrees(s);
    assert TaskGraph.WellFormed(s.graph);
    hide Inv, Reachable, RecoverLeases, TaskGraph.WellFormed;
    StepReaches(s, RecoverLeasesOp, now, RecoverLeases(s, now));
  }

  lemma RecoveryPausesVerifyingTask()
    requires Inv(VerifyingTask)
    ensures TaskOverdue(VerifyingTask, 0, 11)
    ensures VerifyingTask.graph.tasks[0].status == Verifying && !Verifying.CanTransitionTo(Paused)
    ensures RecoverLeases(VerifyingTask, 11).graph.tasks[0].status == Paused
  {
    hide Inv;
    assert LeaseOverdue(VerifyingTask.runs[0], VerifyingTask.graph.tasks, 11);
    assert TaskOverdue(VerifyingTask, 0, 11) by { assert VerifyingTask.runs[0].task == 0; }
    RecoveredRows(VerifyingTask, 11, 0);
  }

  /** Recovery pauses a task in verification, which no edge of the table allows. */
  lemma RecoveryBypassesTheTable()
    ensures Reachable(VerifyingTask) && TaskOverdue(VerifyingTask, 0, 11)
    ensures VerifyingTask.graph.tasks[0].status == Verifying && !Verifying.CanTransitionTo(Paused)
    ensures
      var h := RecoverLeases(VerifyingTask, 11);
      Reachable(h) && h.graph.tasks[0].status == Paused
  {
    VerifyingTaskReached();
    ReachableAgrees(VerifyingTask);
    RecoveryReaches(VerifyingTask, 11);
    hide Inv, Reachable, RecoverLeases, TaskOverdue;
    RecoveryPausesVerifyingTask();
  }

  // --- Every step moves along the table ---

  lemma {:induction false} EndingMoves(s: State, cs: seq<nat>, ending: Ending)
    requires forall k :: 0 <= k < |cs| ==> cs[k] < |s.claims|
    ensures GraphMoves(s.graph, EndClaims(s, cs, ending).graph, false)
  {
    if cs == [] {
      GraphMovesReflexive(s.graph, false);
    } else {
      var before := EndClaims(s, cs[..|cs| - 1], ending);
      EndingMoves(s, cs[..|cs| - 1], ending);
      UnleasingMoves(before.graph, {before.claims[cs[|cs| - 1]].task});
      hide GraphMoves;
      GraphMovesJoin(s.graph, before.graph, EndClaims(s, cs, ending).graph, false);
    }
  }

  lemma SweepMoves(s: State, now: int)
    ensures GraphMoves(s.graph, ExpireClaims(s, now).graph, false)
  {
    EndingMoves(s, OverdueClaims(s.claims, now), Expiry);
  }

  lemma StopMoves(s: State, instance: string, now: int)
    requires StopInstance(s, instance, now).Ok?
    ensures GraphMoves(s.graph, StopInstance(s, instance, now).value.graph, false)
  {
    var leader := if s.leader.Some? && s.leader.value.instance == instance
                  then Some(s.leader.value.(expiresAt := now)) else s.leader;
    EndingMoves(s.(instances := s.instances - {instance}, leader := leader), ClaimsOf(s.claims, instance), GracefulStop);
  }

  lemma EmergencyMoves(s: State, reason: string)
    requires EmergencyStop(s, reason).Ok?
    ensures GraphMoves(s.graph, EmergencyStop(s, reason).value.graph, false)
  {
    var stopped := s.(control := Control(true, true), runs := CancelAtWork(s.runs, s.graph.tasks));
    EndingMoves(stopped, ActiveClaims(s.claims), Emergency);
  }

  lemma ClaimMoves(s: State, r: ClaimRequest, now: int)
    requires TaskGraph.WellFormed(s.graph) && ClaimTask(s, r, now).Ok?
    ensures GraphMoves(s.graph, ClaimTask(s, r, now).value.graph, false)
  {
    var swept := ExpireClaims(s, now);
    SweepMoves(s, now);
    StatusChangeMoves(swept.graph, r.task, TaskStatus.Leased, false);
    hide GraphMoves;
    GraphMovesJoin(s.graph, swept.graph, ClaimTask(s, r, now).value.graph, false);
  }

  lemma HeartbeatMoves(s: State, instance: string, generation: nat, ttl: nat, now: int)
    requires HeartbeatClaims(s, instance, generation, ttl, now).Ok?
    ensures GraphMoves(s.graph, HeartbeatClaims(s, instance, generation, ttl, now).value.graph, false)
  {
    SweepMoves(s, now);
  }

  lemma BeginMoves(s: State, c: nat, instance: string, generation: nat, runId: string, adapter: string, ttl: nat, now: int)
    requires BeginClaimedRun(s, c, instance, generation, runId, adapter, ttl, now).Ok?
    ensures GraphMoves(s.graph, BeginClaimedRun(s, c, instance, generation, runId, adapter, ttl, now).value.graph, false)
  {
    StartingMoves(s.graph, s.claims[c].task);
  }

  lemma OutcomeMoves(s: State, r: nat, failure: Option<FailureCategory>)
    requires RecordOutcome(s, r, failure).Ok?
    ensures GraphMoves(s.graph, RecordOutcome(s, r, failure).value.graph, false)
  {
    StatusChangeMoves(s.graph, s.runs[r].task, OutcomeOf(failure, s.runs[r].requestedAction).task, false);
  }

  lemma RecoveryMoves(s: State, now: int)
    requires Inv(s)
    ensures GraphMoves(s.graph, RecoverLeases(s, now).graph, true)
  {
    forall t: nat | t < |s.graph.tasks|
      ensures TaskMoves(s.graph.tasks[t], RecoverLeases(s, now).graph.tasks[t], 0, true)
    {
      RecoveredRows(s, now, t);
      if TaskOverdue(s, t, now) { OneEdge(s.graph.tasks[t], Paused, true); }
    }
  }

  predicate ChangesClaims(op: Op) {
    op.StopInstanceOp? || op.ClaimTaskOp? || op.HeartbeatClaimsOp? || op.RecoverClaimsOp?
  }

  predicate ChangesRuns(op: Op) {
    op.EmergencyStopOp? || op.BeginClaimedRunOp? || op.RecordOutcomeOp? || op.RecoverLeasesOp?
  }

  predicate ChangesTasks(op: Op) {
    op.AddTaskOp? || op.SetRoutePinOp? || op.AddDependencyOp? || op.CompleteReviewOp? || op.TransitionTaskOp?
  }

  lemma TaskOpMoves(s: State, op: Op, now: int)
    requires TaskGraph.WellFormed(s.graph) && Apply(s, op, now).Ok?
    requires ChangesTasks(op) && !op.SetRoutePinOp?
    ensures GraphMoves(s.graph, Apply(s, op, now).value.graph, false)
  {
    hide GraphMoves, TaskGraph.AddTask, TaskGraph.AddDependency, TaskGraph.CompleteReview, TaskGraph.TransitionTask;
    if op.AddTaskOp? {
      AddTaskMoves(s.graph, op.project, op.dependencies, op.pin);
    } else if op.AddDependencyOp? {
      AddDependencyMoves(s.graph, op.task, op.on);
    } else if op.CompleteReviewOp? {
      CompleteReviewMoves(s.graph, op.task);
    } else {
      TransitionMoves(s.graph, op.task, op.expected, op.next);
    }
  }

  lemma ClaimOpMoves(s: State, op: Op, now: int)
    requires TaskGraph.WellFormed(s.graph) && Apply(s, op, now).Ok?
    requires ChangesClaims(op)
    ensures GraphMoves(s.graph, Apply(s, op, now).value.graph, false)
  {
    hide GraphMoves, StopInstance, ClaimTask, HeartbeatClaims, ExpireClaims, TaskGraph.WellFormed;
    match op
    case StopInstanceOp(i) => StopMoves(s, i, now);
    case ClaimTaskOp(r) => ClaimMoves(s, r, now);
    case HeartbeatClaimsOp(i, g, ttl) => HeartbeatMoves(s, i, g, ttl, now);
    case RecoverClaimsOp => SweepMoves(s, now);
  }

  lemma RunOpMoves(s: State, op: Op, now: int)
    requires Inv(s) && Apply(s, op, now).Ok?
    requires ChangesRuns(op)
    ensures GraphMoves(s.graph, Apply(s, op, now).value.graph, op.RecoverLeasesOp?)
  {
    assert TaskGraph.WellFormed(s.graph);
    hide Inv, GraphMoves, EmergencyStop, BeginClaimedRun, RecordOutcome, RecoverLeases, TaskGraph.WellFormed;
    match op
    case EmergencyStopOp(reason) => EmergencyMoves(s, reason);
    case BeginClaimedRunOp(c, i, g, runId, adapter, ttl) => BeginMoves(s, c, i, g, runId, adapter, ttl, now);
    case RecordOutcomeOp(r, failure) => OutcomeMoves(s, r, failure);
    case RecoverLeasesOp => RecoveryMoves(s, now);
  }

  lemma QuietOpMoves(s: State, op: Op, now: int)
    requires TaskGraph.WellFormed(s.graph) && Apply(s, op, now).Ok?
    requires !ChangesClaims(op) && !ChangesRuns(op) && !ChangesTasks(op)
    ensures Apply(s, op, now).value.graph == s.graph
  {
  }

  /** Every status change is one edge and one version; only lease recovery leaves the table, from Verifying to Paused. */
  lemma StepMoves(s: State, op: Op, now: int)
    requires Inv(s) && Apply(s, op, now).Ok? && !op.SetRoutePinOp?
    ensures GraphMoves(s.graph, Apply(s, op, now).value.graph, op.RecoverLeasesOp?)
  {
    assert TaskGraph.WellFormed(s.graph);
    hide Inv, GraphMoves, Apply;
    if ChangesClaims(op) {
      ClaimOpMoves(s, op, now);
    } else if ChangesRuns(op) {
      RunOpMoves(s, op, now);
    } else if ChangesTasks(op) {
      TaskOpMoves(s, op, now);
    } else {
      QuietOpMoves(s, op, now);
      GraphMovesReflexive(s.graph, false);
    }
  }

  ghost predicate Recovers(steps: seq<Step>) {
    exists k :: 0 <= k < |steps| && steps[k].op.RecoverLeasesOp?
  }

  lemma LongerRecovers(steps: seq<Step>)
    requires steps != []
    ensures Recovers(steps) <==> Recovers(steps[..|steps| - 1]) || steps[|steps| - 1].op.RecoverLeasesOp?
  {
    var n := |steps| - 1;
    if k :| 0 <= k < n && steps[..n][k].op.RecoverLeasesOp? {
      assert steps[k] == steps[..n][k];
    }
    if k :| 0 <= k < |steps| && steps[k].op.RecoverLeasesOp? {
      assert k < n ==> steps[..n][k] == steps[k];
    }
  }

  /** One for a step that pins the task, and nothing for any other. */
  ghost function PinsBy(s: State, step: Step, t: nat): nat
    requires TaskGraph.WellFormed(s.graph)
  {
    if step.op.SetRoutePinOp? && step.op.task == t && Apply(s, step.op, step.now).Ok? then 1 else 0
  }

  lemma NextFollows(s: State, step: Step, t: nat, recovering: bool)
    requires Inv(s) && Disciplined(step.op) && (step.op.RecoverLeasesOp? ==> recovering)
    ensures Follows(s.graph, Next(s, step).graph, t, PinsBy(s, step, t), recovering)
  {
    assert TaskGraph.WellFormed(s.graph);
    hide Inv, TaskGraph.WellFormed, Follows;
    if Apply(s, step.op, step.now).Err? {
      FollowsReflexive(s.graph, t, recovering);
    } else if step.op.SetRoutePinOp? {
      PinFollows(s.graph, step.op.task, step.op.pin, step.op.reason, t, recovering);
    } else {
      hide Apply;
      StepFollows(s, step.op, step.now, t, recovering);
    }
  }

  lemma StepFollows(s: State, op: Op, now: int, t: nat, recovering: bool)
    requires Inv(s) && Apply(s, op, now).Ok? && !op.SetRoutePinOp? && (op.RecoverLeasesOp? ==> recovering)
    ensures Follows(s.graph, Apply(s, op, now).value.graph, t, 0, recovering)
  {
    StepMoves(s, op, now);
    hide Inv, Apply, GraphMoves, Follows;
    var h := Apply(s, op, now).value;
    if !op.RecoverLeasesOp? { GraphMovesWiden(s.graph, h.graph, recovering); }
    GraphMovesFollow(s.graph, h.graph, t, recovering);
  }

  // --- Whole runs ---

  /** How often a run pins a task. */
  ghost function Pins(s: State, steps: seq<Step>, t: nat): nat
    requires Inv(s) && AllDisciplined(steps)
  {
    if steps == [] then 0
    else
      var front := steps[..|steps| - 1];
      Pins(s, front, t) + PinsBy(After(s, front), steps[|steps| - 1], t)
  }

  ghost function PinsReached(steps: seq<Step>, t: nat): nat
    requires AllDisciplined(steps)
  {
    EmptyStateInv();
    Pins(EmptyState, steps, t)
  }

  lemma OneMoreFollows(g: TaskGraph.Graph, before: State, step: Step, t: nat, pins: nat, recovering: bool)
    requires Follows(g, before.graph, t, pins, recovering)
    requires Inv(before) && Disciplined(step.op) && (step.op.RecoverLeasesOp? ==> recovering)
    ensures Follows(g, Next(before, step).graph, t, pins + PinsBy(before, step, t), recovering)
  {
    hide Follows;
    NextFollows(before, step, t, recovering);
    FollowsJoin(g, before.graph, Next(before, step).graph, t, pins, PinsBy(before, step, t), recovering);
  }

  /**
   Over any run every task moves along the table, by as many edges as its version grew beyond the pins it
   was given; only a run that recovers leases may also take tasks from Verifying to Paused.
   */
  lemma {:induction false} StatusesFollowTheTable(s: State, steps: seq<Step>, t: nat, recovering: bool)
    requires Inv(s) && AllDisciplined(steps) && (Recovers(steps) ==> recovering)
    ensures Follows(s.graph, After(s, steps).graph, t, Pins(s, steps, t), recovering)
  {
    hide Follows, Next, PinsBy, Recovers, Inv;
    if steps == [] {
      FollowsReflexive(s.graph, t, recovering);
    } else {
      LongerRecovers(steps);
      var front, last := steps[..|steps| - 1], steps[|steps| - 1];
      StatusesFollowTheTable(s, front, t, recovering);
      OneMoreFollows(s.graph, After(s, front), last, t, Pins(s, front, t), recovering);
    }
  }

  /**
   Completed, Cancelled and Superseded are final: such a task changes only by pins. A changed status raises
   the version, and a task whose version has not changed has not changed.
   */
  lemma TerminalIsFinal(s: State, steps: seq<Step>, t: nat)
    requires Inv(s) && AllDisciplined(steps) && t < |s.graph.tasks|
    ensures
      var h := After(s, steps);
      && t < |h.graph.tasks|
      && var before, after := s.graph.tasks[t], h.graph.tasks[t];
         && (before.status.IsTerminal() ==>
               after == before.(version := before.version + Pins(s, steps, t), pin := after.pin))
         && (after.version == before.version ==> after == before)
         && (after.status != before.status ==> before.version < after.version)
  {
    StatusesFollowTheTable(s, steps, t, true);
    hide Inv, After, TaskMoves, Pins;
    MovesAreExact(s.graph.tasks[t], After(s, steps).graph.tasks[t], Pins(s, steps, t), true);
  }

  lemma FollowsFromNothing(g: TaskGraph.Graph, t: nat, pins: nat, recovering: bool)
    requires Follows(EmptyState.graph, g, t, pins, recovering)
    ensures t < |g.tasks| ==>
              && 1 + pins <= g.tasks[t].version
              && Path(Draft, g.tasks[t].status, g.tasks[t].version - 1 - pins, recovering)
  {
  }

  /** Every task of a reachable state came from Draft along the table, one version an edge and one a pin. */
  lemma EveryTaskCameFromDraft(steps: seq<Step>, t: nat)
    requires AllDisciplined(steps)
    ensures
      var g, pins := Reached(steps).graph, PinsReached(steps, t);
      t < |g.tasks| ==>
        && 1 + pins <= g.tasks[t].version
        && Path(Draft, g.tasks[t].status, g.tasks[t].version - 1 - pins, Recovers(steps))
  {
    hide Inv, After, Pins, Recovers, AllDisciplined;
    EmptyStateInv();
    StatusesFollowTheTable(EmptyState, steps, t, Recovers(steps));
    FollowsFromNothing(Reached(steps).graph, t, PinsReached(steps, t), Recovers(steps));
  }

  /** A claim granted for the version a scheduler once read finds the task, and its pin, exactly as read. */
  lemma GrantedTaskIsAsRead(s: State, steps: seq<Step>, r: ClaimRequest, now: int)
    requires Inv(s) && AllDisciplined(steps) && r.task < |s.graph.tasks| && r.version == s.graph.tasks[r.task].version
    requires ClaimTask(After(s, steps), r, now).Ok?
    ensures s.graph.tasks[r.task].status == Ready
    ensures After(s, steps).graph.tasks[r.task] == s.graph.tasks[r.task]
  {
    var h, pins := After(s, steps), Pins(s, steps, r.task);
    StatusesFollowTheTable(s, steps, r.task, true);
    SweepMoves(h, now);
    GraphMovesWiden(h.graph, ExpireClaims(h, now).graph, true);
    GrantChecksVersion(h, r, now);
    hide Inv, After, TaskMoves, ClaimTask, ExpireClaims, Pins;
    var swept := ExpireClaims(h, now);
    assert TaskMoves(h.graph.tasks[r.task], swept.graph.tasks[r.task], 0, true);
    SameVersionSameRow(s.graph.tasks[r.task], h.graph.tasks[r.task], swept.graph.tasks[r.task], pins);
  }

  lemma SameVersionSameRow(t: TaskGraph.Task, u: TaskGraph.Task, v: TaskGraph.Task, pins: nat)
    requires TaskMoves(t, u, pins, true) && TaskMoves(u, v, 0, true) && v.version == t.version
    ensures u == t && v == t
  {
    MovesAreExact(t, u, pins, true);
    MovesAreExact(u, v, 0, true);
  }

  lemma GrantChecksVersion(s: State, r: ClaimRequest, now: int)
    requires TaskGraph.WellFormed(s.graph) && ClaimTask(s, r, now).Ok?
    ensures
      var swept := ExpireClaims(s, now);
      r.task < |swept.graph.tasks| && swept.graph.tasks[r.task].status == Ready
      && swept.graph.tasks[r.task].version == r.version
  {
  }
}
