/**
 What a task holds when it stands down: exactly which transactions release it, and states in which the
 others do not.
 */
module StoreReleases {
  import opened Prelude
  import opened Domain
  import opened Store
  import opened StoreInvariant
  import opened StoreSteps
  import opened StoreTheorems
  import opened StoreScenario
  import opened StoreStatus
  import opened StatusPaths
  import TaskGraph
  import Effects = StoreEffects

  /** Some claim for the task is in force, so its project lock is live. */
  ghost predicate HoldsSomething(s: State, t: nat) {
    exists c :: 0 <= c < |s.claims| && HoldsFor(s, c, t)
  }

  predicate HoldsFor(s: State, c: nat, t: nat)
    requires c < |s.claims|
  {
    s.claims[c].task == t && InForce(s.claims[c], s.runs)
  }

  /** A paused, blocked, failed or terminal task: no work on it goes on. */
  predicate StandsDown(status: TaskStatus) {
    status in {Paused, Blocked, Failed} || status.IsTerminal()
  }

  /** The step from s to h stands the task down. */
  predicate StoodDown(s: State, h: State, t: nat) {
    && t < |s.graph.tasks| && t < |h.graph.tasks|
    && h.graph.tasks[t].status != s.graph.tasks[t].status && StandsDown(h.graph.tasks[t].status)
  }

  /**
   The transactions that release what the task they stand down holds: an emergency stop, lease recovery,
   and the outcome of a failed process when nothing but its own run holds the task.
   */
  ghost predicate Releases(s: State, op: Op, t: nat) {
    || op.EmergencyStopOp?
    || op.RecoverLeasesOp?
    || (op.RecordOutcomeOp? && op.failure.Some?
        && forall c :: 0 <= c < |s.claims| && HoldsFor(s, c, t) ==> s.claims[c].run == Some(op.run))
  }

  /** A task is held by one claim at most. */
  lemma OnlyHolder(s: State, c: nat, t: nat)
    requires Inv(s) && c < |s.claims| && HoldsFor(s, c, t)
    ensures forall d :: 0 <= d < |s.claims| && HoldsFor(s, d, t) ==> d == c
  {
    forall d: nat | d < |s.claims| && HoldsFor(s, d, t)
      ensures d == c
    {
      OneClaimInForcePerProject(s, c, d);
    }
  }

  lemma HolderFits(s: State, c: nat)
    requires Inv(s) && c < |s.claims|
    ensures ClaimFits(s.claims[c], |s.graph.tasks|, s.runs)
  {
  }

  // --- Emergency stop ---

  lemma EmergencyLeaves(s: State, reason: string)
    requires EmergencyStop(s, reason).Ok?
    ensures
      var h := EmergencyStop(s, reason).value;
      && |h.claims| == |s.claims| && |h.runs| == |s.runs|
      && (forall c: nat :: c < |s.claims| ==>
            h.claims[c] == if s.claims[c].status == ClaimActive then s.claims[c].(status := ClaimReleased) else s.claims[c])
      && (forall r :: 0 <= r < |s.runs| ==> h.runs[r].lease == s.runs[r].lease)
  {
    var stopped := s.(control := Control(true, true), runs := CancelAtWork(s.runs, s.graph.tasks));
    ActiveClaimsEndable(stopped);
    EndClaimsExactly(stopped, ActiveClaims(s.claims), Emergency);
    EndClaimsFrame(stopped, ActiveClaims(s.claims), Emergency);
  }

  lemma EmergencyStandsDownClaimed(s: State, reason: string, t: nat) returns (c: nat)
    requires EmergencyStop(s, reason).Ok? && t < |s.graph.tasks|
    requires EmergencyStop(s, reason).value.graph.tasks[t].status != s.graph.tasks[t].status
    ensures c < |s.claims| && s.claims[c].status == ClaimActive && s.claims[c].task == t
  {
    var stopped := s.(control := Control(true, true), runs := CancelAtWork(s.runs, s.graph.tasks));
    ActiveClaimsEndable(stopped);
    var cs := ActiveClaims(s.claims);
    Effects.EndedTasks(stopped, cs, Emergency, t);
    var k :| 0 <= k < |cs| && cs[k] < |s.claims| && s.claims[cs[k]].task == t;
    c := cs[k];
  }

  lemma EmergencyFrees(s: State, reason: string, t: nat)
    requires Inv(s) && EmergencyStop(s, reason).Ok? && t < |s.graph.tasks|
    requires EmergencyStop(s, reason).value.graph.tasks[t].status != s.graph.tasks[t].status
    ensures !HoldsSomething(EmergencyStop(s, reason).value, t)
  {
    hide EmergencyStop, Inv;
    var h := EmergencyStop(s, reason).value;
    EmergencyLeaves(s, reason);
    var c := EmergencyStandsDownClaimed(s, reason, t);
    OnlyHolder(s, c, t);
    HolderFits(s, c);
    assert forall d: nat :: d < |h.claims| && HoldsFor(h, d, t) ==> HoldsFor(s, d, t);
  }

  // --- Lease recovery ---

  lemma {:induction false} OrphaningKeepsClaims(s: State, rs: seq<nat>)
    requires forall k :: 0 <= k < |rs| ==> rs[k] < |s.runs| && s.runs[rs[k]].task < |s.graph.tasks|
    ensures OrphanRuns(s, rs).claims == s.claims
  {
    if rs != [] {
      OrphaningKeepsClaims(s, rs[..|rs| - 1]);
    }
  }

  lemma RecoveryLeaves(s: State, now: int)
    requires Inv(s)
    ensures
      var h := RecoverLeases(s, now);
      && h.claims == s.claims && |h.runs| == |s.runs|
      && (forall r: nat :: r < |s.runs| ==>
            h.runs[r] == if LeaseOverdue(s.runs[r], s.graph.tasks, now) then Effects.Orphaned(s.runs[r]) else s.runs[r])
  {
    Effects.OverdueRunsOrphaned(s, now);
    OrphaningKeepsClaims(s, OverdueRuns(s.runs, s.graph.tasks, now, |s.runs|));
  }

  lemma OverdueRunHolds(s: State, r: nat, now: int) returns (c: nat)
    requires Inv(s) && r < |s.runs| && LeaseOverdue(s.runs[r], s.graph.tasks, now)
    ensures c < |s.claims| && s.claims[c].run == Some(r) && HoldsFor(s, c, s.runs[r].task)
  {
    assert HasClaim(s.claims, r);
    c :| 0 <= c < |s.claims| && s.claims[c].run == Some(r);
    assert ClaimFits(s.claims[c], |s.graph.tasks|, s.runs);
  }

  lemma RecoveryFrees(s: State, now: int, t: nat)
    requires Inv(s) && t < |s.graph.tasks| && TaskOverdue(s, t, now)
    ensures !HoldsSomething(RecoverLeases(s, now), t)
  {
    hide RecoverLeases, Inv;
    var h := RecoverLeases(s, now);
    RecoveryLeaves(s, now);
    var r: nat :| r < |s.runs| && s.runs[r].task == t && LeaseOverdue(s.runs[r], s.graph.tasks, now);
    var c := OverdueRunHolds(s, r, now);
    OnlyHolder(s, c, t);
    HolderFits(s, c);
    assert forall d: nat :: d < |h.claims| && HoldsFor(h, d, t) ==> HoldsFor(s, d, t);
  }

  // --- The outcome of a process ---

  lemma OutcomeLeaves(s: State, r: nat, failure: Option<FailureCategory>)
    requires RecordOutcome(s, r, failure).Ok?
    ensures
      var h := RecordOutcome(s, r, failure).value;
      && h.claims == s.claims && |h.runs| == |s.runs|
      && h.runs[r].lease == s.runs[r].lease.(released := s.runs[r].lease.released || failure.Some?)
      && (forall q :: 0 <= q < |s.runs| && q != r ==> h.runs[q] == s.runs[q])
  {
  }

  lemma OutcomeStandsDown(s: State, r: nat, failure: Option<FailureCategory>, t: nat)
    requires RecordOutcome(s, r, failure).Ok? && t < |s.graph.tasks|
    ensures
      var h := RecordOutcome(s, r, failure).value;
      h.graph.tasks[t].status != s.graph.tasks[t].status && StandsDown(h.graph.tasks[t].status) ==>
        failure.Some? && s.runs[r].task == t
  {
  }

  /** After a failed process its run holds nothing, and its task holds what claims other than the run's hold. */
  lemma FailureFreesExactly(s: State, r: nat, failure: Option<FailureCategory>, t: nat)
    requires Inv(s) && RecordOutcome(s, r, failure).Ok? && failure.Some?
    ensures !HoldsSomething(RecordOutcome(s, r, failure).value, t)
       <==> forall c :: 0 <= c < |s.claims| && HoldsFor(s, c, t) ==> s.claims[c].run == Some(r)
    ensures
      var h := RecordOutcome(s, r, failure).value;
      Effects.NothingLocked(h, r) && Effects.NothingReserved(h, r)
  {
    var h := RecordOutcome(s, r, failure).value;
    OutcomeLeaves(s, r, failure);
    Effects.OutcomeReleases(s, r, failure);
    hide RecordOutcome;
    forall c: nat | c < |s.claims|
      ensures HoldsFor(h, c, t) <==> HoldsFor(s, c, t) && s.claims[c].run != Some(r)
    {
      assert ClaimFits(s.claims[c], |s.graph.tasks|, s.runs);
    }
  }

  // --- Everything else ---

  /** No transaction on tasks alone releases anything. */
  lemma TaskOpReleasesNothing(s: State, op: Op, now: int, h: State, t: nat)
    requires TaskGraph.WellFormed(s.graph) && Apply(s, op, now) == Ok(h) && ChangesTasks(op)
    ensures HoldsSomething(h, t) <==> HoldsSomething(s, t)
    ensures !Releases(s, op, t)
  {
    assert h.claims == s.claims && h.runs == s.runs;
    hide Apply;
    assert forall c: nat :: c < |s.claims| ==> (HoldsFor(h, c, t) <==> HoldsFor(s, c, t));
  }

  lemma SweepStandsNothingDown(s: State, now: int, t: nat)
    requires t < |s.graph.tasks|
    ensures var status := ExpireClaims(s, now).graph.tasks[t].status; status == s.graph.tasks[t].status || status == Ready
  {
    SelectionIsEndable(s, (c: Claim) => c.status == ClaimActive && c.expiresAt <= now);
    Effects.EndedTasks(s, OverdueClaims(s.claims, now), Expiry, t);
  }

  lemma StopStandsNothingDown(s: State, instance: string, now: int, t: nat)
    requires StopInstance(s, instance, now).Ok? && t < |s.graph.tasks|
    ensures
      var status := StopInstance(s, instance, now).value.graph.tasks[t].status;
      status == s.graph.tasks[t].status || status == Ready
  {
    var leader := if s.leader.Some? && s.leader.value.instance == instance
                  then Some(s.leader.value.(expiresAt := now)) else s.leader;
    var stopped := s.(instances := s.instances - {instance}, leader := leader);
    SelectionIsEndable(stopped, (c: Claim) => c.status == ClaimActive && c.instance == instance);
    Effects.EndedTasks(stopped, ClaimsOf(s.claims, instance), GracefulStop, t);
  }

  lemma ClaimStandsNothingDown(s: State, r: ClaimRequest, now: int, h: State, t: nat)
    requires TaskGraph.WellFormed(s.graph) && ClaimTask(s, r, now) == Ok(h)
    ensures !StoodDown(s, h, t)
  {
    hide ExpireClaims, ClaimSlots, ClaimQuota, LockResources, ClaimApi, LiveClaims, HasActiveClaim;
    if t < |s.graph.tasks| { SweepStandsNothingDown(s, now, t); }
  }

  lemma BeginStandsNothingDown(s: State, c: nat, instance: string, generation: nat, runId: string, adapter: string,
                               ttl: nat, now: int, h: State, t: nat)
    requires BeginClaimedRun(s, c, instance, generation, runId, adapter, ttl, now) == Ok(h)
    ensures !StoodDown(s, h, t)
  {
  }

  lemma ClaimOpStandsNothingDown(s: State, op: Op, now: int, h: State, t: nat)
    requires TaskGraph.WellFormed(s.graph) && Apply(s, op, now) == Ok(h)
    requires ChangesClaims(op) || op.BeginClaimedRunOp?
    ensures !StoodDown(s, h, t)
  {
    hide ExpireClaims, StopInstance, ClaimTask, BeginClaimedRun;
    if op.ClaimTaskOp? {
      ClaimStandsNothingDown(s, op.request, now, h, t);
    } else if op.BeginClaimedRunOp? {
      BeginStandsNothingDown(s, op.claim, op.instance, op.generation, op.runId, op.adapter, op.ttl, now, h, t);
    } else if t < |s.graph.tasks| {
      if op.StopInstanceOp? {
        StopStandsNothingDown(s, op.instance, now, t);
      } else {
        SweepStandsNothingDown(s, now, t);
      }
    }
  }

  lemma RunOpReleases(s: State, op: Op, now: int, h: State, t: nat)
    requires Inv(s) && Apply(s, op, now) == Ok(h) && StoodDown(s, h, t)
    requires op.EmergencyStopOp? || op.RecoverLeasesOp? || op.RecordOutcomeOp?
    ensures !HoldsSomething(h, t) <==> Releases(s, op, t)
    ensures !HoldsSomething(s, t) ==> Releases(s, op, t)
  {
    hide Inv, EmergencyStop, RecoverLeases, RecordOutcome, TaskOverdue;
    if op.EmergencyStopOp? {
      EmergencyFrees(s, op.reason, t);
    } else if op.RecoverLeasesOp? {
      RecoveredRows(s, now, t);
      RecoveryFrees(s, now, t);
    } else {
      OutcomeStandsDown(s, op.run, op.failure, t);
      FailureFreesExactly(s, op.run, op.failure, t);
    }
  }

  /**
   The design has every paused, blocked, failed or terminal task release what it holds. A transaction that
   stands a task down leaves it holding nothing exactly when it is one of the releasing ones, or the task
   held nothing before: an accepted review, an added dependency and a bare transition release nothing.
   */
  lemma StandingDownReleasesExactly(s: State, op: Op, now: int, h: State, t: nat)
    requires Inv(s) && Apply(s, op, now) == Ok(h) && StoodDown(s, h, t)
    ensures !HoldsSomething(h, t) <==> Releases(s, op, t) || !HoldsSomething(s, t)
  {
    assert TaskGraph.WellFormed(s.graph);
    hide Inv, Apply, HoldsSomething, TaskGraph.WellFormed, Releases;
    if ChangesTasks(op) {
      TaskOpReleasesNothing(s, op, now, h, t);
    } else if op.EmergencyStopOp? || op.RecoverLeasesOp? || op.RecordOutcomeOp? {
      RunOpReleases(s, op, now, h, t);
    } else if ChangesClaims(op) || op.BeginClaimedRunOp? {
      ClaimOpStandsNothingDown(s, op, now, h, t);
    } else {
      QuietOpMoves(s, op, now);
    }
  }

  // --- What releases the rest ---

  /** Finishing the run that holds a task frees the whole project. */
  lemma FinishFreesTheProject(s: State, c: nat, status: string)
    requires Inv(s) && c < |s.claims| && UnderLease(s.claims[c], s.runs)
    ensures FinishRun(s, s.claims[c].run.value, status).Ok?
    ensures
      var r := s.claims[c].run.value;
      var h := FinishRun(s, r, status).value;
      && Effects.NothingLocked(h, r) && Effects.NothingReserved(h, r)
      && !HoldsSomething(h, s.claims[c].task) && |h.claims| == |s.claims|
      && forall d :: 0 <= d < |h.claims| && InForce(h.claims[d], h.runs) ==>
           s.graph.tasks[h.claims[d].task].project != s.graph.tasks[s.claims[c].task].project
  {
    var r := s.claims[c].run.value;
    var h := FinishRun(s, r, status).value;
    Effects.FinishReleases(s, r, status);
    assert ClaimFits(s.claims[c], |s.graph.tasks|, s.runs);
    forall d: nat | d < |h.claims|
      ensures InForce(h.claims[d], h.runs) ==>
                s.graph.tasks[h.claims[d].task].project != s.graph.tasks[s.claims[c].task].project
    {
      assert ClaimFits(s.claims[d], |s.graph.tasks|, s.runs);
      if d != c && InForce(s.claims[d], s.runs)
         && s.graph.tasks[s.claims[d].task].project == s.graph.tasks[s.claims[c].task].project {
        OneClaimInForcePerProject(s, c, d);
      }
    }
  }

  /** While a claim is under lease no task of its project can be claimed. */
  lemma HeldProjectRefusesClaims(s: State, c: nat, r: ClaimRequest, now: int)
    requires Inv(s) && c < |s.claims| && UnderLease(s.claims[c], s.runs) && r.task < |s.graph.tasks|
    requires s.graph.tasks[r.task].project == s.graph.tasks[s.claims[c].task].project
    ensures ClaimTask(s, r, now).Err?
  {
    if ClaimTask(s, r, now).Ok? {
      var swept, h := ExpireClaims(s, now), ClaimTask(s, r, now).value;
      ClaimTaskKeepsInv(s, r, now);
      assert ClaimFits(s.claims[c], |s.graph.tasks|, s.runs);
      SweepExpiresExactly(s, now);
      EndClaimsFrame(s, OverdueClaims(s.claims, now), Expiry);
      AcquisitionAppends(swept, r, now);
      SweptProjects(s, now, r.task);
      SweptProjects(s, now, s.claims[c].task);
      hide ClaimTask, ExpireClaims;
      OneClaimInForcePerProject(h, c, |s.claims|);
    }
  }

  lemma AcquisitionAppends(s: State, r: ClaimRequest, now: int)
    requires r.task < |s.graph.tasks| && AcquireForClaim(s, r, now).Ok?
    ensures
      var h := AcquireForClaim(s, r, now).value;
      && h.claims == s.claims + [NewClaim(r, now)] && h.runs == s.runs && SameProjects(s.graph.tasks, h.graph.tasks)
  {
  }

  lemma SweptProjects(s: State, now: int, t: nat)
    requires t < |s.graph.tasks|
    ensures ExpireClaims(s, now).graph.tasks[t].project == s.graph.tasks[t].project
  {
    SweepMoves(s, now);
    hide ExpireClaims;
    TaskMovesKeepProject(s.graph.tasks[t], ExpireClaims(s, now).graph.tasks[t], 0, false);
  }

  // --- Three transactions that stand a task down and release nothing ---

  /** Pausing a leased task by hand leaves its claim, and with it the project lock, in force. */
  lemma PausedTaskStillHoldsItsProject()
    ensures Reachable(ClaimedTask) && Disciplined(TransitionTaskOp(0, TaskStatus.Leased, Paused))
    ensures
      var moved := TaskGraph.TransitionTask(ClaimedTask.graph, 0, TaskStatus.Leased, Paused);
      && moved.Ok?
      && var h := ClaimedTask.(graph := moved.value);
         StoodDown(ClaimedTask, h, 0) && HoldsSomething(h, 0)
         && h.locks[2] == Lock(Resource(PROJECT, "p"), 0, false)
  {
    ClaimedTaskReached();
    var h := ClaimedTask.(graph := TaskGraph.SetStatus(ClaimedTask.graph, 0, Paused));
    assert HoldsFor(h, 0, 0);
  }

  lemma CompletedTaskIsNotRecovered(now: int)
    ensures RecoverLeases(CompletedTask, now) == CompletedTask && ExpireClaims(CompletedTask, now) == CompletedTask
  {
    var h := CompletedTask;
    assert OverdueRuns(h.runs, h.graph.tasks, now, 1) == [];
    Effects.SelectsNothing(h.claims, (c: Claim) => c.status == ClaimActive && c.expiresAt <= now, 1);
  }

  lemma CompletedTaskHolds()
    ensures StoodDown(ReviewedTask, CompletedTask, 0) && HoldsSomething(CompletedTask, 0)
    ensures CompletedTask == ReviewedTask.(graph := CompletedTask.graph)
  {
    assert HoldsFor(CompletedTask, 0, 0);
  }

  /** Accepting the review completes the task, and its lease and project lock outlive every recovery. */
  lemma CompletedTaskStillHoldsItsProject()
    ensures Reachable(ReviewedTask) && Disciplined(CompleteReviewOp(0))
    ensures TaskGraph.CompleteReview(ReviewedTask.graph, 0) == Ok(CompletedTask.graph)
    ensures CompletedTask == ReviewedTask.(graph := CompletedTask.graph) && Reachable(CompletedTask)
    ensures StoodDown(ReviewedTask, CompletedTask, 0) && HoldsSomething(CompletedTask, 0)
    ensures CompletedTask.locks[2] == Lock(Resource(PROJECT, "p"), 0, false)
    ensures forall now :: RecoverLeases(CompletedTask, now) == CompletedTask && ExpireClaims(CompletedTask, now) == CompletedTask
  {
    ReviewedTaskReached();
    CompletedTaskReached();
    hide RecoverLeases, ExpireClaims, Reachable, HoldsSomething;
    ReviewIsAccepted();
    CompletedTaskHolds();
    forall now
      ensures RecoverLeases(CompletedTask, now) == CompletedTask && ExpireClaims(CompletedTask, now) == CompletedTask
    {
      CompletedTaskIsNotRecovered(now);
    }
  }

  lemma FinishReaches(s: State, r: nat, status: string, now: int)
    requires Reachable(s) && r < |s.runs|
    ensures FinishRun(s, r, status).Ok? && Reachable(FinishRun(s, r, status).value)
  {
    ReachableAgrees(s);
    hide Reachable;
    StepReaches(s, FinishRunOp(r, status), now, FinishRun(s, r, status).value);
  }

  lemma FinishedTaskHoldsNothing(status: string)
    requires Inv(CompletedTask)
    ensures FinishRun(CompletedTask, 0, status).Ok?
    ensures
      var h := FinishRun(CompletedTask, 0, status).value;
      !HoldsSomething(h, 0) && |h.locks| == 3 && h.locks[2] == Lock(Resource(PROJECT, "p"), 0, true)
  {
    hide Inv, HoldsSomething;
    FinishFreesTheProject(CompletedTask, 0, status);
  }

  /** Only finishing the run gives the project back. */
  lemma FinishingFreesTheCompletedTask(status: string)
    ensures Reachable(CompletedTask) && FinishRun(CompletedTask, 0, status).Ok?
    ensures
      var h := FinishRun(CompletedTask, 0, status).value;
      && Reachable(h) && !HoldsSomething(h, 0)
      && |h.locks| == 3 && h.locks[2] == Lock(Resource(PROJECT, "p"), 0, true)
  {
    CompletedTaskReached();
    ReachableAgrees(CompletedTask);
    FinishReaches(CompletedTask, 0, status, 5);
    hide Inv, Reachable, FinishRun, HoldsSomething;
    FinishedTaskHoldsNothing(status);
  }

  /** Adding a dependency pauses a ready task and leaves its claim in force. */
  lemma DependentTaskStillHoldsItsProject()
    ensures Reachable(ReadyTaskHeld) && Disciplined(AddDependencyOp(0, 1))
    ensures
      var linked := TaskGraph.AddDependency(ReadyTaskHeld.graph, 0, 1);
      && linked.Ok?
      && var h := ReadyTaskHeld.(graph := linked.value);
         && StoodDown(ReadyTaskHeld, h, 0) && h.graph.tasks[0].status == Paused
         && HoldsSomething(h, 0) && h.locks[2] == Lock(Resource(PROJECT, "p"), 0, false)
  {
    ReadyTaskHeldReached();
    TaskGraph.OneDependencyIsAcyclic(0, 1);
    hide Reachable;
    var g := ReadyTaskHeld.graph;
    assert g.deps + {TaskGraph.Dependency(0, 1)} == {TaskGraph.Dependency(0, 1)};
    var h := ReadyTaskHeld.(graph := TaskGraph.AddDependency(g, 0, 1).value);
    assert HoldsFor(h, 0, 0);
  }
}
