/**
 The end of a lease: which transactions release it, over whole runs, and what follows for terminal tasks
 and for the paid requests of a run.
 */
module StoreLeases {
  import opened Prelude
  import opened Domain
  import opened Store
  import opened StoreInvariant
  import opened StoreSteps
  import opened StoreTheorems
  import opened StoreScenario
  import opened StoreStatus
  import opened StoreReleases
  import TaskGraph
  import Effects = StoreEffects
  import Api = ApiBudget
  import LedgerTheorems = ApiLedgerTheorems

  // --- One step ---

  /** The transactions that release the lease of a run: its end, the failure of its process, and its recovery. */
  predicate EndsLease(s: State, op: Op, now: int, r: nat)
    requires r < |s.runs|
  {
    || (op.FinishRunOp? && op.run == r)
    || (op.RecordOutcomeOp? && op.run == r && op.failure.Some?)
    || (op.RecoverLeasesOp? && LeaseOverdue(s.runs[r], s.graph.tasks, now))
  }

  lemma OutcomeNeedsWork(s: State, r: nat, failure: Option<FailureCategory>)
    requires RecordOutcome(s, r, failure).Ok?
    ensures r < |s.runs| && AtWork(s.runs[r], s.graph.tasks)
  {
  }

  lemma ClaimingKeepsRuns(s: State, r: ClaimRequest, now: int)
    requires TaskGraph.WellFormed(s.graph) && ClaimTask(s, r, now).Ok?
    ensures ClaimTask(s, r, now).value.runs == s.runs
  {
    EndClaimsFrame(s, OverdueClaims(s.claims, now), Expiry);
    AcquisitionAppends(ExpireClaims(s, now), r, now);
    hide ExpireClaims, AcquireForClaim;
  }

  lemma StoppingKeepsRuns(s: State, instance: string, now: int)
    requires StopInstance(s, instance, now).Ok?
    ensures StopInstance(s, instance, now).value.runs == s.runs
  {
    var leader := if s.leader.Some? && s.leader.value.instance == instance
                  then Some(s.leader.value.(expiresAt := now)) else s.leader;
    EndClaimsFrame(s.(instances := s.instances - {instance}, leader := leader), ClaimsOf(s.claims, instance), GracefulStop);
  }

  lemma SweepKeepsRuns(s: State, now: int)
    ensures ExpireClaims(s, now).runs == s.runs
  {
    EndClaimsFrame(s, OverdueClaims(s.claims, now), Expiry);
  }

  lemma HeartbeatKeepsRuns(s: State, instance: string, generation: nat, ttl: nat, now: int)
    requires HeartbeatClaims(s, instance, generation, ttl, now).Ok?
    ensures HeartbeatClaims(s, instance, generation, ttl, now).value.runs == s.runs
  {
    SweepKeepsRuns(s, now);
  }

  lemma ClaimOpKeepsRuns(s: State, op: Op, now: int, h: State)
    requires TaskGraph.WellFormed(s.graph) && Apply(s, op, now) == Ok(h) && ChangesClaims(op)
    ensures h.runs == s.runs
  {
    hide StopInstance, ClaimTask, HeartbeatClaims, ExpireClaims;
    if op.StopInstanceOp? {
      StoppingKeepsRuns(s, op.instance, now);
    } else if op.ClaimTaskOp? {
      ClaimingKeepsRuns(s, op.request, now);
    } else {
      SweepKeepsRuns(s, now);
      if op.HeartbeatClaimsOp? { HeartbeatKeepsRuns(s, op.instance, op.generation, op.ttl, now); }
    }
  }

  lemma RunOpEndsLeaseExactly(s: State, op: Op, now: int, h: State, r: nat)
    requires Inv(s) && Apply(s, op, now) == Ok(h) && r < |s.runs| && !s.runs[r].lease.released && ChangesRuns(op)
    ensures r < |h.runs| && (h.runs[r].lease.released <==> EndsLease(s, op, now, r))
  {
    hide Inv, EmergencyStop, RecoverLeases, RecordOutcome;
    if op.EmergencyStopOp? {
      EmergencyLeaves(s, op.reason);
    } else if op.RecoverLeasesOp? {
      RecoveryLeaves(s, now);
    } else if op.RecordOutcomeOp? {
      OutcomeNeedsWork(s, op.run, op.failure);
      OutcomeLeaves(s, op.run, op.failure);
    }
  }

  lemma OtherOpEndsLeaseExactly(s: State, op: Op, now: int, h: State, r: nat)
    requires TaskGraph.WellFormed(s.graph) && Apply(s, op, now) == Ok(h) && r < |s.runs| && !s.runs[r].lease.released
    requires !ChangesRuns(op) && !ChangesClaims(op)
    ensures r < |h.runs| && (h.runs[r].lease.released <==> EndsLease(s, op, now, r))
  {
  }

  /** A step releases an unreleased lease exactly when it is one of those transactions. */
  lemma StepEndsLeaseExactly(s: State, op: Op, now: int, h: State, r: nat)
    requires Inv(s) && Apply(s, op, now) == Ok(h) && r < |s.runs| && !s.runs[r].lease.released
    ensures r < |h.runs| && (h.runs[r].lease.released <==> EndsLease(s, op, now, r))
  {
    assert TaskGraph.WellFormed(s.graph);
    hide Inv, Apply, TaskGraph.WellFormed;
    if ChangesRuns(op) {
      RunOpEndsLeaseExactly(s, op, now, h, r);
    } else if ChangesClaims(op) {
      ClaimOpKeepsRuns(s, op, now, h);
    } else {
      OtherOpEndsLeaseExactly(s, op, now, h, r);
    }
  }

  // --- Whole runs ---

  /** The step succeeds and releases the lease. */
  ghost predicate LeaseEndsAt(s: State, step: Step, r: nat)
    requires Inv(s)
  {
    r < |s.runs| && Apply(s, step.op, step.now).Ok? && EndsLease(s, step.op, step.now, r)
  }

  /** Some step of the run releases the lease. */
  ghost predicate LeaseEnds(s: State, steps: seq<Step>, r: nat)
    requires Inv(s) && AllDisciplined(steps)
  {
    steps != []
    && var front := steps[..|steps| - 1];
       LeaseEnds(s, front, r) || LeaseEndsAt(After(s, front), steps[|steps| - 1], r)
  }

  lemma NextEndsLease(s: State, step: Step, r: nat)
    requires Inv(s) && Disciplined(step.op) && r < |s.runs|
    ensures
      var h := Next(s, step);
      r < |h.runs| && (h.runs[r].lease.released <==> s.runs[r].lease.released || LeaseEndsAt(s, step, r))
  {
    assert TaskGraph.WellFormed(s.graph);
    hide Inv, TaskGraph.WellFormed;
    if Apply(s, step.op, step.now).Ok? {
      if s.runs[r].lease.released {
        StepAdvances(s, step.op, step.now);
      } else {
        StepEndsLeaseExactly(s, step.op, step.now, Next(s, step), r);
      }
    }
  }

  /** Over any run a lease is released exactly when some step that succeeded released it. */
  lemma {:induction false} LeaseStandsUntilEnded(s: State, steps: seq<Step>, r: nat)
    requires Inv(s) && AllDisciplined(steps) && r < |s.runs| && !s.runs[r].lease.released
    ensures
      var h := After(s, steps);
      r < |h.runs| && (h.runs[r].lease.released <==> LeaseEnds(s, steps, r))
  {
    hide LeaseEndsAt, Next, Inv;
    if steps != [] {
      var front, last := steps[..|steps| - 1], steps[|steps| - 1];
      LeaseStandsUntilEnded(s, front, r);
      NextEndsLease(After(s, front), last, r);
    }
  }

  // --- A terminal task that holds something ---

  ghost predicate NeverFinishes(steps: seq<Step>, r: nat) {
    forall k :: 0 <= k < |steps| && steps[k].op.FinishRunOp? ==> steps[k].op.run != r
  }

  /** A terminal task is neither at work nor recoverable, so only the end of its run releases its lease. */
  lemma TerminalLeaseEndsByFinishing(s: State, step: Step, r: nat)
    requires Inv(s) && r < |s.runs| && s.graph.tasks[s.runs[r].task].status.IsTerminal() && LeaseEndsAt(s, step, r)
    ensures step.op.FinishRunOp? && step.op.run == r
  {
    hide Inv;
    if step.op.RecordOutcomeOp? { OutcomeNeedsWork(s, step.op.run, step.op.failure); }
  }

  lemma TerminalRunStaysTerminal(s: State, steps: seq<Step>, r: nat)
    requires Inv(s) && AllDisciplined(steps) && r < |s.runs| && s.graph.tasks[s.runs[r].task].status.IsTerminal()
    ensures
      var h := After(s, steps);
      r < |h.runs| && h.runs[r].task < |h.graph.tasks| && h.graph.tasks[h.runs[r].task].status.IsTerminal()
  {
    TerminalIsFinal(s, steps, s.runs[r].task);
    RunAdvancesAll(s, steps);
    assert RunAdvances(s.runs[r], After(s, steps).runs[r]);
  }

  /**
   A terminal task still under lease is out of recovery's reach: until its run is finished the lease stays
   unreleased, whatever else happens.
   */
  lemma TerminalTaskHoldsUntilFinished(s: State, steps: seq<Step>, c: nat)
    requires Inv(s) && AllDisciplined(steps) && c < |s.claims| && UnderLease(s.claims[c], s.runs)
    requires s.graph.tasks[s.claims[c].task].status.IsTerminal() && NeverFinishes(steps, s.claims[c].run.value)
    ensures
      var h := After(s, steps);
      && c < |h.claims| && h.claims[c].task == s.claims[c].task && h.claims[c].run == s.claims[c].run
      && UnderLease(h.claims[c], h.runs)
  {
    assert ClaimFits(s.claims[c], |s.graph.tasks|, s.runs);
    var r := s.claims[c].run.value;
    RunAdvancesAll(s, steps);
    assert ClaimAdvances(s.claims[c], After(s, steps).claims[c]);
    LeaseStandsUntilEnded(s, steps, r);
    NothingEndsTerminalLease(s, steps, r);
  }

  lemma {:induction false} NothingEndsTerminalLease(s: State, steps: seq<Step>, r: nat)
    requires Inv(s) && AllDisciplined(steps) && r < |s.runs| && s.graph.tasks[s.runs[r].task].status.IsTerminal()
    requires NeverFinishes(steps, r)
    ensures !LeaseEnds(s, steps, r)
  {
    hide Inv, After, LeaseEndsAt;
    if steps != [] {
      var front, last := steps[..|steps| - 1], steps[|steps| - 1];
      NothingEndsTerminalLease(s, front, r);
      TerminalRunStaysTerminal(s, front, r);
      if LeaseEndsAt(After(s, front), last, r) {
        TerminalLeaseEndsByFinishing(After(s, front), last, r);
      }
    }
  }

  /** And so, however long the run, the project stays closed. */
  lemma TerminalTaskBlocksItsProject(s: State, steps: seq<Step>, c: nat, r: ClaimRequest, now: int)
    requires Inv(s) && AllDisciplined(steps) && c < |s.claims| && UnderLease(s.claims[c], s.runs)
    requires s.graph.tasks[s.claims[c].task].status.IsTerminal() && NeverFinishes(steps, s.claims[c].run.value)
    requires
      var g := After(s, steps).graph;
      r.task < |g.tasks| && g.tasks[r.task].project == s.graph.tasks[s.claims[c].task].project
    ensures ClaimTask(After(s, steps), r, now).Err?
  {
    TerminalTaskHoldsUntilFinished(s, steps, c);
    TerminalIsFinal(s, steps, s.claims[c].task);
    HeldProjectRefusesClaims(After(s, steps), c, r, now);
  }

  // --- The paid requests of a run ---

  /** The step with which a reservation of a claim leaves Active. */
  predicate Dispatches(s: State, op: Api.LedgerOp, i: nat) {
    && i < |s.api.reservations| && s.api.reservations[i].claim.Some? && s.api.reservations[i].status == Api.Active
    && (op == Api.ClaimDispatchOp(i) || op == Api.BeginAttemptOp(i))
  }

  lemma DispatchKeepsBinding(l: Api.Ledger, op: Api.LedgerOp, i: nat, now: int)
    requires op == Api.ClaimDispatchOp(i) || op == Api.BeginAttemptOp(i)
    requires i < |l.reservations| && Api.Apply(l, op, now).Ok?
    ensures
      var h := Api.Apply(l, op, now).value;
      && i < |h.reservations|
      && h.reservations[i].claim == l.reservations[i].claim && h.reservations[i].run == l.reservations[i].run
  {
    hide Api.LastAttempt;
  }

  lemma DispatchIsUnderLease(s: State, op: Api.LedgerOp, i: nat, now: int)
    requires Inv(s) && Dispatches(s, op, i) && ApplyLedger(s, op, now).Ok?
    ensures
      var h := ApplyLedger(s, op, now).value;
      var c := s.api.reservations[i].claim.value;
      && c < |h.claims| && h.claims[c].status == ClaimConsumed && UnderLease(h.claims[c], h.runs)
      && i < |h.api.reservations| && h.api.reservations[i].claim == Some(c)
      && h.api.reservations[i].run == h.claims[c].run
  {
    ClaimBoundDispatchHasALease(s, i, now);
    DispatchKeepsBinding(s.api, op, i, now);
    hide Inv, Api.ClaimDispatch, Api.BeginAttempt;
  }

  lemma NextAppliesLedger(s: State, op: Api.LedgerOp, now: int)
    requires Inv(s) && ApplyLedger(s, op, now).Ok?
    ensures Next(s, Step(now, LedgerOp(op))) == ApplyLedger(s, op, now).value
  {
    assert TaskGraph.WellFormed(s.graph);
    LedgerApplies(s, op, now);
    hide Inv, TaskGraph.WellFormed, ApplyLedger, Apply;
  }

  lemma LedgerApplies(s: State, op: Api.LedgerOp, now: int)
    requires TaskGraph.WellFormed(s.graph)
    ensures Apply(s, LedgerOp(op), now) == ApplyLedger(s, op, now)
  {
    hide ApplyLedger;
  }

  /**
   A request dispatched for a claim is under the lease of its run to begin with. At any later time of any
   run, every attempt of it still belongs to that run, and is under the lease exactly when since the dispatch
   the run has not been finished, its process has not failed and its lease has not been recovered.
   */
  lemma LaterAttemptIsUnderLeaseExactly(s: State, op: Api.LedgerOp, start: int, steps: seq<Step>, i: nat, now: int)
    requires Inv(s) && AllDisciplined(steps) && Dispatches(s, op, i) && ApplyLedger(s, op, start).Ok?
    requires Api.BeginAttempt(After(Next(s, Step(start, LedgerOp(op))), steps).api, i, now).Ok?
    ensures
      var first := Next(s, Step(start, LedgerOp(op)));
      var h, c := After(first, steps), s.api.reservations[i].claim.value;
      && c < |h.claims| && h.claims[c].run.Some? && h.api.reservations[i].run == h.claims[c].run
      && (UnderLease(h.claims[c], h.runs) <==> !LeaseEnds(first, steps, h.claims[c].run.value))
  {
    hide ApplyLedger, Api.BeginAttempt, Next, Inv, After, LeaseEnds;
    DispatchIsUnderLease(s, op, i, start);
    NextAppliesLedger(s, op, start);
    LeaseDecides(Next(s, Step(start, LedgerOp(op))), steps, i, s.api.reservations[i].claim.value);
  }

  lemma LeaseDecides(s: State, steps: seq<Step>, i: nat, c: nat)
    requires Inv(s) && AllDisciplined(steps) && c < |s.claims| && i < |s.api.reservations|
    requires s.claims[c].status == ClaimConsumed && UnderLease(s.claims[c], s.runs)
    requires s.api.reservations[i].claim == Some(c) && s.api.reservations[i].run == s.claims[c].run
    ensures
      var h := After(s, steps);
      && c < |h.claims| && h.claims[c].run == s.claims[c].run
      && i < |h.api.reservations| && h.api.reservations[i].run == h.claims[c].run
      && (UnderLease(h.claims[c], h.runs) <==> !LeaseEnds(s, steps, s.claims[c].run.value))
  {
    var h := After(s, steps);
    RunAdvancesAll(s, steps);
    assert ClaimAdvances(s.claims[c], h.claims[c]);
    assert LedgerTheorems.NeverRevives(s.api.reservations[i], h.api.reservations[i]);
    hide Inv, After, LeaseEnds;
    LeaseStandsUntilEnded(s, steps, s.claims[c].run.value);
  }

  lemma RetryIsAdmitted()
    ensures Api.BeginAttempt(RetryingTask.api, 0, 5).Ok?
    ensures RetryingTask.api.reservations[0].claim == Some(0) && RetryingTask.api.reservations[0].run == Some(0)
    ensures RetryingTask.api.reservations[0].status == Api.Dispatched
  {
  }

  /** A state, with its budget, in which an attempt for a claim is admitted after the lease of its run was released. */
  lemma AttemptWithoutALease(status: string)
    ensures Reachable(RetryingTask) && FinishRun(RetryingTask, 0, status).Ok?
    ensures
      var h := FinishRun(RetryingTask, 0, status).value;
      && Reachable(h) && Api.BeginAttempt(h.api, 0, 5).Ok?
      && 0 < |h.claims| && !UnderLease(h.claims[0], h.runs)
  {
    RetryingTaskReached();
    ReachableAgrees(RetryingTask);
    FinishReaches(RetryingTask, 0, status, 5);
    RetryIsAdmitted();
    hide Inv, Reachable, FinishRun, Api.BeginAttempt;
    RetryOutlivesTheLease(RetryingTask, 0, status, 5);
  }
}
