/**
 How claims and leases agree with the statuses of their tasks in orderly runs, where status changes by hand
 leave held tasks alone and a run is finished once its task has been judged. In such runs nothing leaks: only
 work in hand holds anything.
 */
module StoreAgreement {
  import opened Prelude
  import opened Domain
  import opened Store
  import opened StoreInvariant
  import opened StoreSteps
  import opened StoreTheorems
  import opened StoreScenario
  import opened StoreStatus
  import opened StoreReleases
  import TaskGraph
  import Effects = StoreEffects
  import LedgerProofs = ApiLedgerProofs

  // --- The agreement ---

  predicate ClaimAgrees(c: Claim, tasks: seq<TaskGraph.Task>) {
    c.status == ClaimActive ==> c.task < |tasks| && tasks[c.task].status == TaskStatus.Leased
  }

  /** A running run does its task under its lease; until it is finished its task is verified and judged. */
  predicate RunAgrees(r: Run, tasks: seq<TaskGraph.Task>) {
    && (r.status == "running" ==> !r.lease.released)
    && (!r.lease.released ==>
          && r.task < |tasks|
          && if r.status == "running" then tasks[r.task].status == Running
             else r.status == "verifying" && tasks[r.task].status in {Verifying, Review, Failed})
  }

  ghost predicate Claimed(claims: seq<Claim>, t: nat) {
    exists c :: 0 <= c < |claims| && claims[c].status == ClaimActive && claims[c].task == t
  }

  ghost predicate Leasing(runs: seq<Run>, t: nat) {
    exists r :: 0 <= r < |runs| && runs[r].task == t && !runs[r].lease.released
  }

  ghost predicate StatusAgrees(status: TaskStatus, claims: seq<Claim>, runs: seq<Run>, t: nat) {
    && status !in {Planning, AwaitingApproval}
    && (status == TaskStatus.Leased ==> Claimed(claims, t))
    && (status in {Running, Verifying} ==> Leasing(runs, t))
  }

  ghost predicate Agreed(tasks: seq<TaskGraph.Task>, claims: seq<Claim>, runs: seq<Run>) {
    && (forall c :: 0 <= c < |claims| ==> ClaimAgrees(claims[c], tasks))
    && (forall r :: 0 <= r < |runs| ==> RunAgrees(runs[r], tasks))
    && (forall t :: 0 <= t < |tasks| ==> StatusAgrees(tasks[t].status, claims, runs, t))
  }

  ghost predicate Agree(s: State) {
    Agreed(s.graph.tasks, s.claims, s.runs)
  }

  /**
   An orderly step: a change by hand leaves a held task alone unless it judges its verification, a review is
   accepted only once its task holds nothing, and a run is finished once its task has been judged.
   */
  ghost predicate Orderly(s: State, op: Op) {
    Disciplined(op) &&
    match op
    case TransitionTaskOp(t, expected, _) => HoldsSomething(s, t) ==> expected == Verifying
    case CompleteReviewOp(t) => !HoldsSomething(s, t)
    case FinishRunOp(r, status) =>
      r < |s.runs| ==>
        && status != "running"
        && (s.runs[r].lease.released
            || (s.runs[r].task < |s.graph.tasks| && s.graph.tasks[s.runs[r].task].status in {Review, Failed}))
    case _ => true
  }

  /** What a held task may be doing. */
  lemma HeldStatuses(s: State, t: nat)
    requires Inv(s) && Agree(s) && HoldsSomething(s, t)
    ensures t < |s.graph.tasks| && s.graph.tasks[t].status in {TaskStatus.Leased, Running, Verifying, Review, Failed}
  {
    var c :| 0 <= c < |s.claims| && HoldsFor(s, c, t);
    assert ClaimFits(s.claims[c], |s.graph.tasks|, s.runs) && ClaimAgrees(s.claims[c], s.graph.tasks);
    if s.claims[c].run.Some? { assert RunAgrees(s.runs[s.claims[c].run.value], s.graph.tasks); }
  }

  lemma ClaimedHolds(s: State, t: nat)
    requires Claimed(s.claims, t)
    ensures HoldsSomething(s, t)
  {
    var c :| 0 <= c < |s.claims| && s.claims[c].status == ClaimActive && s.claims[c].task == t;
    assert HoldsFor(s, c, t);
  }

  lemma LeasingHolds(s: State, t: nat)
    requires Inv(s) && Leasing(s.runs, t)
    ensures HoldsSomething(s, t)
  {
    var r: nat :| r < |s.runs| && s.runs[r].task == t && !s.runs[r].lease.released;
    assert HasClaim(s.claims, r);
    var c :| 0 <= c < |s.claims| && s.claims[c].run == Some(r);
    assert ClaimFits(s.claims[c], |s.graph.tasks|, s.runs);
    assert HoldsFor(s, c, t);
  }

  // --- Claims end ---

  lemma EndClaimAgrees(s: State, c: nat, ending: Ending)
    requires Agree(s) && ClaimsFit(|s.graph.tasks|, s.claims, s.runs) && ClaimsUnique(s.claims)
    requires c < |s.claims| && s.claims[c].status == ClaimActive
    ensures Agree(EndClaim(s, c, ending))
  {
    var h, t := EndClaim(s, c, ending), s.claims[c].task;
    assert ClaimAgrees(s.claims[c], s.graph.tasks);
    forall x: nat | x < |s.graph.tasks|
      ensures x != t ==> h.graph.tasks[x] == s.graph.tasks[x]
      ensures x == t ==> h.graph.tasks[x].status in {Ready, Paused}
    {
      Effects.EndTaskStatus(s.graph, t, ending, x);
    }
    forall d | 0 <= d < |h.claims|
      ensures ClaimAgrees(h.claims[d], h.graph.tasks)
    {
      assert ClaimAgrees(s.claims[d], s.graph.tasks);
    }
    forall r | 0 <= r < |h.runs|
      ensures RunAgrees(h.runs[r], h.graph.tasks)
    {
      assert RunAgrees(s.runs[r], s.graph.tasks);
    }
    forall x | 0 <= x < |h.graph.tasks|
      ensures StatusAgrees(h.graph.tasks[x].status, h.claims, h.runs, x)
    {
      assert StatusAgrees(s.graph.tasks[x].status, s.claims, s.runs, x);
      if x != t && s.graph.tasks[x].status == TaskStatus.Leased {
        var d :| 0 <= d < |s.claims| && s.claims[d].status == ClaimActive && s.claims[d].task == x;
        assert h.claims[d] == s.claims[d];
      }
    }
  }

  lemma {:induction false} EndClaimsAgree(s: State, cs: seq<nat>, ending: Ending)
    requires Agree(s) && ClaimTables(s) && TaskGraph.Inv(s.graph) && LedgerProofs.Inv(s.api) && LeaderFits(s.leader, s.claims)
    requires Endable(s, cs)
    ensures Agree(EndClaims(s, cs, ending))
  {
    if cs != [] {
      var front := cs[..|cs| - 1];
      EndClaimsAgree(s, front, ending);
      EndClaimsKeepsInv(s, front, ending);
      EndClaimsExactly(s, front, ending);
      assert cs[|cs| - 1] !in front;
      EndClaimAgrees(EndClaims(s, front, ending), cs[|cs| - 1], ending);
    }
  }

  lemma SweepAgrees(s: State, now: int)
    requires Inv(s) && Agree(s)
    ensures Agree(ExpireClaims(s, now))
  {
    SelectionIsEndable(s, (c: Claim) => c.status == ClaimActive && c.expiresAt <= now);
    EndClaimsAgree(s, OverdueClaims(s.claims, now), Expiry);
  }

  lemma StopAgrees(s: State, instance: string, now: int)
    requires Inv(s) && Agree(s) && StopInstance(s, instance, now).Ok?
    ensures Agree(StopInstance(s, instance, now).value)
  {
    var leader := if s.leader.Some? && s.leader.value.instance == instance
                  then Some(s.leader.value.(expiresAt := now)) else s.leader;
    var stopped := s.(instances := s.instances - {instance}, leader := leader);
    assert ClaimTables(stopped) && LeaderFits(stopped.leader, stopped.claims);
    SelectionIsEndable(stopped, (c: Claim) => c.status == ClaimActive && c.instance == instance);
    EndClaimsAgree(stopped, ClaimsOf(stopped.claims, instance), GracefulStop);
  }

  /** Runs change, but not their statuses, tasks and leases. */
  lemma QuietRunsAgree(s: State, runs: seq<Run>)
    requires Agree(s) && |runs| == |s.runs|
    requires forall r :: 0 <= r < |runs| ==>
               runs[r].status == s.runs[r].status && runs[r].task == s.runs[r].task
               && runs[r].lease.released == s.runs[r].lease.released
    ensures Agreed(s.graph.tasks, s.claims, runs)
  {
    forall r | 0 <= r < |runs|
      ensures RunAgrees(runs[r], s.graph.tasks)
    {
      assert RunAgrees(s.runs[r], s.graph.tasks);
    }
    forall t | 0 <= t < |s.graph.tasks|
      ensures StatusAgrees(s.graph.tasks[t].status, s.claims, runs, t)
    {
      assert StatusAgrees(s.graph.tasks[t].status, s.claims, s.runs, t);
      if Leasing(s.runs, t) {
        var r :| 0 <= r < |s.runs| && s.runs[r].task == t && !s.runs[r].lease.released;
        assert runs[r].task == t;
      }
    }
  }

  lemma EmergencyAgrees(s: State, reason: string)
    requires Inv(s) && Agree(s) && EmergencyStop(s, reason).Ok?
    ensures Agree(EmergencyStop(s, reason).value)
  {
    var stopped := s.(control := Control(true, true), runs := CancelAtWork(s.runs, s.graph.tasks));
    CancelKeepsInv(s);
    QuietRunsAgree(s, stopped.runs);
    ActiveClaimsEndable(stopped);
    assert Agree(stopped);
    hide Agree, Inv;
    EndClaimsAgree(stopped, ActiveClaims(stopped.claims), Emergency);
  }

  // --- Claims are made, renewed and consumed ---

  lemma NewClaimAgrees(s: State, h: State, claim: Claim)
    requires Inv(s) && Agree(s) && claim.task < |s.graph.tasks| && s.graph.tasks[claim.task].status == Ready
    requires claim.status == ClaimActive && h.claims == s.claims + [claim] && h.runs == s.runs
    requires h.graph == TaskGraph.SetStatus(s.graph, claim.task, TaskStatus.Leased)
    ensures Agree(h)
  {
    forall c | 0 <= c < |h.claims|
      ensures ClaimAgrees(h.claims[c], h.graph.tasks)
    {
      if c < |s.claims| { assert ClaimAgrees(s.claims[c], s.graph.tasks); }
    }
    forall r | 0 <= r < |h.runs|
      ensures RunAgrees(h.runs[r], h.graph.tasks)
    {
      assert RunAgrees(s.runs[r], s.graph.tasks);
    }
    forall t | 0 <= t < |h.graph.tasks|
      ensures StatusAgrees(h.graph.tasks[t].status, h.claims, h.runs, t)
    {
      assert StatusAgrees(s.graph.tasks[t].status, s.claims, s.runs, t);
      assert h.claims[|s.claims|] == claim;
      if Claimed(s.claims, t) {
        var c :| 0 <= c < |s.claims| && s.claims[c].status == ClaimActive && s.claims[c].task == t;
        assert h.claims[c] == s.claims[c];
      }
    }
  }

  lemma AcquisitionAgrees(s: State, r: ClaimRequest, now: int)
    requires Inv(s) && Agree(s) && CheckClaim(s, r, now).Ok? && AcquireForClaim(s, r, now).Ok?
    ensures Agree(AcquireForClaim(s, r, now).value)
  {
    AcquisitionGraph(s, r, now);
    AcquisitionAppends(s, r, now);
    hide AcquireForClaim, Agree, Inv;
    NewClaimAgrees(s, AcquireForClaim(s, r, now).value, NewClaim(r, now));
  }

  lemma AcquisitionGraph(s: State, r: ClaimRequest, now: int)
    requires r.task < |s.graph.tasks| && AcquireForClaim(s, r, now).Ok?
    ensures AcquireForClaim(s, r, now).value.graph == TaskGraph.SetStatus(s.graph, r.task, TaskStatus.Leased)
  {
  }

  lemma ClaimTaskAgrees(s: State, r: ClaimRequest, now: int)
    requires Inv(s) && Agree(s) && ClaimTask(s, r, now).Ok?
    ensures Agree(ClaimTask(s, r, now).value)
  {
    SweepKeepsInv(s, now);
    SweepAgrees(s, now);
    hide Agree, Inv, AcquireForClaim;
    AcquisitionAgrees(ExpireClaims(s, now), r, now);
  }

  /** Claims change, but not their statuses and tasks. */
  lemma QuietClaimsAgree(s: State, claims: seq<Claim>)
    requires Agree(s) && |claims| == |s.claims|
    requires forall c :: 0 <= c < |claims| ==> claims[c].status == s.claims[c].status && claims[c].task == s.claims[c].task
    ensures Agreed(s.graph.tasks, claims, s.runs)
  {
    forall c | 0 <= c < |claims|
      ensures ClaimAgrees(claims[c], s.graph.tasks)
    {
      assert ClaimAgrees(s.claims[c], s.graph.tasks);
    }
    forall t | 0 <= t < |s.graph.tasks|
      ensures StatusAgrees(s.graph.tasks[t].status, claims, s.runs, t)
    {
      assert StatusAgrees(s.graph.tasks[t].status, s.claims, s.runs, t);
      if Claimed(s.claims, t) {
        var c :| 0 <= c < |s.claims| && s.claims[c].status == ClaimActive && s.claims[c].task == t;
        assert claims[c].task == t;
      }
    }
  }

  lemma HeartbeatAgrees(s: State, instance: string, generation: nat, ttl: nat, now: int)
    requires Inv(s) && Agree(s) && HeartbeatClaims(s, instance, generation, ttl, now).Ok?
    ensures Agree(HeartbeatClaims(s, instance, generation, ttl, now).value)
  {
    SweepAgrees(s, now);
    hide ExpireClaims;
    QuietClaimsAgree(ExpireClaims(s, now), HeartbeatClaims(s, instance, generation, ttl, now).value.claims);
  }

  lemma ConsumeAgrees(s: State, c: nat, runId: string, expiresAt: int)
    requires Inv(s) && Agree(s) && c < |s.claims| && s.claims[c].status == ClaimActive
    requires s.claims[c].task < |s.graph.tasks| && s.graph.tasks[s.claims[c].task].status == TaskStatus.Leased
    ensures Agree(Consume(s, c, runId, expiresAt))
  {
    var h, t := Consume(s, c, runId, expiresAt), s.claims[c].task;
    forall d | 0 <= d < |h.claims|
      ensures ClaimAgrees(h.claims[d], h.graph.tasks)
    {
      assert ClaimAgrees(s.claims[d], s.graph.tasks);
    }
    forall r | 0 <= r < |h.runs|
      ensures RunAgrees(h.runs[r], h.graph.tasks)
    {
      if r < |s.runs| { assert RunAgrees(s.runs[r], s.graph.tasks); }
    }
    forall x | 0 <= x < |h.graph.tasks|
      ensures StatusAgrees(h.graph.tasks[x].status, h.claims, h.runs, x)
    {
      assert StatusAgrees(s.graph.tasks[x].status, s.claims, s.runs, x);
      if x == t {
        assert h.runs[|s.runs|].task == t;
      } else {
        ConsumeKeepsWitnesses(s, c, runId, expiresAt, x);
      }
    }
  }

  lemma ConsumeKeepsWitnesses(s: State, c: nat, runId: string, expiresAt: int, t: nat)
    requires c < |s.claims| && s.claims[c].task < |s.graph.tasks| && t != s.claims[c].task
    ensures
      var h := Consume(s, c, runId, expiresAt);
      (Claimed(s.claims, t) ==> Claimed(h.claims, t)) && (Leasing(s.runs, t) ==> Leasing(h.runs, t))
  {
    var h := Consume(s, c, runId, expiresAt);
    if d :| 0 <= d < |s.claims| && s.claims[d].status == ClaimActive && s.claims[d].task == t {
      assert h.claims[d] == s.claims[d];
    }
    if r :| 0 <= r < |s.runs| && s.runs[r].task == t && !s.runs[r].lease.released {
      assert h.runs[r] == s.runs[r];
    }
  }

  lemma BeginAgrees(s: State, c: nat, instance: string, generation: nat, runId: string, adapter: string,
                    ttl: nat, now: int)
    requires Inv(s) && Agree(s) && BeginClaimedRun(s, c, instance, generation, runId, adapter, ttl, now).Ok?
    ensures Agree(BeginClaimedRun(s, c, instance, generation, runId, adapter, ttl, now).value)
  {
    hide Inv, Agree;
    ConsumeAgrees(s, c, runId, now + ttl);
  }

  // --- Runs end ---

  /** One run and its task change; no other unreleased lease is on the task. */
  lemma RunChangeAgrees(s: State, h: State, r: nat, status: TaskStatus)
    requires Inv(s) && Agree(s) && r < |s.runs| && !s.runs[r].lease.released
    requires |h.runs| == |s.runs| && h.runs[r].task == s.runs[r].task && h.claims == s.claims
    requires forall q :: 0 <= q < |s.runs| && q != r ==> h.runs[q] == s.runs[q]
    requires s.runs[r].task < |s.graph.tasks| && |h.graph.tasks| == |s.graph.tasks|
    requires h.graph.tasks[s.runs[r].task].status == status
    requires forall t :: 0 <= t < |s.graph.tasks| && t != s.runs[r].task ==> h.graph.tasks[t] == s.graph.tasks[t]
    requires RunAgrees(h.runs[r], h.graph.tasks)
    requires status !in {TaskStatus.Leased, Planning, AwaitingApproval}
    requires status in {Running, Verifying} ==> !h.runs[r].lease.released
    ensures Agree(h)
  {
    var t := s.runs[r].task;
    assert RunAgrees(s.runs[r], s.graph.tasks);
    forall c | 0 <= c < |h.claims|
      ensures ClaimAgrees(h.claims[c], h.graph.tasks)
    {
      assert ClaimAgrees(s.claims[c], s.graph.tasks);
    }
    forall q: nat | q < |h.runs|
      ensures RunAgrees(h.runs[q], h.graph.tasks)
    {
      assert RunAgrees(s.runs[q], s.graph.tasks);
      if q != r && !s.runs[q].lease.released && s.runs[q].task == t { LeasesAreExclusive(s, r, q); }
    }
    forall x | 0 <= x < |h.graph.tasks|
      ensures StatusAgrees(h.graph.tasks[x].status, h.claims, h.runs, x)
    {
      assert StatusAgrees(s.graph.tasks[x].status, s.claims, s.runs, x);
      if x == t {
        assert h.runs[r].task == t;
      } else if q :| 0 <= q < |s.runs| && s.runs[q].task == x && !s.runs[q].lease.released {
        assert h.runs[q] == s.runs[q];
      }
    }
  }

  lemma OutcomeShape(s: State, r: nat, failure: Option<FailureCategory>)
    requires RecordOutcome(s, r, failure).Ok?
    ensures
      var h, outcome := RecordOutcome(s, r, failure).value, OutcomeOf(failure, s.runs[r].requestedAction);
      && r < |s.runs| && AtWork(s.runs[r], s.graph.tasks) && |h.runs| == |s.runs|
      && h.claims == s.claims && h.graph == TaskGraph.SetStatus(s.graph, s.runs[r].task, outcome.task)
      && h.runs[r].task == s.runs[r].task && h.runs[r].status == outcome.run
      && h.runs[r].lease.released == (s.runs[r].lease.released || failure.Some?)
      && forall q :: 0 <= q < |s.runs| && q != r ==> h.runs[q] == s.runs[q]
  {
  }

  lemma OutcomeNames(failure: Option<FailureCategory>, requestedAction: Option<string>)
    ensures
      var outcome := OutcomeOf(failure, requestedAction);
      && outcome.run != "running" && (failure.None? <==> outcome.run == "verifying")
      && (failure.None? <==> outcome.task == Verifying) && outcome.task in {Verifying, Paused, Cancelled, Failed}
  {
    assert "failed"[0] != "running"[0] && "verifying"[0] != "running"[0] && "paused"[0] != "running"[0];
    assert "cancelled"[0] != "running"[0] && "failed"[0] != "verifying"[0] && "paused"[0] != "verifying"[0];
    assert "cancelled"[0] != "verifying"[0];
  }

  lemma OutcomeAgrees(s: State, r: nat, failure: Option<FailureCategory>)
    requires Inv(s) && Agree(s) && RecordOutcome(s, r, failure).Ok?
    ensures Agree(RecordOutcome(s, r, failure).value)
  {
    OutcomeShape(s, r, failure);
    OutcomeNames(failure, s.runs[r].requestedAction);
    assert RunAgrees(s.runs[r], s.graph.tasks);
    hide RecordOutcome, OutcomeOf, Agree, Inv;
    RunChangeAgrees(s, RecordOutcome(s, r, failure).value, r, OutcomeOf(failure, s.runs[r].requestedAction).task);
  }

  lemma FinishShape(s: State, r: nat, status: string)
    requires FinishRun(s, r, status).Ok?
    ensures
      var h := FinishRun(s, r, status).value;
      && r < |s.runs| && |h.runs| == |s.runs| && h.claims == s.claims && h.graph == s.graph
      && h.runs[r].task == s.runs[r].task && h.runs[r].status == status && h.runs[r].lease.released
      && forall q :: 0 <= q < |s.runs| && q != r ==> h.runs[q] == s.runs[q]
  {
  }

  lemma FinishAgrees(s: State, r: nat, status: string)
    requires Inv(s) && Agree(s) && FinishRun(s, r, status).Ok? && Orderly(s, FinishRunOp(r, status))
    ensures Agree(FinishRun(s, r, status).value)
  {
    FinishShape(s, r, status);
    var h := FinishRun(s, r, status).value;
    hide FinishRun;
    forall q | 0 <= q < |h.runs|
      ensures RunAgrees(h.runs[q], h.graph.tasks)
    {
      assert RunAgrees(s.runs[q], s.graph.tasks);
    }
    forall t | 0 <= t < |h.graph.tasks|
      ensures StatusAgrees(h.graph.tasks[t].status, h.claims, h.runs, t)
    {
      assert StatusAgrees(s.graph.tasks[t].status, s.claims, s.runs, t);
      if q :| 0 <= q < |s.runs| && s.runs[q].task == t && !s.runs[q].lease.released {
        assert q != r ==> h.runs[q] == s.runs[q];
      }
    }
  }

  /** What recovery leaves behind. */
  ghost predicate Recovered(s: State, h: State, now: int) {
    && h.claims == s.claims && |h.runs| == |s.runs| && |h.graph.tasks| == |s.graph.tasks|
    && (forall r: nat :: r < |s.runs| ==>
          h.runs[r] == if LeaseOverdue(s.runs[r], s.graph.tasks, now) then Effects.Orphaned(s.runs[r]) else s.runs[r])
    && (forall t: nat :: t < |s.graph.tasks| ==>
          h.graph.tasks[t] == if TaskOverdue(s, t, now) then PausedRow(s.graph.tasks[t]) else s.graph.tasks[t])
  }

  lemma OverdueRunMakesItsTask(s: State, r: nat, now: int)
    requires r < |s.runs| && LeaseOverdue(s.runs[r], s.graph.tasks, now)
    ensures TaskOverdue(s, s.runs[r].task, now)
  {
  }

  lemma CurrentLeaseIsAlone(s: State, r: nat, now: int)
    requires Inv(s) && r < |s.runs| && !s.runs[r].lease.released && !LeaseOverdue(s.runs[r], s.graph.tasks, now)
    ensures !TaskOverdue(s, s.runs[r].task, now)
  {
    forall q | 0 <= q < |s.runs|
      ensures !(s.runs[q].task == s.runs[r].task && LeaseOverdue(s.runs[q], s.graph.tasks, now))
    {
      if s.runs[q].task == s.runs[r].task && !s.runs[q].lease.released { LeasesAreExclusive(s, r, q); }
    }
  }

  lemma LeasedIsNotOverdue(s: State, t: nat, now: int)
    requires Agree(s) && t < |s.graph.tasks| && s.graph.tasks[t].status == TaskStatus.Leased
    ensures !TaskOverdue(s, t, now)
  {
    forall r | 0 <= r < |s.runs|
      ensures !(s.runs[r].task == t && LeaseOverdue(s.runs[r], s.graph.tasks, now))
    {
      assert RunAgrees(s.runs[r], s.graph.tasks);
    }
  }

  lemma RecoveryShape(s: State, now: int)
    requires Inv(s)
    ensures Recovered(s, RecoverLeases(s, now), now)
  {
    RecoveryFollowsTheTableExactly(s, now);
    RecoveryLeaves(s, now);
    Effects.OverdueRunsOrphaned(s, now);
    hide RecoverLeases, TaskOverdue, FollowsTable;
  }

  lemma RecoveredClaimAgrees(s: State, h: State, now: int, c: nat)
    requires Inv(s) && Agree(s) && Recovered(s, h, now) && c < |h.claims|
    ensures ClaimAgrees(h.claims[c], h.graph.tasks)
  {
    assert ClaimAgrees(s.claims[c], s.graph.tasks);
    if s.claims[c].status == ClaimActive { LeasedIsNotOverdue(s, s.claims[c].task, now); }
  }

  lemma RecoveredRunAgrees(s: State, h: State, now: int, r: nat)
    requires Inv(s) && Agree(s) && Recovered(s, h, now) && r < |h.runs|
    ensures RunAgrees(h.runs[r], h.graph.tasks)
  {
    assert RunAgrees(s.runs[r], s.graph.tasks);
    if !s.runs[r].lease.released && !LeaseOverdue(s.runs[r], s.graph.tasks, now) {
      CurrentLeaseIsAlone(s, r, now);
    }
    assert "orphaned"[0] != "running"[0];
  }

  lemma RecoveredStatusAgrees(s: State, h: State, now: int, t: nat)
    requires Agree(s) && Recovered(s, h, now) && t < |h.graph.tasks|
    ensures StatusAgrees(h.graph.tasks[t].status, h.claims, h.runs, t)
  {
    assert StatusAgrees(s.graph.tasks[t].status, s.claims, s.runs, t);
    if r: nat :| r < |s.runs| && s.runs[r].task == t && !s.runs[r].lease.released {
      if LeaseOverdue(s.runs[r], s.graph.tasks, now) { OverdueRunMakesItsTask(s, r, now); }
      assert h.runs[r].task == t;
    }
  }

  lemma RecoveryAgrees(s: State, now: int)
    requires Inv(s) && Agree(s)
    ensures Agree(RecoverLeases(s, now))
  {
    RecoveryShape(s, now);
    var h := RecoverLeases(s, now);
    forall c: nat | c < |h.claims|
      ensures ClaimAgrees(h.claims[c], h.graph.tasks)
    {
      RecoveredClaimAgrees(s, h, now, c);
    }
    forall r: nat | r < |h.runs|
      ensures RunAgrees(h.runs[r], h.graph.tasks)
    {
      RecoveredRunAgrees(s, h, now, r);
    }
    forall t: nat | t < |h.graph.tasks|
      ensures StatusAgrees(h.graph.tasks[t].status, h.claims, h.runs, t)
    {
      RecoveredStatusAgrees(s, h, now, t);
    }
    hide RecoverLeases, Recovered, ClaimAgrees, RunAgrees, StatusAgrees, Inv;
  }

  // --- Tasks change ---

  /** A task keeps its status, or held nothing and takes up nothing, or leaves verification with a verdict. */
  ghost predicate QuietStatus(s: State, t: nat, next: TaskStatus)
    requires t < |s.graph.tasks|
  {
    || next == s.graph.tasks[t].status
    || (!HoldsSomething(s, t) && next !in {TaskStatus.Leased, Planning, AwaitingApproval, Running, Verifying})
    || (s.graph.tasks[t].status == Verifying && next in {Review, Failed})
  }

  ghost predicate QuietGraph(s: State, g: TaskGraph.Graph) {
    && |s.graph.tasks| <= |g.tasks|
    && (forall t :: 0 <= t < |s.graph.tasks| ==> QuietStatus(s, t, g.tasks[t].status))
    && (forall t :: |s.graph.tasks| <= t < |g.tasks| ==> g.tasks[t].status in {Draft, Ready})
  }

  lemma QuietGraphAgrees(s: State, g: TaskGraph.Graph)
    requires Inv(s) && Agree(s) && QuietGraph(s, g)
    ensures Agree(s.(graph := g))
  {
    forall c | 0 <= c < |s.claims|
      ensures ClaimAgrees(s.claims[c], g.tasks)
    {
      assert ClaimAgrees(s.claims[c], s.graph.tasks) && ClaimFits(s.claims[c], |s.graph.tasks|, s.runs);
      if s.claims[c].status == ClaimActive {
        assert Claimed(s.claims, s.claims[c].task);
        ClaimedHolds(s, s.claims[c].task);
        assert QuietStatus(s, s.claims[c].task, g.tasks[s.claims[c].task].status);
      }
    }
    forall r | 0 <= r < |s.runs|
      ensures RunAgrees(s.runs[r], g.tasks)
    {
      assert RunAgrees(s.runs[r], s.graph.tasks);
      if !s.runs[r].lease.released {
        assert Leasing(s.runs, s.runs[r].task);
        LeasingHolds(s, s.runs[r].task);
        assert QuietStatus(s, s.runs[r].task, g.tasks[s.runs[r].task].status);
      }
    }
    forall t | 0 <= t < |g.tasks|
      ensures StatusAgrees(g.tasks[t].status, s.claims, s.runs, t)
    {
      if t < |s.graph.tasks| {
        assert StatusAgrees(s.graph.tasks[t].status, s.claims, s.runs, t);
        assert QuietStatus(s, t, g.tasks[t].status);
      }
    }
  }

  lemma AddTaskAgrees(s: State, project: string, dependencies: seq<nat>, pin: Option<TaskGraph.RoutePin>)
    requires Inv(s) && Agree(s) && TaskGraph.AddTask(s.graph, project, dependencies, pin).Ok?
    ensures Agree(s.(graph := TaskGraph.AddTask(s.graph, project, dependencies, pin).value))
  {
    QuietGraphAgrees(s, TaskGraph.AddTask(s.graph, project, dependencies, pin).value);
  }

  lemma SetRoutePinAgrees(s: State, t: nat, pin: Option<TaskGraph.RoutePin>, reason: string)
    requires Inv(s) && Agree(s) && TaskGraph.SetRoutePin(s.graph, t, pin, reason).Ok?
    ensures Agree(s.(graph := TaskGraph.SetRoutePin(s.graph, t, pin, reason).value))
  {
    QuietGraphAgrees(s, TaskGraph.SetRoutePin(s.graph, t, pin, reason).value);
  }

  lemma AddDependencyAgrees(s: State, t: nat, d: nat)
    requires Inv(s) && Agree(s) && TaskGraph.AddDependency(s.graph, t, d).Ok?
    ensures Agree(s.(graph := TaskGraph.AddDependency(s.graph, t, d).value))
  {
    if HoldsSomething(s, t) { HeldStatuses(s, t); }
    QuietGraphAgrees(s, TaskGraph.AddDependency(s.graph, t, d).value);
  }

  lemma CompleteReviewAgrees(s: State, t: nat)
    requires Inv(s) && Agree(s) && TaskGraph.CompleteReview(s.graph, t).Ok? && !HoldsSomething(s, t)
    ensures Agree(s.(graph := TaskGraph.CompleteReview(s.graph, t).value))
  {
    var g := TaskGraph.CompleteReview(s.graph, t).value;
    forall x: nat | x < |s.graph.tasks|
      ensures QuietStatus(s, x, g.tasks[x].status)
    {
      if x != t {
        TaskGraph.CompleteReviewPromotesExactly(s.graph, t, x);
        if HoldsSomething(s, x) { HeldStatuses(s, x); }
      }
    }
    QuietGraphAgrees(s, g);
  }

  lemma TransitionAgrees(s: State, t: nat, expected: TaskStatus, next: TaskStatus)
    requires Inv(s) && Agree(s) && TaskGraph.TransitionTask(s.graph, t, expected, next).Ok?
    requires Orderly(s, TransitionTaskOp(t, expected, next))
    ensures Agree(s.(graph := TaskGraph.TransitionTask(s.graph, t, expected, next).value))
  {
    assert StatusAgrees(s.graph.tasks[t].status, s.claims, s.runs, t);
    if expected == TaskStatus.Leased { ClaimedHolds(s, t); }
    if expected == Running { LeasingHolds(s, t); }
    assert QuietStatus(s, t, next);
    hide Inv, Agree, StatusAgrees;
    QuietGraphAgrees(s, TaskGraph.TransitionTask(s.graph, t, expected, next).value);
  }

  // --- Every orderly step ---

  lemma TaskOpAgrees(s: State, op: Op, now: int, h: State)
    requires Inv(s) && Agree(s) && Orderly(s, op) && Apply(s, op, now) == Ok(h) && ChangesTasks(op)
    ensures Agree(h)
  {
    hide Inv, Agree, HoldsSomething, TaskGraph.AddTask, TaskGraph.SetRoutePin, TaskGraph.AddDependency, TaskGraph.CompleteReview,
      TaskGraph.TransitionTask;
    if op.AddTaskOp? {
      AddTaskAgrees(s, op.project, op.dependencies, op.pin);
    } else if op.SetRoutePinOp? {
      SetRoutePinAgrees(s, op.task, op.pin, op.reason);
    } else if op.AddDependencyOp? {
      AddDependencyAgrees(s, op.task, op.on);
    } else if op.CompleteReviewOp? {
      CompleteReviewAgrees(s, op.task);
    } else {
      TransitionAgrees(s, op.task, op.expected, op.next);
    }
  }

  lemma ClaimOpAgrees(s: State, op: Op, now: int, h: State)
    requires Inv(s) && Agree(s) && Apply(s, op, now) == Ok(h) && ChangesClaims(op)
    ensures Agree(h)
  {
    hide Inv, Agree, StopInstance, ClaimTask, HeartbeatClaims, ExpireClaims;
    match op
    case StopInstanceOp(i) => StopAgrees(s, i, now);
    case ClaimTaskOp(r) => ClaimTaskAgrees(s, r, now);
    case HeartbeatClaimsOp(i, g, ttl) => HeartbeatAgrees(s, i, g, ttl, now);
    case RecoverClaimsOp => SweepAgrees(s, now);
  }

  lemma RunOpAgrees(s: State, op: Op, now: int, h: State)
    requires Inv(s) && Agree(s) && Apply(s, op, now) == Ok(h) && ChangesRuns(op)
    ensures Agree(h)
  {
    hide Inv, Agree, EmergencyStop, BeginClaimedRun, RecordOutcome, RecoverLeases;
    match op
    case EmergencyStopOp(reason) => EmergencyAgrees(s, reason);
    case BeginClaimedRunOp(c, i, g, runId, adapter, ttl) => BeginAgrees(s, c, i, g, runId, adapter, ttl, now);
    case RecordOutcomeOp(r, failure) => OutcomeAgrees(s, r, failure);
    case RecoverLeasesOp => RecoveryAgrees(s, now);
  }

  lemma QuietOpShape(s: State, op: Op, now: int, h: State)
    requires TaskGraph.WellFormed(s.graph) && Apply(s, op, now) == Ok(h)
    requires !ChangesTasks(op) && !ChangesClaims(op) && !ChangesRuns(op) && !op.FinishRunOp?
    ensures h.graph == s.graph && h.claims == s.claims && |h.runs| == |s.runs|
    ensures forall r :: 0 <= r < |h.runs| ==>
              h.runs[r].status == s.runs[r].status && h.runs[r].task == s.runs[r].task
              && h.runs[r].lease.released == s.runs[r].lease.released
  {
  }

  /** Every orderly step keeps the agreement. */
  lemma StepKeepsAgreement(s: State, op: Op, now: int, h: State)
    requires Inv(s) && Agree(s) && Orderly(s, op) && Apply(s, op, now) == Ok(h)
    ensures Agree(h)
  {
    assert TaskGraph.WellFormed(s.graph);
    assert op.FinishRunOp? ==> FinishRun(s, op.run, op.status) == Ok(h);
    hide Inv, Apply, FinishRun, TaskGraph.WellFormed;
    if ChangesTasks(op) {
      TaskOpAgrees(s, op, now, h);
    } else if ChangesClaims(op) {
      ClaimOpAgrees(s, op, now, h);
    } else if ChangesRuns(op) {
      RunOpAgrees(s, op, now, h);
    } else if op.FinishRunOp? {
      FinishAgrees(s, op.run, op.status);
    } else {
      QuietOpShape(s, op, now, h);
      QuietRunsAgree(s, h.runs);
    }
  }

  // --- Whole runs ---

  /** Every step of the run is orderly where it is taken. */
  ghost predicate OrderlyRun(s: State, steps: seq<Step>)
    requires Inv(s) && AllDisciplined(steps)
  {
    forall k :: 0 <= k < |steps| ==> Orderly(After(s, steps[..k]), steps[k].op)
  }

  ghost predicate OrderlyFromEmpty(steps: seq<Step>)
    requires AllDisciplined(steps)
  {
    EmptyStateInv();
    OrderlyRun(EmptyState, steps)
  }

  lemma OrderlyPrefix(s: State, steps: seq<Step>)
    requires Inv(s) && AllDisciplined(steps) && steps != [] && OrderlyRun(s, steps)
    ensures
      var n := |steps| - 1;
      OrderlyRun(s, steps[..n]) && Orderly(After(s, steps[..n]), steps[n].op)
  {
    hide Inv, After, Orderly;
    var front := steps[..|steps| - 1];
    forall k | 0 <= k < |front|
      ensures Orderly(After(s, front[..k]), front[k].op)
    {
      assert front[..k] == steps[..k];
    }
  }

  lemma {:induction false} OrderlyRunsAgree(s: State, steps: seq<Step>)
    requires Inv(s) && Agree(s) && AllDisciplined(steps) && OrderlyRun(s, steps)
    ensures Agree(After(s, steps))
  {
    hide Agree, Orderly;
    if steps != [] {
      var front, last := steps[..|steps| - 1], steps[|steps| - 1];
      OrderlyPrefix(s, steps);
      OrderlyRunsAgree(s, front);
      if Apply(After(s, front), last.op, last.now).Ok? {
        StepKeepsAgreement(After(s, front), last.op, last.now, After(s, steps));
      }
    }
  }

  /**
   Nothing leaks in an orderly run: a task that is leased, running or verifying holds its project, and a
   task that holds anything is one of these or has just been judged and waits for its run to be finished.
   */
  lemma OnlyWorkInHandHolds(steps: seq<Step>, t: nat)
    requires AllDisciplined(steps) && OrderlyFromEmpty(steps)
    ensures
      var s := Reached(steps);
      t < |s.graph.tasks| ==>
        var status := s.graph.tasks[t].status;
        && (status in {TaskStatus.Leased, Running, Verifying} ==> HoldsSomething(s, t))
        && (HoldsSomething(s, t) ==>
              status in {TaskStatus.Leased, Running, Verifying} || (status in {Review, Failed} && AwaitsFinish(s, t)))
  {
    EmptyStateInv();
    assert Agree(EmptyState);
    OrderlyRunsAgree(EmptyState, steps);
    var s := Reached(steps);
    hide After;
    if t < |s.graph.tasks| { AgreementIsLeakFree(s, t); }
  }

  /** An unfinished run, past its process, still has its lease on the task. */
  ghost predicate AwaitsFinish(s: State, t: nat) {
    exists r :: 0 <= r < |s.runs| && s.runs[r].task == t && !s.runs[r].lease.released && s.runs[r].status == "verifying"
  }

  lemma AgreementIsLeakFree(s: State, t: nat)
    requires Inv(s) && Agree(s) && t < |s.graph.tasks|
    ensures
      var status := s.graph.tasks[t].status;
      && (status in {TaskStatus.Leased, Running, Verifying} ==> HoldsSomething(s, t))
      && (HoldsSomething(s, t) ==>
            status in {TaskStatus.Leased, Running, Verifying} || (status in {Review, Failed} && AwaitsFinish(s, t)))
  {
    assert StatusAgrees(s.graph.tasks[t].status, s.claims, s.runs, t);
    if Claimed(s.claims, t) { ClaimedHolds(s, t); }
    if Leasing(s.runs, t) { LeasingHolds(s, t); }
    if c :| 0 <= c < |s.claims| && HoldsFor(s, c, t) {
      assert ClaimFits(s.claims[c], |s.graph.tasks|, s.runs) && ClaimAgrees(s.claims[c], s.graph.tasks);
      if s.claims[c].run.Some? { assert RunAgrees(s.runs[s.claims[c].run.value], s.graph.tasks); }
    }
  }

  /** So a task at rest holds nothing, and its project is free for the next. */
  lemma NothingAtRestHolds(steps: seq<Step>, t: nat)
    requires AllDisciplined(steps) && OrderlyFromEmpty(steps)
    ensures
      var s := Reached(steps);
      t < |s.graph.tasks| && s.graph.tasks[t].status in {Draft, Ready, Paused, Blocked, Completed, Cancelled, Superseded} ==>
        !HoldsSomething(s, t)
  {
    OnlyWorkInHandHolds(steps, t);
  }

  /** Some claim for the task is active. */
  ghost predicate HoldsByClaim(s: State, t: nat) {
    exists c :: 0 <= c < |s.claims| && s.claims[c].task == t && s.claims[c].status == ClaimActive
  }

  /** Some run of the task has a lease that is neither released nor past. */
  ghost predicate HoldsByLease(s: State, t: nat, now: int) {
    exists r :: 0 <= r < |s.runs| && s.runs[r].task == t && !s.runs[r].lease.released && now <= s.runs[r].lease.expiresAt
  }

  /**
   A crash is recovered from: after an orderly run and a recovery, a task that still holds its project is claimed,
   or under a lease that has not run out, or has been judged and waits for its run to be finished.
   */
  lemma RecoveryFreesWhatCrashed(steps: seq<Step>, now: int, t: nat)
    requires AllDisciplined(steps) && OrderlyFromEmpty(steps)
    ensures
      var h := RecoverLeases(Reached(steps), now);
      HoldsSomething(h, t) ==>
        || HoldsByClaim(h, t) || HoldsByLease(h, t, now)
        || (t < |h.graph.tasks| && (h.graph.tasks[t].status == Review || h.graph.tasks[t].status == Failed))
  {
    EmptyStateInv();
    assert Agree(EmptyState);
    OrderlyRunsAgree(EmptyState, steps);
    var s := Reached(steps);
    hide After, Agree, Inv, HoldsSomething, HoldsByClaim, HoldsByLease, RecoverLeases;
    RecoveredHolders(s, now, t);
  }

  lemma RecoveredHolders(s: State, now: int, t: nat)
    requires Inv(s) && Agree(s)
    ensures
      var h := RecoverLeases(s, now);
      HoldsSomething(h, t) ==>
        || HoldsByClaim(h, t) || HoldsByLease(h, t, now)
        || (t < |h.graph.tasks| && (h.graph.tasks[t].status == Review || h.graph.tasks[t].status == Failed))
  {
    var h := RecoverLeases(s, now);
    RecoveryAgrees(s, now);
    RecoveryShape(s, now);
    hide RecoverLeases;
    if c :| 0 <= c < |h.claims| && HoldsFor(h, c, t) {
      assert ClaimFits(s.claims[c], |s.graph.tasks|, s.runs);
      if h.claims[c].status != ClaimActive {
        var r := h.claims[c].run.value;
        assert h.runs[r].task == t && RunAgrees(h.runs[r], h.graph.tasks);
        Effects.RecoveryLeavesNoneAbandoned(s, now, r);
      }
    }
  }

  lemma VerifiedTaskAgrees(tasks: seq<TaskGraph.Task>)
    requires |tasks| == 1 && tasks[0].status in {Verifying, Review}
    ensures Agreed(tasks, VerifyingTask.claims, VerifyingTask.runs)
  {
    assert "verifying"[0] != "running"[0];
    assert Leasing(VerifyingTask.runs, 0) by { assert VerifyingTask.runs[0].task == 0; }
  }

  lemma AcceptanceIsInOrder(status: string)
    requires Inv(ReviewedTask) && status != "running"
    ensures Orderly(ReviewedTask, FinishRunOp(0, status)) && !Orderly(ReviewedTask, CompleteReviewOp(0))
    ensures FinishRun(ReviewedTask, 0, status).Ok?
    ensures Orderly(FinishRun(ReviewedTask, 0, status).value, CompleteReviewOp(0))
  {
    assert HoldsFor(ReviewedTask, 0, 0);
    assert HoldsSomething(ReviewedTask, 0);
    hide Inv, HoldsSomething;
    FinishFreesTheProject(ReviewedTask, 0, status);
  }

  /**
   A verified task in order: judged while its lease stands, its run finished, and its review accepted once
   it holds nothing; accepting the review before the run is finished is out of order, and leaks.
   */
  lemma JudgedFinishedAccepted(status: string)
    requires status != "running"
    ensures Reachable(VerifyingTask) && Agree(VerifyingTask)
    ensures Orderly(VerifyingTask, TransitionTaskOp(0, Verifying, Review))
    ensures Reachable(ReviewedTask) && Agree(ReviewedTask) && !Orderly(ReviewedTask, CompleteReviewOp(0))
    ensures Orderly(ReviewedTask, FinishRunOp(0, status)) && FinishRun(ReviewedTask, 0, status).Ok?
    ensures Orderly(FinishRun(ReviewedTask, 0, status).value, CompleteReviewOp(0))
  {
    VerifyingTaskReached();
    ReviewedTaskReached();
    ReachableAgrees(ReviewedTask);
    hide Inv, Reachable, Agreed, HoldsSomething, FinishRun;
    JudgingIsInOrder();
    AcceptanceIsInOrder(status);
  }

  lemma JudgingIsInOrder()
    ensures Agree(VerifyingTask) && Agree(ReviewedTask)
    ensures Orderly(VerifyingTask, TransitionTaskOp(0, Verifying, Review))
  {
    hide HoldsSomething, Agreed;
    VerifiedTaskAgrees(VerifyingTask.graph.tasks);
    VerifiedTaskAgrees(ReviewedTask.graph.tasks);
  }
}
