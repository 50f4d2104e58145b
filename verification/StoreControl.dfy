/**
 Who leads and whether work may start: leadership passes on only when it has run out, and a pause holds until it
 is lifted.
 */
module StoreControl {
  import opened Prelude
  import opened Domain
  import opened Store
  import opened StoreInvariant
  import opened StoreSteps
  import opened StoreTheorems
  import opened StoreStatus
  import TaskGraph

  // --- Leadership ---

  /**
   Leadership is granted exactly to a registered instance when nobody leads, the instance itself does, or the
   leader has run out; a returning leader keeps its generation and a new one opens the next.
   */
  lemma LeadershipGrantedExactly(s: State, instance: string, ttl: nat, now: int)
    ensures AcquireLeader(s, instance, ttl, now).Ok? <==>
              && instance in s.instances
              && (s.leader.Some? ==> s.leader.value.instance == instance || s.leader.value.expiresAt <= now)
    ensures AcquireLeader(s, instance, ttl, now).Ok? ==>
              var h := AcquireLeader(s, instance, ttl, now).value;
              && h == s.(leader := h.leader) && h.leader.Some?
              && h.leader.value.instance == instance && h.leader.value.expiresAt == now + ttl
              && (s.leader.None? ==> h.leader.value.generation == 1)
              && (s.leader.Some? ==>
                    h.leader.value.generation
                    == s.leader.value.generation + (if s.leader.value.instance == instance then 0 else 1))
  {
  }

  /** While a leader's time has not run out, every other instance is refused. */
  lemma LiveLeaderIsNotDeposed(s: State, leader: string, generation: nat, other: string, ttl: nat, now: int)
    requires Leads(s.leader, leader, generation, now) && other != leader
    ensures AcquireLeader(s, other, ttl, now) == Err(if other in s.instances then LeaderHeld else InstanceMissing)
  {
  }

  /** How one transaction at a given time may change who leads: the leader renews or ends its time, or time ran out. */
  predicate LeaderMoves(before: Option<Leader>, after: Option<Leader>, op: Op, now: int) {
    match op
    case AcquireLeaderOp(instance, ttl) =>
      && after.Some? && after.value.instance == instance && after.value.expiresAt == now + ttl
      && (before.None? ==> after.value.generation == 1)
      && (before.Some? && before.value.instance == instance ==> after.value.generation == before.value.generation)
      && (before.Some? && before.value.instance != instance ==>
            before.value.expiresAt <= now && after.value.generation == before.value.generation + 1)
    case HeartbeatLeaderOp(instance, generation, ttl) =>
      && before.Some? && before.value.instance == instance && before.value.generation == generation
      && now < before.value.expiresAt && after == Some(before.value.(expiresAt := now + ttl))
    case StopInstanceOp(instance) =>
      if before.Some? && before.value.instance == instance then after == Some(before.value.(expiresAt := now))
      else after == before
    case _ => after == before
  }

  lemma StopMovesLeader(s: State, instance: string, now: int)
    requires StopInstance(s, instance, now).Ok?
    ensures LeaderMoves(s.leader, StopInstance(s, instance, now).value.leader, StopInstanceOp(instance), now)
    ensures StopInstance(s, instance, now).value.control == s.control
    ensures OtherTablesMove(s, StopInstance(s, instance, now).value, StopInstanceOp(instance))
  {
    var leader := if s.leader.Some? && s.leader.value.instance == instance
                  then Some(s.leader.value.(expiresAt := now)) else s.leader;
    var stopped := s.(instances := s.instances - {instance}, leader := leader);
    EndClaimsFrame(stopped, ClaimsOf(s.claims, instance), GracefulStop);
  }

  predicate KeepsControl(s: State, h: State) {
    && h.leader == s.leader && h.control == s.control
    && h.instances == s.instances && h.routes == s.routes && h.surfaces == s.surfaces
  }

  lemma SweepKeepsControl(s: State, now: int)
    ensures KeepsControl(s, ExpireClaims(s, now))
  {
    EndClaimsFrame(s, OverdueClaims(s.claims, now), Expiry);
  }

  lemma EmergencySetsControl(s: State, reason: string)
    requires EmergencyStop(s, reason).Ok?
    ensures KeepsControl(s.(control := Control(true, true)), EmergencyStop(s, reason).value) && NonBlank(reason)
  {
    var stopped := s.(control := Control(true, true), runs := CancelAtWork(s.runs, s.graph.tasks));
    EndClaimsFrame(stopped, ActiveClaims(s.claims), Emergency);
  }

  lemma {:induction false} RecoveryKeepsControl(s: State, rs: seq<nat>)
    requires forall k :: 0 <= k < |rs| ==> rs[k] < |s.runs| && s.runs[rs[k]].task < |s.graph.tasks|
    ensures KeepsControl(s, OrphanRuns(s, rs))
  {
    if rs != [] {
      RecoveryKeepsControl(s, rs[..|rs| - 1]);
    }
  }

  /** What a transaction makes of the operator's controls. */
  predicate ControlMoves(before: Control, after: Control, op: Op) {
    match op
    case SetPauseOp(paused, reason) =>
      && after == before.(pause := paused)
      && (paused ==> reason.Some? && NonBlank(reason.value)) && (before.emergency ==> paused)
    case ResumeOp(reason) => after == Control(false, false) && NonBlank(reason)
    case EmergencyStopOp(reason) => after == Control(true, true) && NonBlank(reason)
    case _ => after == before
  }

  /** What a transaction makes of the registered instances, the recorded routes and the quota surfaces. */
  predicate OtherTablesMove(s: State, h: State, op: Op) {
    && h.instances == (match op
                       case RegisterInstanceOp(instance, _) => s.instances + {instance}
                       case StopInstanceOp(instance) => s.instances - {instance}
                       case _ => s.instances)
    && h.routes == (if op.RecordRouteOp? then s.routes + [op.route] else s.routes)
    && (op.ObserveQuotaOp? || op.RefreshQuotaOp? || op.OverrideQuotaOp? || h.surfaces == s.surfaces)
  }

  lemma ClaimOpMoves(s: State, op: Op, now: int, h: State)
    requires TaskGraph.WellFormed(s.graph) && Apply(s, op, now) == Ok(h) && ChangesClaims(op)
    ensures LeaderMoves(s.leader, h.leader, op, now) && ControlMoves(s.control, h.control, op)
    ensures OtherTablesMove(s, h, op)
  {
    hide TaskGraph.WellFormed, StopInstance, ExpireClaims, CheckClaim;
    if op.StopInstanceOp? {
      StopMovesLeader(s, op.instance, now);
    } else {
      SweepKeepsControl(s, now);
    }
  }

  lemma BeginKeepsControl(s: State, c: nat, instance: string, generation: nat, runId: string, adapter: string,
                          ttl: nat, now: int)
    requires BeginClaimedRun(s, c, instance, generation, runId, adapter, ttl, now).Ok?
    ensures KeepsControl(s, BeginClaimedRun(s, c, instance, generation, runId, adapter, ttl, now).value)
  {
  }

  lemma OutcomeKeepsControl(s: State, r: nat, failure: Option<FailureCategory>)
    requires RecordOutcome(s, r, failure).Ok?
    ensures KeepsControl(s, RecordOutcome(s, r, failure).value)
  {
  }

  lemma RunOpMoves(s: State, op: Op, now: int, h: State)
    requires TaskGraph.WellFormed(s.graph) && Apply(s, op, now) == Ok(h) && ChangesRuns(op)
    ensures LeaderMoves(s.leader, h.leader, op, now) && ControlMoves(s.control, h.control, op)
    ensures OtherTablesMove(s, h, op)
  {
    hide TaskGraph.WellFormed, EmergencyStop, BeginClaimedRun, RecordOutcome, OrphanRuns;
    match op
    case EmergencyStopOp(reason) => EmergencySetsControl(s, reason);
    case BeginClaimedRunOp(c, i, g, runId, adapter, ttl) => BeginKeepsControl(s, c, i, g, runId, adapter, ttl, now);
    case RecordOutcomeOp(r, failure) => OutcomeKeepsControl(s, r, failure);
    case RecoverLeasesOp => RecoveryKeepsControl(s, OverdueRuns(s.runs, s.graph.tasks, now, |s.runs|));
  }

  lemma OtherOpMoves(s: State, op: Op, now: int, h: State)
    requires TaskGraph.WellFormed(s.graph) && Apply(s, op, now) == Ok(h) && !ChangesClaims(op) && !ChangesRuns(op)
    ensures LeaderMoves(s.leader, h.leader, op, now) && ControlMoves(s.control, h.control, op)
    ensures OtherTablesMove(s, h, op)
  {
  }

  /** Every transaction moves leadership, the controls and these tables in these ways only. */
  lemma StepMovesControl(s: State, op: Op, now: int, h: State)
    requires TaskGraph.WellFormed(s.graph) && Apply(s, op, now) == Ok(h)
    ensures LeaderMoves(s.leader, h.leader, op, now) && ControlMoves(s.control, h.control, op)
    ensures OtherTablesMove(s, h, op)
  {
    hide TaskGraph.WellFormed, Apply, LeaderMoves, ControlMoves, OtherTablesMove;
    if ChangesClaims(op) {
      ClaimOpMoves(s, op, now, h);
    } else if ChangesRuns(op) {
      RunOpMoves(s, op, now, h);
    } else {
      OtherOpMoves(s, op, now, h);
    }
  }

  lemma NextMovesControl(s: State, step: Step)
    requires Inv(s) && Disciplined(step.op)
    ensures Next(s, step) == s || Apply(s, step.op, step.now) == Ok(Next(s, step))
    ensures Next(s, step) == s
            || (LeaderMoves(s.leader, Next(s, step).leader, step.op, step.now)
                && ControlMoves(s.control, Next(s, step).control, step.op)
                && OtherTablesMove(s, Next(s, step), step.op))
  {
    assert TaskGraph.WellFormed(s.graph);
    hide Inv, Apply, TaskGraph.WellFormed, LeaderMoves, ControlMoves, OtherTablesMove;
    if Apply(s, step.op, step.now).Ok? { StepMovesControl(s, step.op, step.now, Next(s, step)); }
  }

  /**
   Whenever leadership changes hands in a run, the leader's time had run out: it is a registered instance acquiring
   at or after the expiry, for the next generation.
   */
  lemma LeadershipPassesAfterExpiry(s: State, steps: seq<Step>, k: nat)
    requires Inv(s) && AllDisciplined(steps) && k < |steps|
    ensures
      var before, after, step := After(s, steps[..k]).leader, After(s, steps[..k + 1]).leader, steps[k];
      before.Some? && (after.None? || after.value.instance != before.value.instance) ==>
        && before.value.expiresAt <= step.now
        && after.Some? && after.value.generation == before.value.generation + 1
        && step.op.AcquireLeaderOp? && step.op.instance == after.value.instance
  {
    hide Inv, Next, After;
    AfterOneMore(s, steps, k);
    LeaderHandsOver(After(s, steps[..k]), steps[k]);
  }

  lemma AfterOneMore(s: State, steps: seq<Step>, k: nat)
    requires Inv(s) && AllDisciplined(steps) && k < |steps|
    ensures After(s, steps[..k + 1]) == Next(After(s, steps[..k]), steps[k])
  {
    hide Inv, Next;
    assert steps[..k + 1][..k] == steps[..k];
  }

  lemma LeaderHandsOver(s: State, step: Step)
    requires Inv(s) && Disciplined(step.op)
    ensures
      var before, after := s.leader, Next(s, step).leader;
      before.Some? && (after.None? || after.value.instance != before.value.instance) ==>
        && before.value.expiresAt <= step.now
        && after.Some? && after.value.generation == before.value.generation + 1
        && step.op.AcquireLeaderOp? && step.op.instance == after.value.instance
  {
    hide Inv, Next;
    NextMovesControl(s, step);
  }

  predicate ActsAsLeader(op: Op, instance: string) {
    || (op.AcquireLeaderOp? && op.instance == instance)
    || (op.HeartbeatLeaderOp? && op.instance == instance)
    || (op.StopInstanceOp? && op.instance == instance)
  }

  /** The run only does what others than the instance do, and at times before an expiry. */
  ghost predicate OthersOnly(steps: seq<Step>, instance: string, expiresAt: int) {
    forall k :: 0 <= k < |steps| ==> !ActsAsLeader(steps[k].op, instance) && steps[k].now < expiresAt
  }

  /** Until a leader's time runs out nothing anybody else does changes its leadership. */
  lemma {:induction false} LiveLeaderIsUndisturbed(s: State, steps: seq<Step>)
    requires Inv(s) && AllDisciplined(steps) && s.leader.Some?
    requires OthersOnly(steps, s.leader.value.instance, s.leader.value.expiresAt)
    ensures After(s, steps).leader == s.leader
  {
    hide Inv, Next;
    if steps != [] {
      var front, last := steps[..|steps| - 1], steps[|steps| - 1];
      LiveLeaderIsUndisturbed(s, front);
      NextMovesControl(After(s, front), last);
    }
  }

  // --- Operator controls ---

  predicate Lifts(op: Op) {
    op.ResumeOp? || (op.SetPauseOp? && !op.paused)
  }

  ghost predicate NeverLifts(steps: seq<Step>) {
    forall k :: 0 <= k < |steps| ==> !Lifts(steps[k].op)
  }

  /** While work is paused it stays paused, and no claim is granted, until somebody lifts the pause. */
  lemma {:induction false} PauseHoldsUntilLifted(s: State, steps: seq<Step>, r: ClaimRequest, now: int)
    requires Inv(s) && AllDisciplined(steps) && NeverLifts(steps) && s.control.pause
    ensures After(s, steps).control.pause && ClaimTask(After(s, steps), r, now).Err?
  {
    hide Inv, Next, ClaimTask;
    if steps != [] {
      var front, last := steps[..|steps| - 1], steps[|steps| - 1];
      PauseHoldsUntilLifted(s, front, r, now);
      NextMovesControl(After(s, front), last);
    }
    PausedRefusesClaims(After(s, steps), r, now);
  }

  lemma PausedRefusesClaims(s: State, r: ClaimRequest, now: int)
    requires Inv(s) && s.control.pause
    ensures ClaimTask(s, r, now).Err?
  {
  }

  /** An instance registers with a name and a host, and stops only while it is registered. */
  lemma RegistrationExactly(s: State, instance: string, hostname: string, now: int)
    ensures RegisterInstance(s, instance, hostname).Ok? <==> NonBlank(instance) && NonBlank(hostname)
    ensures RegisterInstance(s, instance, hostname).Ok? ==>
              RegisterInstance(s, instance, hostname).value == s.(instances := s.instances + {instance})
    ensures StopInstance(s, instance, now).Ok? <==> instance in s.instances
  {
  }

  /** Work is paused with a reason; a pause is lifted without one, but not in an emergency; a resumption lifts both. */
  lemma ControlsMoveExactly(s: State, paused: bool, reason: Option<string>, why: string)
    ensures SetPause(s, paused, reason).Ok? <==>
              (paused ==> reason.Some? && NonBlank(reason.value)) && (s.control.emergency ==> paused)
    ensures SetPause(s, paused, reason).Ok? ==>
              SetPause(s, paused, reason).value == s.(control := Control(paused, s.control.emergency))
    ensures Resume(s, why).Ok? <==> NonBlank(why)
    ensures Resume(s, why).Ok? ==> Resume(s, why).value == s.(control := Control(false, false))
  {
  }
}
