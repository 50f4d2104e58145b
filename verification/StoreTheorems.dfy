/**
 Whole runs of the scheduler store: what every reachable state satisfies, and what no later step undoes.
 */
module StoreTheorems {
  import opened Prelude
  import opened Domain
  import opened Store
  import opened StoreInvariant
  import opened StoreSteps
  import TaskGraph
  import Api = ApiBudget
  import LedgerProofs = ApiLedgerProofs
  import LedgerTheorems = ApiLedgerTheorems

  // --- Runs ---

  datatype Step = Step(now: int, op: Op)

  ghost predicate AllDisciplined(steps: seq<Step>) {
    forall k :: 0 <= k < |steps| ==> Disciplined(steps[k].op)
  }

  /** A transaction that fails rolls back. */
  ghost function Next(s: State, step: Step): (h: State)
    requires Inv(s) && Disciplined(step.op)
    ensures Inv(h)
  {
    if Apply(s, step.op, step.now).Ok?
    then (StepKeepsInv(s, step.op, step.now); Apply(s, step.op, step.now).value)
    else s
  }

  ghost function After(s: State, steps: seq<Step>): (h: State)
    requires Inv(s) && AllDisciplined(steps)
    ensures Inv(h)
  {
    if steps == [] then s else Next(After(s, steps[..|steps| - 1]), steps[|steps| - 1])
  }

  /** The state a run reaches from the empty store; the tables agree in every such state. */
  ghost function Reached(steps: seq<Step>): (s: State)
    requires AllDisciplined(steps)
    ensures Inv(s)
  {
    EmptyStateInv();
    After(EmptyState, steps)
  }

  // --- What steps never undo ---

  /** Leadership only moves to newer generations; a generation never changes hands. */
  ghost predicate LeaderAdvances(a: Option<Leader>, b: Option<Leader>) {
    a.Some? ==>
      && b.Some? && a.value.generation <= b.value.generation
      && (a.value.generation == b.value.generation ==> a.value.instance == b.value.instance)
  }

  /** A claim keeps its maker and leaves Active once, for good. */
  ghost predicate ClaimAdvances(c: Claim, d: Claim) {
    && d == c.(status := d.status, expiresAt := d.expiresAt, run := d.run)
    && (c.status != ClaimActive ==> d.status == c.status && d.run == c.run)
  }

  ghost predicate LockAdvances(l: Lock, m: Lock) {
    m.resource == l.resource && m.claim == l.claim && (l.released ==> m.released)
  }

  /** A run keeps its identity, a released lease stays released, and a requested cancellation stands. */
  ghost predicate RunAdvances(r: Run, q: Run) {
    && q.id == r.id && q.task == r.task
    && q.lease.owner == r.lease.owner && q.lease.generation == r.lease.generation
    && (r.lease.released ==> q.lease.released)
    && (r.cancellation != NotRequested ==> q.cancellation != NotRequested)
  }

  ghost predicate ClaimsAdvance(a: seq<Claim>, b: seq<Claim>) {
    |a| <= |b| && forall c :: 0 <= c < |a| ==> ClaimAdvances(a[c], b[c])
  }

  ghost predicate LocksAdvance(a: seq<Lock>, b: seq<Lock>) {
    |a| <= |b| && forall l :: 0 <= l < |a| ==> LockAdvances(a[l], b[l])
  }

  ghost predicate RunsAdvance(a: seq<Run>, b: seq<Run>) {
    |a| <= |b| && forall r :: 0 <= r < |a| ==> RunAdvances(a[r], b[r])
  }

  ghost predicate Advances(s: State, h: State) {
    && LeaderAdvances(s.leader, h.leader)
    && ClaimsAdvance(s.claims, h.claims) && LocksAdvance(s.locks, h.locks) && RunsAdvance(s.runs, h.runs)
    && LedgerTheorems.MovesForward(s.api, h.api)
  }

  lemma AdvancesReflexive(s: State)
    ensures Advances(s, s)
  {
  }

  lemma RowsAdvanceTransitive(s: State, h: State, k: State)
    requires ClaimsAdvance(s.claims, h.claims) && LocksAdvance(s.locks, h.locks) && RunsAdvance(s.runs, h.runs)
    requires ClaimsAdvance(h.claims, k.claims) && LocksAdvance(h.locks, k.locks) && RunsAdvance(h.runs, k.runs)
    ensures ClaimsAdvance(s.claims, k.claims) && LocksAdvance(s.locks, k.locks) && RunsAdvance(s.runs, k.runs)
  {
    forall c | 0 <= c < |s.claims|
      ensures ClaimAdvances(s.claims[c], k.claims[c])
    {
      assert ClaimAdvances(s.claims[c], h.claims[c]) && ClaimAdvances(h.claims[c], k.claims[c]);
    }
    forall l | 0 <= l < |s.locks|
      ensures LockAdvances(s.locks[l], k.locks[l])
    {
      assert LockAdvances(s.locks[l], h.locks[l]) && LockAdvances(h.locks[l], k.locks[l]);
    }
    forall r | 0 <= r < |s.runs|
      ensures RunAdvances(s.runs[r], k.runs[r])
    {
      assert RunAdvances(s.runs[r], h.runs[r]) && RunAdvances(h.runs[r], k.runs[r]);
    }
  }

  lemma AdvancesTransitive(s: State, h: State, k: State)
    requires Advances(s, h) && Advances(h, k)
    ensures Advances(s, k)
  {
    RowsAdvanceTransitive(s, h, k);
    LedgerTheorems.MovesForwardTransitive(s.api, h.api, k.api);
  }

  // --- Every step advances ---

  lemma EndClaimAdvances(s: State, c: nat, ending: Ending)
    requires c < |s.claims| && s.claims[c].status == ClaimActive
    ensures Advances(s, EndClaim(s, c, ending))
  {
    LedgerProofs.SweepsAreRowwise(s.api, 0, {c}, {});
    LedgerTheorems.RowwiseMovesForward(s.api, Api.ReleaseForClaims(s.api, {c}));
  }

  lemma {:induction false} EndClaimsAdvance(s: State, cs: seq<nat>, ending: Ending)
    requires Endable(s, cs)
    ensures Advances(s, EndClaims(s, cs, ending))
  {
    if cs == [] {
      AdvancesReflexive(s);
    } else {
      var front, c := cs[..|cs| - 1], cs[|cs| - 1];
      EndClaimsAdvance(s, front, ending);
      EndClaimsExactly(s, front, ending);
      assert c !in front;
      EndClaimAdvances(EndClaims(s, front, ending), c, ending);
      AdvancesTransitive(s, EndClaims(s, front, ending), EndClaims(s, cs, ending));
    }
  }

  lemma SweepAdvances(s: State, now: int)
    ensures Advances(s, ExpireClaims(s, now))
  {
    SelectionIsEndable(s, (c: Claim) => c.status == ClaimActive && c.expiresAt <= now);
    EndClaimsAdvance(s, OverdueClaims(s.claims, now), Expiry);
  }

  lemma EndRunAdvances(s: State, r: nat)
    requires r < |s.runs|
    ensures Advances(s, EndRun(s, r))
  {
    LedgerProofs.SweepsAreRowwise(s.api, 0, {}, {r});
    LedgerTheorems.RowwiseMovesForward(s.api, Api.ReleaseForRuns(s.api, {r}));
  }

  lemma ReleaseReservationsAdvances(s: State, r: nat)
    ensures Advances(s, ReleaseRunReservations(s, r))
  {
    LedgerProofs.SweepsAreRowwise(s.api, 0, {}, {r});
    LedgerTheorems.RowwiseMovesForward(s.api, Api.ReleaseForRuns(s.api, {r}));
  }

  /** Only task and run statuses change, and cancellations are not withdrawn. */
  lemma StatusChangeAdvances(s: State, h: State)
    requires h == s.(graph := h.graph, runs := h.runs, control := h.control, quota := h.quota)
    requires RunsAdvance(s.runs, h.runs)
    ensures Advances(s, h)
  {
  }

  lemma StopInstanceAdvances(s: State, instance: string, now: int)
    requires StopInstance(s, instance, now).Ok?
    ensures Advances(s, StopInstance(s, instance, now).value)
  {
    var leader := if s.leader.Some? && s.leader.value.instance == instance
                  then Some(s.leader.value.(expiresAt := now)) else s.leader;
    var stopped := s.(instances := s.instances - {instance}, leader := leader);
    OtherTablesAdvance(s, stopped);
    hide Advances;
    SelectionIsEndable(stopped, (c: Claim) => c.status == ClaimActive && c.instance == instance);
    EndClaimsAdvance(stopped, ClaimsOf(stopped.claims, instance), GracefulStop);
    AdvancesTransitive(s, stopped, StopInstance(s, instance, now).value);
  }

  lemma EmergencyStopAdvances(s: State, reason: string)
    requires EmergencyStop(s, reason).Ok?
    ensures Advances(s, EmergencyStop(s, reason).value)
  {
    var stopped := s.(control := Control(true, true), runs := CancelAtWork(s.runs, s.graph.tasks));
    StatusChangeAdvances(s, stopped);
    ActiveClaimsEndable(stopped);
    EndClaimsAdvance(stopped, ActiveClaims(stopped.claims), Emergency);
    AdvancesTransitive(s, stopped, EmergencyStop(s, reason).value);
  }

  lemma ClaimApiAdvances(s: State, r: ClaimRequest, now: int)
    requires r.task < |s.graph.tasks| && ClaimApi(s, r, now).Ok?
    ensures LedgerTheorems.MovesForward(s.api, ClaimApi(s, r, now).value)
  {
    if r.reservation.Some? {
      var request := ApiRequest(s, r, now);
      var swept := Api.ExpireReservations(s.api, now);
      LedgerProofs.AdmissionShape(s.api, request, Some(|s.claims|));
      hide Api.ReserveTx;
      LedgerProofs.SweepsAreRowwise(s.api, now, {}, {});
      LedgerTheorems.RowwiseMovesForward(s.api, swept);
      assert LedgerTheorems.MovesForward(swept, ClaimApi(s, r, now).value);
      LedgerTheorems.MovesForwardTransitive(s.api, swept, ClaimApi(s, r, now).value);
    }
  }

  lemma AcquisitionAdvances(s: State, r: ClaimRequest, now: int)
    requires r.task < |s.graph.tasks| && AcquireForClaim(s, r, now).Ok?
    ensures Advances(s, AcquireForClaim(s, r, now).value)
  {
    ClaimLocksAdded(s, r, [Resource(PROJECT, s.graph.tasks[r.task].project)] + r.resources);
    ClaimApiAdvances(s, r, now);
  }

  lemma ClaimTaskAdvances(s: State, r: ClaimRequest, now: int)
    requires TaskGraph.WellFormed(s.graph) && ClaimTask(s, r, now).Ok?
    ensures Advances(s, ClaimTask(s, r, now).value)
  {
    hide Advances;
    SweepAdvances(s, now);
    AcquisitionAdvances(ExpireClaims(s, now), r, now);
    AdvancesTransitive(s, ExpireClaims(s, now), ClaimTask(s, r, now).value);
  }

  lemma RenewAdvances(s: State, instance: string, generation: nat, expiresAt: int)
    ensures Advances(s, Renew(s, instance, generation, expiresAt))
  {
    var renewed := RenewedSet(s.claims, instance, generation);
    LedgerProofs.SweepsAreRowwise(s.api, expiresAt, renewed, {});
    LedgerTheorems.RowwiseMovesForward(s.api, Api.ExtendForClaims(s.api, renewed, expiresAt));
  }

  lemma HeartbeatClaimsAdvances(s: State, instance: string, generation: nat, ttl: nat, now: int)
    requires HeartbeatClaims(s, instance, generation, ttl, now).Ok?
    ensures Advances(s, HeartbeatClaims(s, instance, generation, ttl, now).value)
  {
    hide Advances;
    SweepAdvances(s, now);
    RenewAdvances(ExpireClaims(s, now), instance, generation, now + ttl);
    AdvancesTransitive(s, ExpireClaims(s, now), HeartbeatClaims(s, instance, generation, ttl, now).value);
  }

  lemma ConsumeAdvances(s: State, c: nat, runId: string, expiresAt: int)
    requires ClaimTables(s) && c < |s.claims| && s.claims[c].status == ClaimActive
    requires s.claims[c].task < |s.graph.tasks|
    ensures Advances(s, Consume(s, c, runId, expiresAt))
  {
    var h := Consume(s, c, runId, expiresAt);
    assert ClaimFits(s.claims[c], |s.graph.tasks|, s.runs);
    forall i | 0 <= i < |s.api.reservations|
      ensures LedgerTheorems.NeverRevives(s.api.reservations[i], h.api.reservations[i])
    {
      assert ApiFits(s.api.reservations[i], s.claims, s.runs);
    }
  }

  lemma BeginAdvances(s: State, c: nat, instance: string, generation: nat, runId: string, adapter: string,
                      ttl: nat, now: int)
    requires Inv(s) && BeginClaimedRun(s, c, instance, generation, runId, adapter, ttl, now).Ok?
    ensures Advances(s, BeginClaimedRun(s, c, instance, generation, runId, adapter, ttl, now).value)
  {
    hide Advances;
    ConsumeAdvances(s, c, runId, now + ttl);
  }

  lemma RunOpAdvances(s: State, op: Op, now: int)
    requires TaskGraph.WellFormed(s.graph) && Apply(s, op, now).Ok?
    requires op.CheckpointOp? || op.RequestCancellationOp?
    ensures Advances(s, Apply(s, op, now).value)
  {
    StatusChangeAdvances(s, Apply(s, op, now).value);
  }

  lemma RecordOutcomeAdvances(s: State, r: nat, failure: Option<FailureCategory>)
    requires RecordOutcome(s, r, failure).Ok?
    ensures Advances(s, RecordOutcome(s, r, failure).value)
  {
    var outcome := OutcomeOf(failure, s.runs[r].requestedAction);
    var cancellation := if failure == Some(CancelledByRequest) then CancelCompleted else s.runs[r].cancellation;
    var recorded := s.(graph := TaskGraph.SetStatus(s.graph, s.runs[r].task, outcome.task),
                       runs := s.runs[r := s.runs[r].(status := outcome.run, cancellation := cancellation)]);
    StatusChangeAdvances(s, recorded);
    hide Advances;
    if failure.Some? { EndRunAdvances(recorded, r); } else { ReleaseReservationsAdvances(recorded, r); }
    AdvancesTransitive(s, recorded, RecordOutcome(s, r, failure).value);
  }

  lemma FinishRunAdvances(s: State, r: nat, status: string)
    requires FinishRun(s, r, status).Ok?
    ensures Advances(s, FinishRun(s, r, status).value)
  {
    var finished := s.(runs := s.runs[r := s.runs[r].(status := status)]);
    StatusChangeAdvances(s, finished);
    hide Advances;
    EndRunAdvances(finished, r);
    AdvancesTransitive(s, finished, FinishRun(s, r, status).value);
  }

  lemma {:induction false} OrphansAdvance(s: State, rs: seq<nat>)
    requires forall k :: 0 <= k < |rs| ==> rs[k] < |s.runs| && s.runs[rs[k]].task < |s.graph.tasks|
    ensures Advances(s, OrphanRuns(s, rs))
  {
    if rs == [] {
      AdvancesReflexive(s);
    } else {
      var front, r := OrphanRuns(s, rs[..|rs| - 1]), rs[|rs| - 1];
      OrphansAdvance(s, rs[..|rs| - 1]);
      var orphaned := front.(graph := TaskGraph.SetStatus(front.graph, front.runs[r].task, Paused),
                             runs := front.runs[r := front.runs[r].(status := "orphaned")]);
      StatusChangeAdvances(front, orphaned);
      hide Advances;
      EndRunAdvances(orphaned, r);
      AdvancesTransitive(s, front, orphaned);
      AdvancesTransitive(s, orphaned, OrphanRuns(s, rs));
    }
  }

  lemma LedgerOpAdvances(s: State, op: Api.LedgerOp, now: int)
    requires ApplyLedger(s, op, now).Ok?
    ensures Advances(s, ApplyLedger(s, op, now).value)
  {
    LedgerTheorems.ApplyMovesForward(s.api, ResolveTask(s, op), now);
  }

  lemma TaskOpAdvances(s: State, g: TaskGraph.Graph)
    ensures Advances(s, s.(graph := g))
  {
  }

  lemma LeaderChangeAdvances(s: State, instance: string, ttl: nat, now: int)
    requires AcquireLeader(s, instance, ttl, now).Ok?
    ensures Advances(s, AcquireLeader(s, instance, ttl, now).value)
  {
  }

  lemma OtherTablesAdvance(s: State, h: State)
    requires h == s.(control := h.control, instances := h.instances, leader := h.leader, routes := h.routes,
                     surfaces := h.surfaces)
    requires LeaderAdvances(s.leader, h.leader)
    ensures Advances(s, h)
  {
  }

  lemma OtherOpAdvances(s: State, op: Op, now: int)
    requires TaskGraph.WellFormed(s.graph) && Apply(s, op, now).Ok?
    requires op.AcquireLeaderOp? || op.HeartbeatLeaderOp? || op.RegisterInstanceOp? || op.SetPauseOp? || op.ResumeOp?
             || op.RecordRouteOp? || op.ObserveQuotaOp? || op.RefreshQuotaOp? || op.OverrideQuotaOp?
             || op.AddTaskOp? || op.SetRoutePinOp? || op.AddDependencyOp? || op.CompleteReviewOp? || op.TransitionTaskOp?
    ensures Advances(s, Apply(s, op, now).value)
  {
    hide Advances;
    var h := Apply(s, op, now).value;
    if op.AcquireLeaderOp? {
      LeaderChangeAdvances(s, op.instance, op.ttl, now);
    } else if op.AddTaskOp? || op.SetRoutePinOp? || op.AddDependencyOp? || op.CompleteReviewOp? || op.TransitionTaskOp? {
      TaskOpAdvances(s, h.graph);
    } else {
      OtherTablesAdvance(s, h);
    }
  }

  lemma StepAdvances(s: State, op: Op, now: int)
    requires Inv(s) && Apply(s, op, now).Ok?
    ensures Advances(s, Apply(s, op, now).value)
  {
    assert TaskGraph.WellFormed(s.graph);
    hide Advances, Inv, AcquireLeader, StopInstance, EmergencyStop, ClaimTask, HeartbeatClaims, BeginClaimedRun,
      ExpireClaims, RecordOutcome, FinishRun, ApplyLedger;
    match op
    case StopInstanceOp(i) => StopInstanceAdvances(s, i, now);
    case EmergencyStopOp(reason) => EmergencyStopAdvances(s, reason);
    case ClaimTaskOp(r) => ClaimTaskAdvances(s, r, now);
    case HeartbeatClaimsOp(i, g, ttl) => HeartbeatClaimsAdvances(s, i, g, ttl, now);
    case BeginClaimedRunOp(c, i, g, runId, adapter, ttl) => BeginAdvances(s, c, i, g, runId, adapter, ttl, now);
    case RecoverClaimsOp => SweepAdvances(s, now);
    case CheckpointOp(_, _, _, _, _) => RunOpAdvances(s, op, now);
    case RequestCancellationOp(_) => RunOpAdvances(s, op, now);
    case RecordOutcomeOp(r, failure) => RecordOutcomeAdvances(s, r, failure);
    case FinishRunOp(r, status) => FinishRunAdvances(s, r, status);
    case RecoverLeasesOp => OrphansAdvance(s, OverdueRuns(s.runs, s.graph.tasks, now, |s.runs|));
    case LedgerOp(op) => LedgerOpAdvances(s, op, now);
    case _ => OtherOpAdvances(s, op, now);
  }

  lemma {:induction false} RunAdvancesAll(s: State, steps: seq<Step>)
    requires Inv(s) && AllDisciplined(steps)
    ensures Advances(s, After(s, steps))
  {
    hide Advances;
    if steps == [] {
      AdvancesReflexive(s);
    } else {
      var before, last := After(s, steps[..|steps| - 1]), steps[|steps| - 1];
      RunAdvancesAll(s, steps[..|steps| - 1]);
      if Apply(before, last.op, last.now).Ok? {
        StepAdvances(before, last.op, last.now);
        AdvancesTransitive(s, before, After(s, steps));
      }
    }
  }

  // --- Leader fencing ---

  datatype Credentials = Credentials(instance: string, generation: nat)

  /** What a scheduler transaction says about who is asking. */
  function CredentialsOf(op: Op): Option<Credentials> {
    match op
    case HeartbeatLeaderOp(i, g, _) => Some(Credentials(i, g))
    case ClaimTaskOp(r) => Some(Credentials(r.instance, r.generation))
    case HeartbeatClaimsOp(i, g, _) => Some(Credentials(i, g))
    case BeginClaimedRunOp(_, i, g, _, _, _) => Some(Credentials(i, g))
    case _ => None
  }

  /** A leadership generation belongs to one instance for ever. */
  lemma GenerationHasOneOwner(s: State, steps: seq<Step>)
    requires Inv(s) && AllDisciplined(steps)
    requires s.leader.Some? && After(s, steps).leader.Some?
    ensures s.leader.value.generation <= After(s, steps).leader.value.generation
    ensures s.leader.value.generation == After(s, steps).leader.value.generation ==>
              s.leader.value.instance == After(s, steps).leader.value.instance
  {
    RunAdvancesAll(s, steps);
  }

  /**
   Once a generation has been granted, no claim, claim heartbeat, leader heartbeat or run start under
   an older generation succeeds, nor one under that generation by anyone but its owner.
   */
  lemma OlderGenerationsAreFenced(s: State, steps: seq<Step>, op: Op, now: int)
    requires Inv(s) && AllDisciplined(steps) && s.leader.Some? && CredentialsOf(op).Some?
    requires
      var asking := CredentialsOf(op).value;
      || asking.generation < s.leader.value.generation
      || (asking.generation == s.leader.value.generation && asking.instance != s.leader.value.instance)
    ensures Apply(After(s, steps), op, now).Err?
  {
    RunAdvancesAll(s, steps);
  }

  /** A claim is consumed only by the instance and generation that made it, while it is in force. */
  lemma ClaimIsConsumedByItsMaker(s: State, c: nat, instance: string, generation: nat, runId: string, adapter: string,
                                  ttl: nat, now: int)
    requires Inv(s) && BeginClaimedRun(s, c, instance, generation, runId, adapter, ttl, now).Ok?
    ensures
      var h := BeginClaimedRun(s, c, instance, generation, runId, adapter, ttl, now).value;
      && s.leader == Some(Leader(instance, generation, s.leader.value.expiresAt))
      && s.claims[c].instance == instance && s.claims[c].generation == generation
      && s.claims[c].status == ClaimActive && now < s.claims[c].expiresAt
      && h.claims[c].status == ClaimConsumed && h.claims[c].run == Some(|s.runs|)
      && h.runs[|s.runs|].lease == Lease(instance, generation, now + ttl, false)
      && TaskGraph.DependenciesCompleted(s.graph, s.claims[c].task)
  {
  }

  /** Once a claim has ended or been consumed, it is never consumed again and its run never changes. */
  lemma ClaimIsConsumedAtMostOnce(s: State, steps: seq<Step>, c: nat, op: Op, now: int)
    requires Inv(s) && AllDisciplined(steps) && c < |s.claims| && s.claims[c].status != ClaimActive
    requires op.BeginClaimedRunOp? && op.claim == c
    ensures Apply(After(s, steps), op, now).Err?
    ensures c < |After(s, steps).claims| && After(s, steps).claims[c].run == s.claims[c].run
  {
    RunAdvancesAll(s, steps);
    assert ClaimAdvances(s.claims[c], After(s, steps).claims[c]);
  }

  /** A claim made under an older generation is never consumed by anyone. */
  lemma StaleClaimIsNeverConsumed(s: State, steps: seq<Step>, c: nat, op: Op, now: int)
    requires Inv(s) && AllDisciplined(steps) && c < |s.claims|
    requires s.leader.Some? && s.claims[c].generation < s.leader.value.generation
    requires op.BeginClaimedRunOp? && op.claim == c
    ensures Apply(After(s, steps), op, now).Err?
  {
    RunAdvancesAll(s, steps);
    assert ClaimAdvances(s.claims[c], After(s, steps).claims[c]);
  }

  // --- Emergency stop ---

  ghost predicate NeverResumes(steps: seq<Step>) {
    forall k :: 0 <= k < |steps| ==> !steps[k].op.ResumeOp?
  }

  /** No claim, lock or run is added, and an emergency is not lifted. */
  ghost predicate KeepsRows(s: State, h: State) {
    && |h.claims| == |s.claims| && |h.locks| == |s.locks| && |h.runs| == |s.runs|
    && (s.control.emergency ==> h.control.emergency)
  }

  lemma {:induction false} OrphansKeepRows(s: State, rs: seq<nat>)
    requires forall k :: 0 <= k < |rs| ==> rs[k] < |s.runs| && s.runs[rs[k]].task < |s.graph.tasks|
    ensures KeepsRows(s, OrphanRuns(s, rs))
  {
    if rs != [] {
      OrphansKeepRows(s, rs[..|rs| - 1]);
    }
  }

  lemma RecoveryKeepsRows(s: State, now: int)
    ensures KeepsRows(s, RecoverLeases(s, now))
  {
    OrphansKeepRows(s, OverdueRuns(s.runs, s.graph.tasks, now, |s.runs|));
  }

  lemma SweepKeepsRows(s: State, now: int)
    ensures KeepsRows(s, ExpireClaims(s, now))
  {
    EndClaimsFrame(s, OverdueClaims(s.claims, now), Expiry);
  }

  lemma StopKeepsRows(s: State, instance: string, now: int)
    requires StopInstance(s, instance, now).Ok?
    ensures KeepsRows(s, StopInstance(s, instance, now).value)
  {
    var leader := if s.leader.Some? && s.leader.value.instance == instance
                  then Some(s.leader.value.(expiresAt := now)) else s.leader;
    var stopped := s.(instances := s.instances - {instance}, leader := leader);
    EndClaimsFrame(stopped, ClaimsOf(s.claims, instance), GracefulStop);
  }

  lemma EmergencyKeepsRows(s: State, reason: string)
    requires EmergencyStop(s, reason).Ok?
    ensures KeepsRows(s, EmergencyStop(s, reason).value)
  {
    var stopped := s.(control := Control(true, true), runs := CancelAtWork(s.runs, s.graph.tasks));
    EndClaimsFrame(stopped, ActiveClaims(s.claims), Emergency);
  }

  lemma HeartbeatKeepsRows(s: State, instance: string, generation: nat, ttl: nat, now: int)
    requires HeartbeatClaims(s, instance, generation, ttl, now).Ok?
    ensures KeepsRows(s, HeartbeatClaims(s, instance, generation, ttl, now).value)
  {
    SweepKeepsRows(s, now);
  }

  lemma OutcomeKeepsRows(s: State, r: nat, failure: Option<FailureCategory>)
    requires RecordOutcome(s, r, failure).Ok?
    ensures KeepsRows(s, RecordOutcome(s, r, failure).value)
  {
  }

  lemma FinishKeepsRows(s: State, r: nat, status: string)
    requires FinishRun(s, r, status).Ok?
    ensures KeepsRows(s, FinishRun(s, r, status).value)
  {
  }

  /** Only claims add claims and locks, only run starts add runs, and only a resumption lifts an emergency. */
  lemma StepKeepsRows(s: State, op: Op, now: int)
    requires TaskGraph.WellFormed(s.graph) && Apply(s, op, now).Ok?
    requires !op.ClaimTaskOp? && !op.BeginClaimedRunOp? && !op.ResumeOp?
    ensures KeepsRows(s, Apply(s, op, now).value)
  {
    if op.StopInstanceOp? {
      StopKeepsRows(s, op.instance, now);
    } else if op.EmergencyStopOp? {
      EmergencyKeepsRows(s, op.reason);
    } else if op.HeartbeatClaimsOp? {
      HeartbeatKeepsRows(s, op.instance, op.generation, op.ttl, now);
    } else if op.RecoverClaimsOp? {
      SweepKeepsRows(s, now);
    } else if op.RecoverLeasesOp? {
      RecoveryKeepsRows(s, now);
    } else if op.RecordOutcomeOp? {
      OutcomeKeepsRows(s, op.run, op.failure);
    } else if op.FinishRunOp? {
      FinishKeepsRows(s, op.run, op.status);
    }
  }

  lemma StepKeepsEmergency(s: State, op: Op, now: int)
    requires TaskGraph.WellFormed(s.graph) && EmergencyFits(s.control, s.claims) && s.control.emergency
    requires Apply(s, op, now).Ok? && !op.ResumeOp?
    ensures KeepsRows(s, Apply(s, op, now).value)
  {
    assert !op.ClaimTaskOp? && !op.BeginClaimedRunOp?;
    StepKeepsRows(s, op, now);
  }

  /** Until operations are resumed an emergency stays in force, and no claim is active and no run begins. */
  lemma {:induction false} EmergencyHoldsUntilResume(s: State, steps: seq<Step>)
    requires Inv(s) && AllDisciplined(steps) && NeverResumes(steps) && s.control.emergency
    ensures
      var h := After(s, steps);
      && h.control.emergency && |h.runs| == |s.runs|
      && forall c :: 0 <= c < |h.claims| ==> h.claims[c].status != ClaimActive
  {
    assert EmergencyFits(After(s, steps).control, After(s, steps).claims);
    if steps != [] {
      var front, last := steps[..|steps| - 1], steps[|steps| - 1];
      EmergencyHoldsUntilResume(s, front);
      if Apply(After(s, front), last.op, last.now).Ok? {
        StepKeepsEmergency(After(s, front), last.op, last.now);
      }
    }
  }

  /**
   After an emergency stop, whatever happens until operations are resumed: no claim is active, no run
   begins, and every run that was at work has had its cancellation requested or completed.
   */
  lemma EmergencyStopHolds(s: State, reason: string, now: int, steps: seq<Step>)
    requires NonBlank(reason) && Inv(s) && AllDisciplined(steps) && NeverResumes(steps)
    ensures
      var h := After(Next(s, Step(now, EmergencyStopOp(reason))), steps);
      && h.control.emergency && |h.runs| == |s.runs|
      && (forall c :: 0 <= c < |h.claims| ==> h.claims[c].status != ClaimActive)
      && (forall r :: 0 <= r < |s.runs| && AtWork(s.runs[r], s.graph.tasks) ==> h.runs[r].cancellation != NotRequested)
  {
    hide Inv;
    var g := Next(s, Step(now, EmergencyStopOp(reason)));
    StopSetsControl(s, reason, now);
    EmergencyHoldsUntilResume(g, steps);
    forall r | 0 <= r < |s.runs| && AtWork(s.runs[r], s.graph.tasks)
      ensures After(g, steps).runs[r].cancellation != NotRequested
    {
      CancellationStands(g, steps, r);
    }
  }

  lemma StopSetsControl(s: State, reason: string, now: int)
    requires Inv(s) && NonBlank(reason)
    ensures
      var g := Next(s, Step(now, EmergencyStopOp(reason)));
      && g.control.emergency && |g.runs| == |s.runs|
      && forall r :: 0 <= r < |s.runs| && AtWork(s.runs[r], s.graph.tasks) ==> g.runs[r].cancellation != NotRequested
  {
    hide Inv;
    var stopped := s.(control := Control(true, true), runs := CancelAtWork(s.runs, s.graph.tasks));
    EndClaimsFrame(stopped, ActiveClaims(s.claims), Emergency);
    assert Next(s, Step(now, EmergencyStopOp(reason))) == EmergencyStop(s, reason).value;
  }

  /** A requested or completed cancellation is never withdrawn. */
  lemma CancellationStands(s: State, steps: seq<Step>, r: nat)
    requires Inv(s) && AllDisciplined(steps) && r < |s.runs| && s.runs[r].cancellation != NotRequested
    ensures r < |After(s, steps).runs| && After(s, steps).runs[r].cancellation != NotRequested
  {
    RunAdvancesAll(s, steps);
    assert RunAdvances(s.runs[r], After(s, steps).runs[r]);
  }

  // --- Locks ---

  /** Two claims in force never hold the same resource. */
  lemma ResourcesAreExclusive(s: State, i: nat, j: nat)
    requires Inv(s) && i < |s.locks| && j < |s.locks| && s.locks[i].resource == s.locks[j].resource
    requires InForce(s.claims[s.locks[i].claim], s.runs) && InForce(s.claims[s.locks[j].claim], s.runs)
    ensures i == j
  {
  }

  /** A project has at most one claim in force: at most one of its tasks is claimed or under lease. */
  lemma OneClaimInForcePerProject(s: State, c: nat, d: nat)
    requires Inv(s) && c < |s.claims| && d < |s.claims|
    requires InForce(s.claims[c], s.runs) && InForce(s.claims[d], s.runs)
    requires s.graph.tasks[s.claims[c].task].project == s.graph.tasks[s.claims[d].task].project
    ensures c == d
  {
    var r := Resource(PROJECT, s.graph.tasks[s.claims[c].task].project);
    assert HoldsLock(s.locks, c, r) && HoldsLock(s.locks, d, r);
    var i :| 0 <= i < |s.locks| && s.locks[i].claim == c && s.locks[i].resource == r;
    var j :| 0 <= j < |s.locks| && s.locks[j].claim == d && s.locks[j].resource == r;
    ResourcesAreExclusive(s, i, j);
  }

  /**
   The life of a lock: live while its claim is active, released once the claim is released or expired,
   and once the claim is consumed live exactly while its run's lease is unreleased.
   */
  lemma LockLifecycle(s: State, l: nat)
    requires Inv(s) && l < |s.locks|
    ensures
      var lock := s.locks[l];
      && lock.claim < |s.claims|
      && match s.claims[lock.claim].status
         case ClaimActive => !lock.released
         case ClaimReleased => lock.released
         case ClaimExpired => lock.released
         case ClaimConsumed =>
           var run := s.claims[lock.claim].run;
           run.Some? && run.value < |s.runs| && lock.released == s.runs[run.value].lease.released
  {
    assert ClaimFits(s.claims[s.locks[l].claim], |s.graph.tasks|, s.runs);
  }

  // --- Work ---

  /** In every reachable state no Draft waits for nothing and nothing in progress waits for anything. */
  lemma NoStrandedOrPrematureWork(steps: seq<Step>, t: nat)
    requires AllDisciplined(steps)
    ensures
      var g := Reached(steps).graph;
      t < |g.tasks| ==>
        && (g.tasks[t].status == Draft ==> exists d :: d in g.deps && d.task == t && g.tasks[d.on].status != Completed)
        && (g.tasks[t].status.InProgress() ==> forall d :: d in g.deps && d.task == t ==> g.tasks[d.on].status == Completed)
  {
    var g := Reached(steps).graph;
    if t < |g.tasks| && g.tasks[t].status == Draft {
      assert !TaskGraph.DependenciesCompleted(g, t);
    }
  }

  // --- The paid-API ledger inside the store ---

  /**
   An API reservation that belongs to a claim leaves Active, by a dispatch or by its first attempt, only
   for the claim's own run and while that run's lease is unreleased.
   */
  lemma ClaimBoundDispatchHasALease(s: State, i: nat, now: int)
    requires Inv(s) && i < |s.api.reservations| && s.api.reservations[i].claim.Some?
    requires
      || Api.ClaimDispatch(s.api, i, now).Ok?
      || (Api.BeginAttempt(s.api, i, now).Ok? && s.api.reservations[i].status == Api.Active)
    ensures
      var c := s.api.reservations[i].claim.value;
      c < |s.claims| && s.claims[c].status == ClaimConsumed && s.claims[c].run == s.api.reservations[i].run
      && UnderLease(s.claims[c], s.runs)
  {
    assert ApiFits(s.api.reservations[i], s.claims, s.runs);
    var c := s.api.reservations[i].claim.value;
    assert ClaimFits(s.claims[c], |s.graph.tasks|, s.runs);
  }

  /** Every attempt for a claim, retries included, belongs to the claim's own run. */
  lemma ClaimBoundAttemptHasARun(s: State, i: nat, now: int)
    requires Inv(s) && Api.BeginAttempt(s.api, i, now).Ok? && s.api.reservations[i].claim.Some?
    ensures
      var r := s.api.reservations[i];
      var c := r.claim.value;
      && c < |s.claims| && s.claims[c].status == ClaimConsumed && s.claims[c].run == r.run
      && r.run.Some? && r.run.value < |s.runs|
  {
    assert ApiFits(s.api.reservations[i], s.claims, s.runs);
    assert LedgerProofs.RunBeforeDispatch(s.api.reservations);
    var c := s.api.reservations[i].claim.value;
    assert ClaimFits(s.claims[c], |s.graph.tasks|, s.runs);
  }

  lemma FinishKeepsDispatched(l: Api.Ledger, r: nat, i: nat)
    requires i < |l.reservations| && l.reservations[i].status == Api.Dispatched
    ensures
      var h := Api.ReleaseForRuns(l, {r});
      |h.reservations| == |l.reservations| && h.reservations[i] == l.reservations[i] && h.attempts == l.attempts
  {
  }

  /** What a retry needs is untouched by the end of its run: the next attempt is still admitted, under no lease. */
  lemma RetryOutlivesTheLease(s: State, i: nat, status: string, now: int)
    requires Inv(s) && Api.BeginAttempt(s.api, i, now).Ok?
    requires s.api.reservations[i].claim.Some? && s.api.reservations[i].status == Api.Dispatched
    ensures
      var r := s.api.reservations[i];
      && r.run.Some? && FinishRun(s, r.run.value, status).Ok?
      && var h := FinishRun(s, r.run.value, status).value;
         && Api.BeginAttempt(h.api, i, now).Ok?
         && r.claim.value < |h.claims| && !UnderLease(h.claims[r.claim.value], h.runs)
  {
    ClaimBoundAttemptHasARun(s, i, now);
    FinishKeepsDispatched(s.api, s.api.reservations[i].run.value, i);
    hide Inv, Api.ReleaseForRuns;
  }

  /** Over any run of the store, a project reserves a request digest at most once. */
  lemma DigestIsReservedOnceEver(s: State, steps: seq<Step>, i: nat, r: Api.Request, claim: Option<nat>)
    requires Inv(s) && AllDisciplined(steps) && i < |s.api.reservations|
    requires r.project == s.api.reservations[i].project && r.digest == s.api.reservations[i].digest
    ensures Api.ReserveTx(After(s, steps).api, r, claim).Err?
  {
    RunAdvancesAll(s, steps);
    LedgerTheorems.DigestIsReservedOnce(s.api, i, After(s, steps).api, r, claim);
  }

  /** Over any run of the store, no budget revision ever commits more than its limits. */
  lemma CeilingsHoldInEveryRun(steps: seq<Step>, b: nat, m: Api.Measure)
    requires AllDisciplined(steps)
    ensures
      var l := Reached(steps).api;
      b < |l.budgets| && Api.Limit(l.budgets[b], m).Some? ==>
        Api.Spent(l, b, m) + Api.Reserved(l, b, m) <= Api.Limit(l.budgets[b], m).value
  {
    var l := Reached(steps).api;
    if b < |l.budgets| { assert LedgerProofs.WithinCeiling(l, b, m); }
  }
}
