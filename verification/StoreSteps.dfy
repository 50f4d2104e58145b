/**
 Every transaction keeps the invariant of the scheduler's tables.
 */
module StoreSteps {
  import opened Prelude
  import opened Domain
  import opened Store
  import opened StoreInvariant
  import TaskGraph
  import Api = ApiBudget
  import LedgerProofs = ApiLedgerProofs
  import LedgerTheorems = ApiLedgerTheorems

  /**
   Bare transitions that bypass the scheduler: leasing without a claim, and completing without
   promoting. Every other transaction may occur in a run.
   */
  predicate Disciplined(op: Op) {
    op.TransitionTaskOp? ==>
      && !(op.expected == Ready && op.next == TaskStatus.Leased)
      && !(op.expected == Review && op.next == Completed)
  }

  // --- Ending claims ---

  lemma SelectionIsEndable(s: State, test: Claim -> bool)
    requires forall c: Claim :: test(c) ==> c.status == ClaimActive
    ensures Endable(s, SelectClaims(s.claims, test, |s.claims|))
  {
  }

  lemma SweepKeepsInv(s: State, now: int)
    requires Inv(s)
    ensures Inv(ExpireClaims(s, now))
  {
    SelectionIsEndable(s, (c: Claim) => c.status == ClaimActive && c.expiresAt <= now);
    var cs := OverdueClaims(s.claims, now);
    assert Endable(s, cs);
    EndClaimsKeepsInv(s, cs, Expiry);
    EndClaimsExactly(s, cs, Expiry);
    EndClaimsFrame(s, cs, Expiry);
  }

  /** The sweep expires exactly the active claims that are overdue. */
  lemma SweepExpiresExactly(s: State, now: int)
    ensures forall c: nat :: c < |s.claims| ==>
              ExpireClaims(s, now).claims[c] ==
              if s.claims[c].status == ClaimActive && s.claims[c].expiresAt <= now
              then s.claims[c].(status := ClaimExpired) else s.claims[c]
  {
    SelectionIsEndable(s, (c: Claim) => c.status == ClaimActive && c.expiresAt <= now);
    EndClaimsExactly(s, OverdueClaims(s.claims, now), Expiry);
  }

  lemma StopInstanceKeepsInv(s: State, instance: string, now: int)
    requires Inv(s) && StopInstance(s, instance, now).Ok?
    ensures Inv(StopInstance(s, instance, now).value)
  {
    var leader := if s.leader.Some? && s.leader.value.instance == instance
                  then Some(s.leader.value.(expiresAt := now)) else s.leader;
    var stopped := s.(instances := s.instances - {instance}, leader := leader);
    assert ClaimTables(stopped) && LeaderFits(stopped.leader, stopped.claims);
    SelectionIsEndable(stopped, (c: Claim) => c.status == ClaimActive && c.instance == instance);
    var cs := ClaimsOf(stopped.claims, instance);
    assert Endable(stopped, cs);
    EndClaimsKeepsInv(stopped, cs, GracefulStop);
    EndClaimsExactly(stopped, cs, GracefulStop);
    EndClaimsFrame(stopped, cs, GracefulStop);
  }

  lemma CancelKeepsInv(s: State)
    requires Inv(s)
    ensures
      var stopped := s.(control := Control(true, true), runs := CancelAtWork(s.runs, s.graph.tasks));
      && TaskGraph.Inv(stopped.graph) && LedgerProofs.Inv(stopped.api) && ClaimTables(stopped)
      && LeaderFits(stopped.leader, stopped.claims)
  {
    var stopped := s.(control := Control(true, true), runs := CancelAtWork(s.runs, s.graph.tasks));
    StatusChangeKeepsTables(s, stopped);
  }

  lemma ActiveClaimsEndable(s: State)
    ensures Endable(s, ActiveClaims(s.claims))
    ensures forall c: nat :: c < |s.claims| && s.claims[c].status == ClaimActive ==> c in ActiveClaims(s.claims)
  {
    SelectionIsEndable(s, (c: Claim) => c.status == ClaimActive);
  }

  lemma NothingActiveAfterEnding(s: State, ending: Ending)
    ensures forall c :: 0 <= c < |s.claims| ==> EndClaims(s, ActiveClaims(s.claims), ending).claims[c].status != ClaimActive
  {
    ActiveClaimsEndable(s);
    EndClaimsExactly(s, ActiveClaims(s.claims), ending);
  }

  lemma EmergencyStopKeepsInv(s: State, reason: string)
    requires Inv(s) && EmergencyStop(s, reason).Ok?
    ensures Inv(EmergencyStop(s, reason).value)
  {
    var stopped := s.(control := Control(true, true), runs := CancelAtWork(s.runs, s.graph.tasks));
    CancelKeepsInv(s);
    ActiveClaimsEndable(stopped);
    var cs := ActiveClaims(stopped.claims);
    EndClaimsKeepsInv(stopped, cs, Emergency);
    NothingActiveAfterEnding(stopped, Emergency);
    EndClaimsFrame(stopped, cs, Emergency);
  }

  // --- Claiming ---

  lemma QuotaAddedByClaim(s: State, r: ClaimRequest, now: int)
    requires ClaimQuota(s, r, now).Ok? && (r.limits.Some? ==> ValidPercentage(r.limits.value.forecast))
    ensures
      var h := ClaimQuota(s, r, now).value;
      && |s.quota| <= |h|
      && (forall i :: 0 <= i < |s.quota| ==> h[i] == s.quota[i] || h[i] == s.quota[i].(status := QuotaExpired))
      && (forall i :: |s.quota| <= i < |h| ==> QuotaRowOf(h[i], NewClaim(r, now), |s.claims|))
  {
    if WantsQuota(r) {
      ReserveSurfacesAdds(ExpireQuota(s.quota, now), s.surfaces, ForecastOf(s, r, now), |s.surfaces|, now);
    }
  }

  lemma ApiAddedByClaim(s: State, r: ClaimRequest, now: int)
    requires r.task < |s.graph.tasks| && ClaimApi(s, r, now).Ok?
    ensures
      var h := ClaimApi(s, r, now).value;
      && |s.api.reservations| <= |h.reservations|
      && (forall i :: 0 <= i < |s.api.reservations| ==>
            h.reservations[i] == s.api.reservations[i]
            || h.reservations[i] == s.api.reservations[i].(status := Api.Expired))
      && (forall i :: |s.api.reservations| <= i < |h.reservations| ==>
            ReservationOf(h.reservations[i], NewClaim(r, now), |s.claims|))
  {
  }

  lemma ClaimApiKeepsInv(s: State, r: ClaimRequest, now: int)
    requires LedgerProofs.Inv(s.api) && r.task < |s.graph.tasks| && ClaimApi(s, r, now).Ok?
    ensures LedgerProofs.Inv(ClaimApi(s, r, now).value)
  {
    if r.reservation.Some? {
      LedgerProofs.ReserveTxKeepsInv(s.api, ApiRequest(s, r, now), Some(|s.claims|));
    }
  }

  /** What a granted claim added to the swept tables. */
  lemma AcquisitionShape(s: State, r: ClaimRequest, now: int)
    requires TaskGraph.WellFormed(s.graph) && CheckClaim(s, r, now).Ok? && AcquireForClaim(s, r, now).Ok?
    requires r.limits.Some? ==> ValidPercentage(r.limits.value.forecast)
    ensures ClaimAdded(s, AcquireForClaim(s, r, now).value, NewClaim(r, now))
    ensures AcquireForClaim(s, r, now).value.control == s.control
    ensures AcquireForClaim(s, r, now).value.leader == s.leader
    ensures AcquireForClaim(s, r, now).value.surfaces == s.surfaces
  {
    ClaimLocksAdded(s, r, [Resource(PROJECT, s.graph.tasks[r.task].project)] + r.resources);
    QuotaAddedByClaim(s, r, now);
    ApiAddedByClaim(s, r, now);
  }

  lemma ClaimKeepsFits(s: State, claims: seq<Claim>, claim: Claim)
    requires LeaderFits(s.leader, s.claims) && claims == s.claims + [claim]
    requires s.leader.Some? && claim.generation == s.leader.value.generation && claim.instance == s.leader.value.instance
    ensures LeaderFits(s.leader, claims)
  {
  }

  lemma AcquisitionKeepsInv(s: State, r: ClaimRequest, now: int)
    requires Inv(s) && CheckClaim(s, r, now).Ok? && AcquireForClaim(s, r, now).Ok?
    requires r.limits.Some? ==> ValidPercentage(r.limits.value.forecast)
    requires Leads(s.leader, r.instance, r.generation, now) && !s.control.emergency
    ensures Inv(AcquireForClaim(s, r, now).value)
  {
    AcquisitionShape(s, r, now);
    ClaimApiKeepsInv(s, r, now);
    LeasingKeepsInv(s.graph, r.task);
    hide Inv, LedgerProofs.Inv, TaskGraph.Inv, ClaimAdded, ClaimSlots, ClaimQuota, LockResources, ClaimApi;
    AddedClaimKeepsInv(s, AcquireForClaim(s, r, now).value, NewClaim(r, now));
  }

  lemma LeasingKeepsInv(g: TaskGraph.Graph, t: nat)
    requires TaskGraph.Inv(g) && t < |g.tasks| && g.tasks[t].status == Ready && TaskGraph.DependenciesCompleted(g, t)
    ensures TaskGraph.Inv(TaskGraph.SetStatus(g, t, TaskStatus.Leased))
  {
    TaskGraph.TransitionKeepsInvExactly(g, t, Ready, TaskStatus.Leased);
  }

  lemma AddedClaimKeepsInv(s: State, h: State, claim: Claim)
    requires Inv(s) && ClaimAdded(s, h, claim)
    requires h.control == s.control && h.leader == s.leader && h.surfaces == s.surfaces
    requires TaskGraph.Inv(h.graph) && LedgerProofs.Inv(h.api) && !s.control.emergency
    requires s.leader.Some? && claim.generation == s.leader.value.generation && claim.instance == s.leader.value.instance
    ensures Inv(h)
  {
    ClaimAddedKeepsTables(s, h, claim);
    hide ClaimTables, TaskGraph.Inv, LedgerProofs.Inv;
    ClaimKeepsFits(s, h.claims, claim);
  }

  lemma ClaimTaskKeepsInv(s: State, r: ClaimRequest, now: int)
    requires Inv(s) && ClaimTask(s, r, now).Ok?
    ensures Inv(ClaimTask(s, r, now).value)
  {
    SweepKeepsInv(s, now);
    EndClaimsFrame(s, OverdueClaims(s.claims, now), Expiry);
    AcquisitionKeepsInv(ExpireClaims(s, now), r, now);
  }

  lemma RenewKeepsFits(s: State, instance: string, generation: nat, expiresAt: int)
    requires LeaderFits(s.leader, s.claims) && EmergencyFits(s.control, s.claims)
    ensures
      var claims := RenewClaims(s.claims, instance, generation, expiresAt);
      LeaderFits(s.leader, claims) && EmergencyFits(s.control, claims)
  {
  }

  lemma RenewKeepsInv(s: State, instance: string, generation: nat, expiresAt: int)
    requires Inv(s)
    ensures Inv(Renew(s, instance, generation, expiresAt))
  {
    RenewKeepsTables(s, instance, generation, expiresAt);
    RenewKeepsFits(s, instance, generation, expiresAt);
    var renewed := RenewedSet(s.claims, instance, generation);
    LedgerProofs.SweepsAreRowwise(s.api, expiresAt, renewed, {});
    LedgerProofs.RowwiseKeepsInv(s.api, Api.ExtendForClaims(s.api, renewed, expiresAt));
  }

  lemma HeartbeatClaimsKeepsInv(s: State, instance: string, generation: nat, ttl: nat, now: int)
    requires Inv(s) && HeartbeatClaims(s, instance, generation, ttl, now).Ok?
    ensures Inv(HeartbeatClaims(s, instance, generation, ttl, now).value)
  {
    hide Inv;
    SweepKeepsInv(s, now);
    RenewKeepsInv(ExpireClaims(s, now), instance, generation, now + ttl);
  }

  // --- Runs ---

  lemma StartTaskKeepsInv(g: TaskGraph.Graph, t: nat)
    requires TaskGraph.Inv(g) && t < |g.tasks| && g.tasks[t].status == TaskStatus.Leased
    ensures TaskGraph.Inv(StartTask(g, t))
  {
    TaskGraph.QuietChangeKeepsInv(g, StartTask(g, t));
  }

  lemma ConsumeKeepsInv(s: State, c: nat, runId: string, expiresAt: int)
    requires Inv(s) && c < |s.claims| && s.claims[c].status == ClaimActive
    requires s.claims[c].task < |s.graph.tasks| && s.graph.tasks[s.claims[c].task].status == TaskStatus.Leased
    ensures Inv(Consume(s, c, runId, expiresAt))
  {
    ConsumeKeepsTables(s, c, runId, expiresAt);
    StartTaskKeepsInv(s.graph, s.claims[c].task);
    LedgerProofs.BindRunIsRowwise(s.api, c, |s.runs|, expiresAt);
    LedgerProofs.RowwiseKeepsInv(s.api, Api.BindRun(s.api, c, |s.runs|, expiresAt));
  }

  lemma BeginClaimedRunKeepsInv(s: State, c: nat, instance: string, generation: nat, runId: string, adapter: string,
                                ttl: nat, now: int)
    requires Inv(s) && BeginClaimedRun(s, c, instance, generation, runId, adapter, ttl, now).Ok?
    ensures Inv(BeginClaimedRun(s, c, instance, generation, runId, adapter, ttl, now).value)
  {
    hide Inv;
    ConsumeKeepsInv(s, c, runId, now + ttl);
  }

  lemma CheckpointKeepsInv(s: State, r: nat, owner: string, generation: nat, ttl: nat, action: CheckpointAction, now: int)
    requires Inv(s) && Checkpoint(s, r, owner, generation, ttl, action, now).Ok?
    ensures Inv(Checkpoint(s, r, owner, generation, ttl, action, now).value)
  {
    var h := Checkpoint(s, r, owner, generation, ttl, action, now).value;
    var extended := s.(runs := s.runs[r := s.runs[r].(lease := s.runs[r].lease.(expiresAt := now + ttl))],
                       quota := ExtendRunQuota(s.quota, r, now + ttl));
    ExtendLeaseKeepsTables(s, extended, r, now + ttl);
    StatusChangeKeepsTables(extended, h);
  }

  lemma RequestCancellationKeepsInv(s: State, r: nat)
    requires Inv(s) && RequestCancellation(s, r).Ok?
    ensures Inv(RequestCancellation(s, r).value)
  {
    StatusChangeKeepsTables(s, RequestCancellation(s, r).value);
  }

  lemma ReleaseForRunKeepsInv(l: Api.Ledger, r: nat)
    requires LedgerProofs.Inv(l)
    ensures LedgerProofs.Inv(Api.ReleaseForRuns(l, {r}))
  {
    LedgerProofs.SweepsAreRowwise(l, 0, {}, {r});
    LedgerProofs.RowwiseKeepsInv(l, Api.ReleaseForRuns(l, {r}));
  }

  lemma OutcomeTransition(g: TaskGraph.Graph, t: nat, next: TaskStatus)
    requires TaskGraph.Inv(g) && t < |g.tasks| && g.tasks[t].status == Running
    requires next in {Verifying, Paused, Cancelled, Failed}
    ensures TaskGraph.Inv(TaskGraph.SetStatus(g, t, next))
  {
    TaskGraph.QuietChangeKeepsInv(g, TaskGraph.SetStatus(g, t, next));
  }

  lemma RecordOutcomeKeepsInv(s: State, r: nat, failure: Option<FailureCategory>)
    requires Inv(s) && RecordOutcome(s, r, failure).Ok?
    ensures Inv(RecordOutcome(s, r, failure).value)
  {
    var outcome := OutcomeOf(failure, s.runs[r].requestedAction);
    var cancellation := if failure == Some(CancelledByRequest) then CancelCompleted else s.runs[r].cancellation;
    var recorded := s.(graph := TaskGraph.SetStatus(s.graph, s.runs[r].task, outcome.task),
                       runs := s.runs[r := s.runs[r].(status := outcome.run, cancellation := cancellation)]);
    OutcomeTransition(s.graph, s.runs[r].task, outcome.task);
    StatusChangeKeepsTables(s, recorded);
    ReleaseForRunKeepsInv(s.api, r);
    if failure.Some? {
      EndRunKeepsTables(recorded, r);
    } else {
      ReservationsEndKeepsTables(recorded, r);
    }
  }

  lemma FinishRunKeepsInv(s: State, r: nat, status: string)
    requires Inv(s) && FinishRun(s, r, status).Ok?
    ensures Inv(FinishRun(s, r, status).value)
  {
    var finished := s.(runs := s.runs[r := s.runs[r].(status := status)]);
    StatusChangeKeepsTables(s, finished);
    EndRunKeepsTables(finished, r);
    ReleaseForRunKeepsInv(s.api, r);
  }

  lemma OrphanKeepsInv(s: State, r: nat)
    requires Inv(s) && r < |s.runs| && s.runs[r].task < |s.graph.tasks|
    requires var status := s.graph.tasks[s.runs[r].task].status; TaskGraph.Recoverable(status) || status == Paused
    ensures Inv(OrphanRun(s, r))
  {
    var orphaned := s.(graph := TaskGraph.SetStatus(s.graph, s.runs[r].task, Paused),
                       runs := s.runs[r := s.runs[r].(status := "orphaned")]);
    TaskGraph.QuietChangeKeepsInv(s.graph, orphaned.graph);
    StatusChangeKeepsTables(s, orphaned);
    EndRunKeepsTables(orphaned, r);
    ReleaseForRunKeepsInv(s.api, r);
  }

  ghost predicate Orphanable(s: State, rs: seq<nat>) {
    forall k :: 0 <= k < |rs| ==>
      && rs[k] < |s.runs| && s.runs[rs[k]].task < |s.graph.tasks|
      && var status := s.graph.tasks[s.runs[rs[k]].task].status; TaskGraph.Recoverable(status) || status == Paused
  }

  lemma {:induction false} OrphansKeepInv(s: State, rs: seq<nat>)
    requires Inv(s) && Orphanable(s, rs)
    ensures Inv(OrphanRuns(s, rs))
    ensures var h := OrphanRuns(s, rs);
            forall t :: 0 <= t < |s.graph.tasks| ==>
              h.graph.tasks[t].status == s.graph.tasks[t].status || h.graph.tasks[t].status == Paused
  {
    if rs != [] {
      var front := rs[..|rs| - 1];
      assert Orphanable(s, front);
      OrphansKeepInv(s, front);
      OrphanKeepsInv(OrphanRuns(s, front), rs[|rs| - 1]);
    }
  }

  lemma RecoverLeasesKeepsInv(s: State, now: int)
    requires Inv(s)
    ensures Inv(RecoverLeases(s, now))
  {
    OrphansKeepInv(s, OverdueRuns(s.runs, s.graph.tasks, now, |s.runs|));
  }

  // --- Tasks ---

  lemma TaskChangeKeepsInv(s: State, g: TaskGraph.Graph)
    requires Inv(s) && TaskGraph.Inv(g) && SameProjects(s.graph.tasks, g.tasks)
    ensures Inv(s.(graph := g))
  {
    StatusChangeKeepsTables(s, s.(graph := g));
  }

  lemma AddTaskKeepsAll(s: State, project: string, dependencies: seq<nat>, pin: Option<TaskGraph.RoutePin>)
    requires Inv(s) && TaskGraph.AddTask(s.graph, project, dependencies, pin).Ok?
    ensures Inv(s.(graph := TaskGraph.AddTask(s.graph, project, dependencies, pin).value))
  {
    TaskGraph.AddTaskKeepsInv(s.graph, project, dependencies, pin);
    TaskChangeKeepsInv(s, TaskGraph.AddTask(s.graph, project, dependencies, pin).value);
  }

  lemma SetRoutePinKeepsAll(s: State, t: nat, pin: Option<TaskGraph.RoutePin>, reason: string)
    requires Inv(s) && TaskGraph.SetRoutePin(s.graph, t, pin, reason).Ok?
    ensures Inv(s.(graph := TaskGraph.SetRoutePin(s.graph, t, pin, reason).value))
  {
    TaskGraph.SetRoutePinKeepsInv(s.graph, t, pin, reason);
    TaskChangeKeepsInv(s, TaskGraph.SetRoutePin(s.graph, t, pin, reason).value);
  }

  lemma AddDependencyKeepsAll(s: State, t: nat, d: nat)
    requires Inv(s) && TaskGraph.AddDependency(s.graph, t, d).Ok?
    ensures Inv(s.(graph := TaskGraph.AddDependency(s.graph, t, d).value))
  {
    TaskGraph.AddDependencyKeepsInv(s.graph, t, d);
    TaskChangeKeepsInv(s, TaskGraph.AddDependency(s.graph, t, d).value);
  }

  lemma CompleteReviewKeepsAll(s: State, t: nat)
    requires Inv(s) && TaskGraph.CompleteReview(s.graph, t).Ok?
    ensures Inv(s.(graph := TaskGraph.CompleteReview(s.graph, t).value))
  {
    TaskGraph.CompleteReviewKeepsInv(s.graph, t);
    TaskChangeKeepsInv(s, TaskGraph.CompleteReview(s.graph, t).value);
  }

  lemma TransitionKeepsAll(s: State, t: nat, expected: TaskStatus, next: TaskStatus)
    requires Inv(s) && TaskGraph.TransitionTask(s.graph, t, expected, next).Ok?
    requires Disciplined(TransitionTaskOp(t, expected, next))
    ensures Inv(s.(graph := TaskGraph.TransitionTask(s.graph, t, expected, next).value))
  {
    TaskGraph.TransitionKeepsInvExactly(s.graph, t, expected, next);
    TaskChangeKeepsInv(s, TaskGraph.TransitionTask(s.graph, t, expected, next).value);
  }

  /** The two bare transitions a disciplined run avoids break the agreement exactly when they start early or strand. */
  lemma BareTransitionKeepsInvExactly(s: State, t: nat, expected: TaskStatus, next: TaskStatus)
    requires Inv(s) && TaskGraph.TransitionTask(s.graph, t, expected, next).Ok?
    ensures Inv(s.(graph := TaskGraph.TransitionTask(s.graph, t, expected, next).value))
       <==> && (expected == Ready && next == TaskStatus.Leased ==> TaskGraph.DependenciesCompleted(s.graph, t))
            && (expected == Review && next == Completed ==> !TaskGraph.WouldStrand(s.graph, t))
  {
    TaskGraph.TransitionKeepsInvExactly(s.graph, t, expected, next);
    var g := TaskGraph.TransitionTask(s.graph, t, expected, next).value;
    if TaskGraph.Inv(g) {
      TaskChangeKeepsInv(s, g);
    }
  }

  // --- Leadership, controls and the ledger ---

  lemma OtherTablesKeepInv(s: State, h: State)
    requires Inv(s) && h == s.(control := h.control, instances := h.instances, leader := h.leader, routes := h.routes,
                               surfaces := h.surfaces)
    requires EmergencyFits(h.control, h.claims) && LeaderFits(h.leader, h.claims) && SurfacesUnique(h.surfaces)
    ensures Inv(h)
  {
    assert ClaimTables(h);
  }

  lemma AcquireLeaderKeepsInv(s: State, instance: string, ttl: nat, now: int)
    requires Inv(s) && AcquireLeader(s, instance, ttl, now).Ok?
    ensures Inv(AcquireLeader(s, instance, ttl, now).value)
  {
    var h := AcquireLeader(s, instance, ttl, now).value;
    assert LeaderFits(s.leader, s.claims);
    assert LeaderFits(h.leader, h.claims);
    OtherTablesKeepInv(s, h);
  }

  lemma OtherOpKeepsInv(s: State, op: Op, now: int)
    requires Inv(s) && Apply(s, op, now).Ok?
    requires op.HeartbeatLeaderOp? || op.RegisterInstanceOp? || op.SetPauseOp? || op.ResumeOp? || op.RecordRouteOp?
    ensures Inv(Apply(s, op, now).value)
  {
    var h := Apply(s, op, now).value;
    assert LeaderFits(s.leader, s.claims) && EmergencyFits(s.control, s.claims);
    assert LeaderFits(h.leader, h.claims) && EmergencyFits(h.control, h.claims);
    hide Inv;
    OtherTablesKeepInv(s, h);
  }

  lemma UpsertKeepsUnique(surfaces: seq<Surface>, provider: string, account: string, key: string,
                          observed: Option<real>, reserve: real, validUntil: Option<int>)
    requires SurfacesUnique(surfaces)
    requires UpsertSurface(surfaces, provider, account, key, observed, reserve, validUntil).Ok?
    ensures SurfacesUnique(UpsertSurface(surfaces, provider, account, key, observed, reserve, validUntil).value)
  {
    hide SurfaceId;
    var h := UpsertSurface(surfaces, provider, account, key, observed, reserve, validUntil).value;
    forall i, j | 0 <= i < j < |h|
      ensures !SameSurface(h[i], h[j])
    {
      assert j < |surfaces| ==> !SameSurface(surfaces[i], surfaces[j]);
    }
  }

  lemma {:induction false} RecordingKeepsUnique(surfaces: seq<Surface>, os: seq<Observation>)
    requires SurfacesUnique(surfaces) && RecordObservations(surfaces, os).Ok?
    ensures SurfacesUnique(RecordObservations(surfaces, os).value)
  {
    if os != [] {
      var front, o := os[..|os| - 1], os[|os| - 1];
      RecordingKeepsUnique(surfaces, front);
      UpsertKeepsUnique(RecordObservations(surfaces, front).value, o.provider, o.account, o.key, o.remaining, o.reserve,
                        Some(o.validUntil));
    }
  }

  lemma ObserveKeepsInv(s: State, provider: string, account: string, key: string,
                        observed: Option<real>, reserve: real, unknownReason: Option<string>)
    requires Inv(s) && ObserveQuota(s, provider, account, key, observed, reserve, unknownReason).Ok?
    ensures Inv(ObserveQuota(s, provider, account, key, observed, reserve, unknownReason).value)
  {
    UpsertKeepsUnique(s.surfaces, provider, account, key, observed, reserve, None);
    OtherTablesKeepInv(s, ObserveQuota(s, provider, account, key, observed, reserve, unknownReason).value);
  }

  lemma RefreshKeepsInv(s: State, os: seq<Observation>)
    requires Inv(s) && RefreshQuota(s, os).Ok?
    ensures Inv(RefreshQuota(s, os).value)
  {
    RecordingKeepsUnique(s.surfaces, os);
    OtherTablesKeepInv(s, RefreshQuota(s, os).value);
  }

  lemma OverrideKeepsInv(s: State, provider: string, account: string, key: string,
                         effective: real, reason: string, expiresAt: Option<int>)
    requires Inv(s) && OverrideQuota(s, provider, account, key, effective, reason, expiresAt).Ok?
    ensures Inv(OverrideQuota(s, provider, account, key, effective, reason, expiresAt).value)
  {
    hide SurfaceId;
    var h := OverrideQuota(s, provider, account, key, effective, reason, expiresAt).value;
    assert SurfacesUnique(h.surfaces) by {
      forall i, j | 0 <= i < j < |h.surfaces|
        ensures !SameSurface(h.surfaces[i], h.surfaces[j])
      {
        assert !SameSurface(s.surfaces[i], s.surfaces[j]);
      }
    }
    OtherTablesKeepInv(s, h);
  }

  lemma EvidenceOpKeepsInv(s: State, op: Op, now: int)
    requires Inv(s) && Apply(s, op, now).Ok? && (op.ObserveQuotaOp? || op.RefreshQuotaOp? || op.OverrideQuotaOp?)
    ensures Inv(Apply(s, op, now).value)
  {
    hide Inv, ObserveQuota, RefreshQuota, OverrideQuota;
    match op
    case ObserveQuotaOp(p, a, k, observed, reserve, unknown) => ObserveKeepsInv(s, p, a, k, observed, reserve, unknown);
    case RefreshQuotaOp(os) => RefreshKeepsInv(s, os);
    case OverrideQuotaOp(p, a, k, effective, reason, expiresAt) =>
      OverrideKeepsInv(s, p, a, k, effective, reason, expiresAt);
  }

  /** Public ledger transactions neither bind, renew nor revive a reservation, and admit only unbound ones. */
  ghost predicate BindingsKept(l: Api.Ledger, h: Api.Ledger) {
    && |l.reservations| <= |h.reservations|
    && (forall i :: 0 <= i < |l.reservations| ==> BindingKept(l.reservations[i], h.reservations[i]))
    && (forall i :: |l.reservations| <= i < |h.reservations| ==> h.reservations[i].claim.None?)
  }

  ghost predicate BindingKept(r: Api.Reservation, q: Api.Reservation) {
    q.claim == r.claim && q.run == r.run && q.expiresAt == r.expiresAt && (q.status == Api.Active ==> r.status == Api.Active)
  }

  lemma LedgerOpKeepsBindings(l: Api.Ledger, op: Api.LedgerOp, now: int)
    requires Api.Apply(l, op, now).Ok?
    ensures BindingsKept(l, Api.Apply(l, op, now).value)
  {
    hide Api.CheckEvidence, Api.CheckTotals, Api.CheckPolicy, Api.CheckUnique, Api.ValidBudget, Api.ValidPrice,
      Api.ValidRequest, Api.LatestBudget, Api.LastAttempt;
  }

  lemma BindingsKeepInv(s: State, h: State)
    requires Inv(s) && h == s.(api := h.api) && BindingsKept(s.api, h.api) && LedgerProofs.Inv(h.api)
    ensures Inv(h)
  {
    assert forall i :: 0 <= i < |s.api.reservations| ==> BindingKept(s.api.reservations[i], h.api.reservations[i]);
    LedgerStepKeepsTables(s, h);
  }

  lemma LedgerOpKeepsInv(s: State, op: Api.LedgerOp, now: int)
    requires Inv(s) && ApplyLedger(s, op, now).Ok?
    ensures Inv(ApplyLedger(s, op, now).value)
  {
    LedgerTheorems.ApplyKeepsInv(s.api, ResolveTask(s, op), now);
    LedgerOpKeepsBindings(s.api, ResolveTask(s, op), now);
    BindingsKeepInv(s, ApplyLedger(s, op, now).value);
  }

  /** The invariant is kept by every transaction, and so holds in every reachable state. */
  lemma StepKeepsInv(s: State, op: Op, now: int)
    requires Inv(s) && Disciplined(op) && Apply(s, op, now).Ok?
    ensures Inv(Apply(s, op, now).value)
  {
    hide Inv, AcquireLeader, StopInstance, EmergencyStop, ClaimTask, HeartbeatClaims, BeginClaimedRun, ExpireClaims,
      Checkpoint, RequestCancellation, RecordOutcome, FinishRun, RecoverLeases, ApplyLedger,
      ObserveQuota, RefreshQuota, OverrideQuota;
    match op
    case AcquireLeaderOp(i, ttl) => AcquireLeaderKeepsInv(s, i, ttl, now);
    case StopInstanceOp(i) => StopInstanceKeepsInv(s, i, now);
    case EmergencyStopOp(reason) => EmergencyStopKeepsInv(s, reason);
    case AddTaskOp(project, dependencies, pin) => AddTaskKeepsAll(s, project, dependencies, pin);
    case SetRoutePinOp(t, pin, reason) => SetRoutePinKeepsAll(s, t, pin, reason);
    case AddDependencyOp(t, d) => AddDependencyKeepsAll(s, t, d);
    case CompleteReviewOp(t) => CompleteReviewKeepsAll(s, t);
    case TransitionTaskOp(t, expected, next) => TransitionKeepsAll(s, t, expected, next);
    case ClaimTaskOp(r) => ClaimTaskKeepsInv(s, r, now);
    case HeartbeatClaimsOp(i, g, ttl) => HeartbeatClaimsKeepsInv(s, i, g, ttl, now);
    case BeginClaimedRunOp(c, i, g, runId, adapter, ttl) =>
      BeginClaimedRunKeepsInv(s, c, i, g, runId, adapter, ttl, now);
    case RecoverClaimsOp => SweepKeepsInv(s, now);
    case CheckpointOp(r, owner, g, ttl, action) => CheckpointKeepsInv(s, r, owner, g, ttl, action, now);
    case RequestCancellationOp(r) => RequestCancellationKeepsInv(s, r);
    case RecordOutcomeOp(r, failure) => RecordOutcomeKeepsInv(s, r, failure);
    case FinishRunOp(r, status) => FinishRunKeepsInv(s, r, status);
    case RecoverLeasesOp => RecoverLeasesKeepsInv(s, now);
    case ObserveQuotaOp(_, _, _, _, _, _) => EvidenceOpKeepsInv(s, op, now);
    case RefreshQuotaOp(_) => EvidenceOpKeepsInv(s, op, now);
    case OverrideQuotaOp(_, _, _, _, _, _) => EvidenceOpKeepsInv(s, op, now);
    case LedgerOp(op) => LedgerOpKeepsInv(s, op, now);
    case _ => OtherOpKeepsInv(s, op, now);
  }
}
