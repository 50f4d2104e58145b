/**
 The paid-API ledger over whole runs of the store: which transactions write which of its tables, which budget
 revision governs an identity, and what a reported failure rules out.
 */
module StoreLedger {
  import opened Prelude
  import opened Domain
  import opened Store
  import opened StoreInvariant
  import opened StoreSteps
  import opened StoreTheorems
  import opened StoreStatus
  import opened StoreReleases
  import TaskGraph
  import Api = ApiBudget
  import Effects = StoreEffects
  import Leases = StoreLeases
  import LedgerProofs = ApiLedgerProofs
  import LedgerTheorems = ApiLedgerTheorems
  import Admission = ApiAdmission

  // --- The scheduler's own transactions ---

  /** Of the ledger's tables at most the reservations differ. */
  predicate OnlyReservations(l: Api.Ledger, h: Api.Ledger) {
    h == l.(reservations := h.reservations)
  }

  lemma EndingWritesReservations(s: State, cs: seq<nat>, ending: Ending)
    requires forall k :: 0 <= k < |cs| ==> cs[k] < |s.claims|
    ensures OnlyReservations(s.api, EndClaims(s, cs, ending).api)
  {
    Effects.EndedReservations(s, cs, ending);
  }

  lemma SweepWritesReservations(s: State, now: int)
    ensures OnlyReservations(s.api, ExpireClaims(s, now).api)
  {
    EndingWritesReservations(s, OverdueClaims(s.claims, now), Expiry);
  }

  lemma StopWritesReservations(s: State, instance: string, now: int)
    requires StopInstance(s, instance, now).Ok?
    ensures OnlyReservations(s.api, StopInstance(s, instance, now).value.api)
  {
    var leader := if s.leader.Some? && s.leader.value.instance == instance
                  then Some(s.leader.value.(expiresAt := now)) else s.leader;
    var stopped := s.(instances := s.instances - {instance}, leader := leader);
    EndingWritesReservations(stopped, ClaimsOf(s.claims, instance), GracefulStop);
  }

  lemma EmergencyWritesReservations(s: State, reason: string)
    requires EmergencyStop(s, reason).Ok?
    ensures OnlyReservations(s.api, EmergencyStop(s, reason).value.api)
  {
    var stopped := s.(control := Control(true, true), runs := CancelAtWork(s.runs, s.graph.tasks));
    EndingWritesReservations(stopped, ActiveClaims(s.claims), Emergency);
  }

  lemma ClaimApiWritesReservations(s: State, r: ClaimRequest, now: int)
    requires r.task < |s.graph.tasks| && ClaimApi(s, r, now).Ok?
    ensures OnlyReservations(s.api, ClaimApi(s, r, now).value)
  {
  }

  lemma ClaimWritesReservations(s: State, r: ClaimRequest, now: int)
    requires TaskGraph.WellFormed(s.graph) && ClaimTask(s, r, now).Ok?
    ensures OnlyReservations(s.api, ClaimTask(s, r, now).value.api)
  {
    hide ExpireClaims, ClaimApi;
    SweepWritesReservations(s, now);
    ClaimApiWritesReservations(ExpireClaims(s, now), r, now);
  }

  lemma HeartbeatWritesReservations(s: State, instance: string, generation: nat, ttl: nat, now: int)
    requires HeartbeatClaims(s, instance, generation, ttl, now).Ok?
    ensures OnlyReservations(s.api, HeartbeatClaims(s, instance, generation, ttl, now).value.api)
  {
    hide ExpireClaims;
    SweepWritesReservations(s, now);
  }

  lemma {:induction false} RecoveryWritesReservations(s: State, rs: seq<nat>)
    requires forall k :: 0 <= k < |rs| ==> rs[k] < |s.runs| && s.runs[rs[k]].task < |s.graph.tasks|
    ensures OnlyReservations(s.api, OrphanRuns(s, rs).api)
  {
    if rs != [] {
      RecoveryWritesReservations(s, rs[..|rs| - 1]);
    }
  }

  lemma ClaimOpWritesReservations(s: State, op: Op, now: int, h: State)
    requires TaskGraph.WellFormed(s.graph) && Apply(s, op, now) == Ok(h) && ChangesClaims(op)
    ensures OnlyReservations(s.api, h.api)
  {
    hide TaskGraph.WellFormed, StopInstance, ClaimTask, HeartbeatClaims, ExpireClaims, OnlyReservations;
    match op
    case StopInstanceOp(i) => StopWritesReservations(s, i, now);
    case ClaimTaskOp(r) => ClaimWritesReservations(s, r, now);
    case HeartbeatClaimsOp(i, g, ttl) => HeartbeatWritesReservations(s, i, g, ttl, now);
    case RecoverClaimsOp => SweepWritesReservations(s, now);
  }

  lemma RunOpWritesReservations(s: State, op: Op, now: int, h: State)
    requires TaskGraph.WellFormed(s.graph) && Apply(s, op, now) == Ok(h) && (ChangesRuns(op) || op.FinishRunOp?)
    ensures OnlyReservations(s.api, h.api)
  {
    hide TaskGraph.WellFormed, EmergencyStop, OrphanRuns;
    if op.EmergencyStopOp? {
      EmergencyWritesReservations(s, op.reason);
    } else if op.RecoverLeasesOp? {
      RecoveryWritesReservations(s, OverdueRuns(s.runs, s.graph.tasks, now, |s.runs|));
    }
  }

  lemma QuietOpKeepsLedger(s: State, op: Op, now: int, h: State)
    requires TaskGraph.WellFormed(s.graph) && Apply(s, op, now) == Ok(h)
    requires !ChangesClaims(op) && !ChangesRuns(op) && !op.FinishRunOp? && !op.LedgerOp?
    ensures OnlyReservations(s.api, h.api)
  {
  }

  /**
   The scheduler's transactions write no table of the ledger but the reservations: no budget, price, attempt or
   spend row.
   */
  lemma SchedulerWritesOnlyReservations(s: State, op: Op, now: int, h: State)
    requires TaskGraph.WellFormed(s.graph) && Apply(s, op, now) == Ok(h) && !op.LedgerOp?
    ensures OnlyReservations(s.api, h.api)
  {
    hide TaskGraph.WellFormed, Apply, OnlyReservations;
    if ChangesClaims(op) {
      ClaimOpWritesReservations(s, op, now, h);
    } else if ChangesRuns(op) || op.FinishRunOp? {
      RunOpWritesReservations(s, op, now, h);
    } else {
      QuietOpKeepsLedger(s, op, now, h);
    }
  }

  /** A request on its own is admitted for the project its task belongs to, at the time of the transaction. */
  lemma RequestInStore(s: State, r: Api.Request, now: int)
    ensures
      var q := r.(now := now,
                  taskProject := if r.task < |s.graph.tasks| then Some(s.graph.tasks[r.task].project) else None);
      && (ApplyLedger(s, Api.ReserveOp(r), now).Ok? <==> Api.ValidRequest(q) && Api.ReserveTx(s.api, q, None).Ok?)
      && (ApplyLedger(s, Api.ReserveOp(r), now).Ok? ==>
            && r.task < |s.graph.tasks| && s.graph.tasks[r.task].project == r.project
            && ApplyLedger(s, Api.ReserveOp(r), now).value == s.(api := Api.ReserveTx(s.api, q, None).value))
  {
    hide Api.ValidRequest, Api.CheckTotals, Api.CheckUnique, Api.ExpireReservations, Api.LatestBudget;
  }

  /** The recovery of reservations expires exactly the overdue ones. */
  lemma ReservationsRecoveredExactly(s: State, now: int)
    ensures ApplyLedger(s, Api.RecoverReservationsOp, now).Ok?
    ensures
      var h := ApplyLedger(s, Api.RecoverReservationsOp, now).value;
      && h == s.(api := s.api.(reservations := h.api.reservations)) && |h.api.reservations| == |s.api.reservations|
      && forall i :: 0 <= i < |s.api.reservations| ==>
           h.api.reservations[i]
           == if s.api.reservations[i].status == Api.Active && s.api.reservations[i].expiresAt <= now
              then s.api.reservations[i].(status := Api.Expired) else s.api.reservations[i]
  {
  }

  // --- Budget revisions ---

  predicate Configures(op: Op, project: string, provider: string, account: string) {
    && op.LedgerOp? && op.ledgerOp.ConfigureBudgetOp?
    && Api.HasIdentity(op.ledgerOp.budget, project, provider, account)
  }

  ghost predicate NeverConfigures(steps: seq<Step>, project: string, provider: string, account: string) {
    forall k :: 0 <= k < |steps| ==> !Configures(steps[k].op, project, provider, account)
  }

  lemma LedgerOpBudgets(l: Api.Ledger, op: Api.LedgerOp, now: int)
    requires Api.Apply(l, op, now).Ok?
    ensures Api.Apply(l, op, now).value.budgets
         == if op.ConfigureBudgetOp? then l.budgets + [op.budget] else l.budgets
  {
  }

  /** Configuring a budget adds its revision, and no other transaction adds or changes any. */
  lemma StepBudgets(s: State, op: Op, now: int, h: State)
    requires TaskGraph.WellFormed(s.graph) && Apply(s, op, now) == Ok(h)
    ensures h.api.budgets
         == if op.LedgerOp? && op.ledgerOp.ConfigureBudgetOp? then s.api.budgets + [op.ledgerOp.budget] else s.api.budgets
  {
    hide TaskGraph.WellFormed, Apply;
    if op.LedgerOp? {
      Leases.LedgerApplies(s, op.ledgerOp, now);
      LedgerOpBudgets(s.api, ResolveTask(s, op.ledgerOp), now);
      hide Api.Apply;
    } else {
      SchedulerWritesOnlyReservations(s, op, now, h);
    }
  }

  lemma NextKeepsRevision(s: State, step: Step, b: nat, project: string, provider: string, account: string)
    requires Inv(s) && Disciplined(step.op) && Api.LatestRevision(s.api.budgets, b, project, provider, account)
    requires !Configures(step.op, project, provider, account)
    ensures Api.LatestRevision(Next(s, step).api.budgets, b, project, provider, account)
    ensures Next(s, step).api.budgets[b] == s.api.budgets[b]
  {
    assert TaskGraph.WellFormed(s.graph);
    hide Inv, Apply, TaskGraph.WellFormed;
    if Apply(s, step.op, step.now).Ok? { StepBudgets(s, step.op, step.now, Next(s, step)); }
  }

  /** The latest revision of an identity stays the one in force until another one is configured. */
  lemma {:induction false} RevisionGovernsUntilReplaced(
      s: State, steps: seq<Step>, b: nat, project: string, provider: string, account: string)
    requires Inv(s) && AllDisciplined(steps) && NeverConfigures(steps, project, provider, account)
    requires Api.LatestRevision(s.api.budgets, b, project, provider, account)
    ensures Api.LatestRevision(After(s, steps).api.budgets, b, project, provider, account)
    ensures After(s, steps).api.budgets[b] == s.api.budgets[b]
  {
    hide Inv, Next, Configures, Api.LatestRevision;
    if steps != [] {
      var front, last := steps[..|steps| - 1], steps[|steps| - 1];
      RevisionGovernsUntilReplaced(s, front, b, project, provider, account);
      NextKeepsRevision(After(s, front), last, b, project, provider, account);
    }
  }

  lemma ConfiguringAdds(s: State, budget: Api.Budget, now: int)
    requires Inv(s) && Api.ConfigureBudget(s.api, budget).Ok?
    ensures
      var g := Next(s, Step(now, LedgerOp(Api.ConfigureBudgetOp(budget))));
      g.api.budgets == s.api.budgets + [budget]
      && Api.LatestRevision(g.api.budgets, |s.api.budgets|, budget.project, budget.provider, budget.account)
  {
    Leases.NextAppliesLedger(s, Api.ConfigureBudgetOp(budget), now);
    hide Inv, Next;
  }

  /**
   Once a revision has been configured, it is the one every admission of its identity is decided under, in every
   continuation of the run until another is configured; a disabled one refuses them all.
   */
  lemma ConfiguredRevisionGoverns(s: State, budget: Api.Budget, now: int, steps: seq<Step>, r: Api.Request, claim: Option<nat>)
    requires Inv(s) && Api.ConfigureBudget(s.api, budget).Ok? && AllDisciplined(steps)
    requires NeverConfigures(steps, budget.project, budget.provider, budget.account)
    requires r.project == budget.project && r.provider == budget.provider && r.account == budget.account
    ensures
      var h := After(Next(s, Step(now, LedgerOp(Api.ConfigureBudgetOp(budget)))), steps);
      var n := |h.api.reservations|;
      && |s.api.budgets| < |h.api.budgets| && h.api.budgets[|s.api.budgets|] == budget
      && (!budget.enabled ==> Api.ReserveTx(h.api, r, claim) == Err(Api.Disabled))
      && (Api.ReserveTx(h.api, r, claim).Ok? ==>
            |Api.ReserveTx(h.api, r, claim).value.reservations| == n + 1
            && Api.ReserveTx(h.api, r, claim).value.reservations[n].budget == |s.api.budgets|)
  {
    hide Inv, Next, After, NeverConfigures, Api.ConfigureBudget;
    var g := Next(s, Step(now, LedgerOp(Api.ConfigureBudgetOp(budget))));
    ConfiguringAdds(s, budget, now);
    RevisionGovernsUntilReplaced(g, steps, |s.api.budgets|, budget.project, budget.provider, budget.account);
    LatestDecides(After(g, steps).api, |s.api.budgets|, r, claim);
  }

  lemma LatestDecides(l: Api.Ledger, b: nat, r: Api.Request, claim: Option<nat>)
    requires Api.LatestRevision(l.budgets, b, r.project, r.provider, r.account)
    ensures !l.budgets[b].enabled ==> Api.ReserveTx(l, r, claim) == Err(Api.Disabled)
    ensures Api.ReserveTx(l, r, claim).Ok? ==>
              |Api.ReserveTx(l, r, claim).value.reservations| == |l.reservations| + 1
              && Api.ReserveTx(l, r, claim).value.reservations[|l.reservations|].budget == b
  {
    Admission.LatestRevisionIsUnique(l.budgets, b, r.project, r.provider, r.account);
    hide Api.CheckTotals, Api.CheckUnique;
  }

  /** And a disabled one refuses every claim that brings a paid request for its account. */
  lemma DisabledRevisionRefusesClaims(s: State, budget: Api.Budget, now: int, steps: seq<Step>, r: ClaimRequest, at: int)
    requires Inv(s) && Api.ConfigureBudget(s.api, budget).Ok? && !budget.enabled && AllDisciplined(steps)
    requires NeverConfigures(steps, budget.project, budget.provider, budget.account)
    requires
      var h := After(Next(s, Step(now, LedgerOp(Api.ConfigureBudgetOp(budget)))), steps);
      && r.reservation.Some? && r.task < |h.graph.tasks| && h.graph.tasks[r.task].project == budget.project
      && r.limits.Some? && r.limits.value.provider == budget.provider && r.limits.value.account == budget.account
    ensures ClaimTask(After(Next(s, Step(now, LedgerOp(Api.ConfigureBudgetOp(budget)))), steps), r, at).Err?
  {
    hide Inv, Next, After, NeverConfigures, ClaimTask, Api.ConfigureBudget;
    var g := Next(s, Step(now, LedgerOp(Api.ConfigureBudgetOp(budget))));
    ConfiguringAdds(s, budget, now);
    RevisionGovernsUntilReplaced(g, steps, |s.api.budgets|, budget.project, budget.provider, budget.account);
    InvIsWellFormed(After(g, steps));
    DisabledClaimFails(After(g, steps), |s.api.budgets|, r, at);
  }

  lemma InvIsWellFormed(s: State)
    requires Inv(s)
    ensures TaskGraph.WellFormed(s.graph)
  {
  }

  lemma DisabledClaimFails(s: State, b: nat, r: ClaimRequest, now: int)
    requires TaskGraph.WellFormed(s.graph) && r.reservation.Some? && r.limits.Some? && r.task < |s.graph.tasks|
    requires Api.LatestRevision(s.api.budgets, b, s.graph.tasks[r.task].project, r.limits.value.provider, r.limits.value.account)
    requires !s.api.budgets[b].enabled
    ensures ClaimTask(s, r, now).Err?
  {
    hide ExpireClaims, Api.LatestRevision, Api.ReserveTx, TaskGraph.WellFormed, CheckClaim, ClaimSlots, ClaimQuota,
      LockResources, TaskGraph.SetStatus, Leads;
    SweepWritesReservations(s, now);
    var swept := ExpireClaims(s, now);
    SweptProjects(s, now, r.task);
    LatestDecides(swept.api, b, ApiRequest(swept, r, now), Some(|swept.claims|));
  }

  // --- Reported failures ---

  lemma FailingApplies(s: State, a: nat, f: Api.Failure, now: int)
    requires Inv(s) && Api.FailAttempt(s.api, a, f).Ok?
    ensures Next(s, Step(now, LedgerOp(Api.FailAttemptOp(a, f)))).api == Api.FailAttempt(s.api, a, f).value
  {
    FailingAppliesLedger(s, a, f, now);
    hide Inv, Next, Api.FailAttempt, ApplyLedger;
    Leases.NextAppliesLedger(s, Api.FailAttemptOp(a, f), now);
  }

  lemma FailingAppliesLedger(s: State, a: nat, f: Api.Failure, now: int)
    requires Api.FailAttempt(s.api, a, f).Ok?
    ensures ApplyLedger(s, Api.FailAttemptOp(a, f), now) == Ok(s.(api := Api.FailAttempt(s.api, a, f).value))
  {
    hide Api.FailAttempt;
  }

  /**
   Once a terminal or uncertain failure of an attempt has been reported, no attempt of its reservation begins in
   any continuation of the run, and the attempt keeps that status.
   */
  lemma ReportedFailureIsFinalEver(s: State, a: nat, f: Api.Failure, now: int, steps: seq<Step>, at: int)
    requires Inv(s) && Api.FailAttempt(s.api, a, f).Ok? && AllDisciplined(steps)
    requires f.status == Api.TerminalFailure || f.status == Api.Uncertain
    ensures
      var h := After(Next(s, Step(now, LedgerOp(Api.FailAttemptOp(a, f)))), steps);
      && a < |h.api.attempts| && h.api.attempts[a].status == f.status
      && Api.BeginAttempt(h.api, s.api.attempts[a].reservation, at).Err?
  {
    hide Next, After;
    FailingApplies(s, a, f, now);
    var g := Next(s, Step(now, LedgerOp(Api.FailAttemptOp(a, f))));
    RunAdvancesAll(g, steps);
    assert LedgerProofs.Inv(After(g, steps).api);
    hide Inv, Api.FailAttempt, Api.BeginAttempt;
    LedgerTheorems.ReportedFailureIsFinal(s.api, a, f, After(g, steps).api, at);
  }

  /** Over any run an attempt row keeps its reservation and number, and its status once it has an outcome. */
  lemma OutcomesStand(s: State, steps: seq<Step>, a: nat)
    requires Inv(s) && AllDisciplined(steps) && a < |s.api.attempts|
    ensures
      var h := After(s, steps);
      && a < |h.api.attempts|
      && h.api.attempts[a].reservation == s.api.attempts[a].reservation
      && h.api.attempts[a].number == s.api.attempts[a].number
      && (s.api.attempts[a].status != Api.Started ==> h.api.attempts[a].status == s.api.attempts[a].status)
  {
    RunAdvancesAll(s, steps);
    hide Inv, After, Next;
    assert LedgerTheorems.AttemptAdvances(s.api.attempts[a], After(s, steps).api.attempts[a]);
  }
}
